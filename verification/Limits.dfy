/**
  * The limiter of logcenter/limit.go over nested values. Go iterates a map in any order, so when truncated
  * keys collide any of the colliding entries may win: limiting is a relation between a value and its possible
  * results. The encoded size of a value is a parameter.
  */
module Limits {
  import opened Bytes
  import opened Events
  import opened Utf8

  /** The ceilings, and the truncation that `limitString` applies. */
  datatype Limiter = Limiter(
    maxString: int,
    cut: Text -> Text,
    maxMetadata: int,
    maxData: int,
    maxAuditValue: int,
    maxEvent: int,
    encodedSize: Value -> Option<nat>,
    encodedEventSize: Event -> Option<nat>)

  const MAX_JSON_VALUE_BYTES: nat := 5 * 1024 * 1024

  predicate Fits(l: Limiter, t: Text) {
    l.maxString <= 0 || |t| <= l.maxString
  }

  /** What limiting needs of truncation: the result fits, and a text that fits is left alone. */
  ghost predicate Cuts(l: Limiter) {
    && (forall t :: Fits(l, l.cut(t)))
    && (forall t :: Fits(l, t) ==> l.cut(t) == t)
  }

  /** `newLimiter`. */
  function NewLimiter(
    maxString: int, maxMetadata: int, maxData: int, maxAuditValue: int, maxEvent: int,
    encodedSize: Value -> Option<nat>, encodedEventSize: Event -> Option<nat>): (l: Limiter)
    ensures Cuts(l) && forall t :: l.cut(t) == Truncate(t, maxString)
    ensures l.maxString == maxString && l.maxMetadata == maxMetadata && l.maxData == maxData
    ensures l.maxAuditValue == maxAuditValue && l.maxEvent == maxEvent
  {
    Limiter(maxString, t => Truncate(t, maxString), maxMetadata, maxData, maxAuditValue, maxEvent,
            encodedSize, encodedEventSize)
  }

  // ----- Limiting a value

  function Entries(f: Fields): map<Text, Value> {
    if f.Fields? then f.entries else map[]
  }

  /** `r` is a possible result of `limitValue`. */
  ghost predicate Limited(l: Limiter, v: Value, r: Value)
    decreases v
  {
    match v
    case Str(text) => r == Str(l.cut(text))
    case RawMap(fields) => r.Object? && r.fields.Fields? && LimitedEntries(l, fields, r.fields.entries)
    case Object(fields) => r.Object? && r.fields.Fields? && LimitedEntries(l, fields, r.fields.entries)
    case List(items) =>
      r.List? && |r.items| == |items| && forall i :: 0 <= i < |items| ==> Limited(l, items[i], r.items[i])
    case Texts(texts) =>
      r.Texts? && |r.texts| == |texts| && forall i :: 0 <= i < |texts| ==> r.texts[i] == l.cut(texts[i])
    case Changes(changes) =>
      r.Changes? && |r.changes| == |changes| &&
      forall i :: 0 <= i < |changes| ==>
        && r.changes[i].field == l.cut(changes[i].field)
        && Limited(l, changes[i].oldValue, r.changes[i].oldValue)
        && Limited(l, changes[i].newValue, r.changes[i].newValue)
    case _ => r == v
  }

  /** The entry at a truncated key comes from one of the keys truncated to it. */
  ghost predicate ComesFrom(l: Limiter, f: Fields, source: Text, key: Text, r: Value)
    decreases f, 0
  {
    source in Entries(f) && l.cut(source) == key && Limited(l, Entries(f)[source], r)
  }

  ghost predicate HasSource(l: Limiter, f: Fields, key: Text, r: Value)
    decreases f, 1
  {
    exists source :: ComesFrom(l, f, source, key, r)
  }

  ghost predicate LimitedEntries(l: Limiter, f: Fields, out: map<Text, Value>)
    decreases f, 2
  {
    && (forall source :: source in Entries(f) ==> l.cut(source) in out)
    && (forall key :: key in out ==> HasSource(l, f, key, out[key]))
  }

  /** Within the limit at every depth, and in the form the limiter produces. */
  ghost predicate Settled(l: Limiter, v: Value) {
    match v
    case Str(text) => Fits(l, text)
    case RawMap(_) => false
    case Object(fields) =>
      fields.Fields? && forall key :: key in fields.entries ==> Fits(l, key) && Settled(l, fields.entries[key])
    case List(items) => forall i :: 0 <= i < |items| ==> Settled(l, items[i])
    case Texts(texts) => forall i :: 0 <= i < |texts| ==> Fits(l, texts[i])
    case Changes(changes) =>
      forall i :: 0 <= i < |changes| ==>
        Fits(l, changes[i].field) && Settled(l, changes[i].oldValue) && Settled(l, changes[i].newValue)
    case _ => true
  }

  lemma {:induction false} SourceOf(l: Limiter, f: Fields, out: map<Text, Value>, key: Text) returns (source: Text)
    requires LimitedEntries(l, f, out) && key in out
    ensures source in Entries(f) && l.cut(source) == key && Limited(l, Entries(f)[source], out[key])
  {
    assert HasSource(l, f, key, out[key]);
    source :| ComesFrom(l, f, source, key, out[key]);
  }

  lemma {:induction false} LimitedEntriesSettle(l: Limiter, f: Fields, out: map<Text, Value>)
    requires Cuts(l) && LimitedEntries(l, f, out)
    ensures forall key :: key in out ==> Fits(l, key) && Settled(l, out[key])
    decreases f, 1
  {
    forall key | key in out
      ensures Fits(l, key) && Settled(l, out[key])
    {
      var source := SourceOf(l, f, out, key);
      LimitedSettles(l, Entries(f)[source], out[key]);
    }
  }

  /** Whatever the iteration order, every string and key of the result is within the limit. */
  lemma {:induction false} LimitedSettles(l: Limiter, v: Value, r: Value)
    requires Cuts(l) && Limited(l, v, r)
    ensures Settled(l, r)
    decreases v, 0
  {
    match v {
      case RawMap(fields) => LimitedEntriesSettle(l, fields, r.fields.entries);
      case Object(fields) => LimitedEntriesSettle(l, fields, r.fields.entries);
      case List(items) =>
        forall i | 0 <= i < |items|
          ensures Settled(l, r.items[i])
        {
          LimitedSettles(l, items[i], r.items[i]);
        }
      case Changes(changes) =>
        forall i | 0 <= i < |changes|
          ensures Settled(l, r.changes[i].oldValue) && Settled(l, r.changes[i].newValue)
        {
          LimitedSettles(l, changes[i].oldValue, r.changes[i].oldValue);
          LimitedSettles(l, changes[i].newValue, r.changes[i].newValue);
        }
      case _ =>
    }
  }

  lemma {:induction false} SettledEntriesStay(l: Limiter, f: Fields, out: map<Text, Value>)
    requires Cuts(l) && f.Fields?
    requires forall key :: key in f.entries ==> Fits(l, key) && Settled(l, f.entries[key])
    requires LimitedEntries(l, f, out)
    ensures out == f.entries
    decreases f, 1
  {
    forall key | key in out
      ensures key in f.entries && out[key] == f.entries[key]
    {
      var source := SourceOf(l, f, out, key);
      SettledFixed(l, f.entries[source], out[key]);
    }
    forall key | key in f.entries
      ensures key in out
    {
      assert l.cut(key) in out;
    }
  }

  lemma {:induction false} SettledEntriesPossible(l: Limiter, f: Fields)
    requires Cuts(l) && f.Fields?
    requires forall key :: key in f.entries ==> Fits(l, key) && Settled(l, f.entries[key])
    ensures LimitedEntries(l, f, f.entries)
    decreases f, 1
  {
    forall key | key in f.entries
      ensures l.cut(key) in f.entries
      ensures HasSource(l, f, key, f.entries[key])
    {
      SettledFixed(l, f.entries[key], f.entries[key]);
      assert ComesFrom(l, f, key, key, f.entries[key]);
    }
  }

  /** Limiting a settled value changes nothing, whatever the iteration order. */
  lemma {:induction false} SettledFixed(l: Limiter, v: Value, r: Value)
    requires Cuts(l) && Settled(l, v)
    ensures Limited(l, v, r) <==> r == v
    decreases v, 0
  {
    match v {
      case Object(fields) =>
        SettledEntriesPossible(l, fields);
        if Limited(l, v, r) {
          SettledEntriesStay(l, fields, r.fields.entries);
        }
      case List(items) =>
        if r.List? && |r.items| == |items| {
          forall i | 0 <= i < |items|
            ensures Limited(l, items[i], r.items[i]) <==> r.items[i] == items[i]
          {
            SettledFixed(l, items[i], r.items[i]);
          }
        }
      case Changes(changes) =>
        if r.Changes? && |r.changes| == |changes| {
          forall i | 0 <= i < |changes|
            ensures Limited(l, changes[i].oldValue, r.changes[i].oldValue)
               <==> r.changes[i].oldValue == changes[i].oldValue
            ensures Limited(l, changes[i].newValue, r.changes[i].newValue)
               <==> r.changes[i].newValue == changes[i].newValue
          {
            SettledFixed(l, changes[i].oldValue, r.changes[i].oldValue);
            SettledFixed(l, changes[i].newValue, r.changes[i].newValue);
          }
        }
      case _ =>
    }
  }

  /** Limiting any result again is the identity, even when truncated keys collided the first time. */
  lemma {:induction false} LimitTwice(l: Limiter, v: Value, r: Value, again: Value)
    requires Cuts(l) && Limited(l, v, r) && Limited(l, r, again)
    ensures again == r
  {
    LimitedSettles(l, v, r);
    SettledFixed(l, r, again);
  }

  // ----- What becomes of each place of a value

  /** One step into a value: a list item, a map entry, or a part of a recorded change. */
  datatype Place = Item(i: nat) | Entry(key: Text) | FieldOf(i: nat) | OldOf(i: nat) | NewOf(i: nat)

  /** What is at a place of a value. */
  function Into(v: Value, place: Place): Option<Value> {
    match place
    case Item(i) =>
      if v.List? && i < |v.items| then Some(v.items[i])
      else if v.Texts? && i < |v.texts| then Some(Str(v.texts[i]))
      else None
    case Entry(key) =>
      if v.RawMap? && key in Entries(v.raw) then Some(Entries(v.raw)[key])
      else if v.Object? && key in Entries(v.fields) then Some(Entries(v.fields)[key])
      else None
    case FieldOf(i) => if v.Changes? && i < |v.changes| then Some(Str(v.changes[i].field)) else None
    case OldOf(i) => if v.Changes? && i < |v.changes| then Some(v.changes[i].oldValue) else None
    case NewOf(i) => if v.Changes? && i < |v.changes| then Some(v.changes[i].newValue) else None
  }

  function At(v: Value, path: seq<Place>): Option<Value>
    decreases |path|
  {
    if path == [] then Some(v)
    else
      match Into(v, path[0])
      case None => None
      case Some(inner) => At(inner, path[1..])
  }

  function KeysOf(v: Value): set<Text> {
    if v.RawMap? then Entries(v.raw).Keys else if v.Object? then Entries(v.fields).Keys else {}
  }

  /** The same place once keys are truncated. */
  function Truncated(place: Place, max: int): Place {
    if place.Entry? then Entry(Truncate(place.key, max)) else place
  }

  /** The path in a limited value that the path in the value leads to. */
  ghost predicate LeadsTo(path: seq<Place>, limited: seq<Place>, max: int) {
    |path| == |limited| && forall k :: 0 <= k < |path| ==> limited[k] == Truncated(path[k], max)
  }

  /**
    * What limiting makes of what it finds at a place, looking no deeper: a string is truncated, a map has the
    * truncated keys, lists keep their lengths, and everything else is left alone.
    */
  ghost predicate LimitedHere(max: int, v: Value, r: Value) {
    match v
    case Str(text) => r == Str(Truncate(text, max))
    case RawMap(_) => r.Object? && KeysOf(r) == set key | key in KeysOf(v) :: Truncate(key, max)
    case Object(_) => r.Object? && KeysOf(r) == set key | key in KeysOf(v) :: Truncate(key, max)
    case List(items) => r.List? && |r.items| == |items|
    case Texts(texts) => r.Texts? && |r.texts| == |texts|
    case Changes(changes) => r.Changes? && |r.changes| == |changes|
    case _ => r == v
  }

  /** The limiter truncates as the library does. */
  ghost predicate Truncates(l: Limiter) {
    forall t :: l.cut(t) == Truncate(t, l.maxString)
  }

  lemma {:induction false} EntriesHere(l: Limiter, f: Fields, out: map<Text, Value>)
    requires Truncates(l) && LimitedEntries(l, f, out)
    ensures out.Keys == set key | key in Entries(f).Keys :: Truncate(key, l.maxString)
  {
    forall key | key in out
      ensures exists source :: source in Entries(f).Keys && Truncate(source, l.maxString) == key
    {
      var source := SourceOf(l, f, out, key);
    }
    forall source | source in Entries(f).Keys
      ensures Truncate(source, l.maxString) in out
    {
      assert l.cut(source) in out;
    }
  }

  lemma {:induction false} HereLimited(l: Limiter, v: Value, r: Value)
    requires Truncates(l) && Limited(l, v, r)
    ensures LimitedHere(l.maxString, v, r)
  {
    match v {
      case RawMap(fields) => EntriesHere(l, fields, r.fields.entries);
      case Object(fields) => EntriesHere(l, fields, r.fields.entries);
      case _ =>
    }
  }

  /** Every place inside a limited value comes from a place inside the value. */
  lemma {:induction false} IntoSource(l: Limiter, v: Value, r: Value, place: Place) returns (source: Place)
    requires Truncates(l) && Limited(l, v, r) && Into(r, place).Some?
    ensures place == Truncated(source, l.maxString) && Into(v, source).Some?
    ensures Limited(l, Into(v, source).value, Into(r, place).value)
  {
    source := place;
    if place.Entry? {
      var fields := if v.RawMap? then v.raw else v.fields;
      var key := SourceOf(l, fields, r.fields.entries, place.key);
      source := Entry(key);
    }
  }

  /**
    * Nothing in a limited value is made up: whatever stands at any path of it is what limiting makes of what
    * stands at some path of the value that leads there -- a string is the truncation of the string there.
    */
  lemma {:induction false} LimitedByPlace(l: Limiter, v: Value, r: Value, path: seq<Place>) returns (source: seq<Place>)
    requires Truncates(l) && Limited(l, v, r) && At(r, path).Some?
    ensures LeadsTo(source, path, l.maxString)
    ensures At(v, source).Some? && LimitedHere(l.maxString, At(v, source).value, At(r, path).value)
    decreases |path|
  {
    if path == [] {
      source := [];
      HereLimited(l, v, r);
    } else {
      var first := IntoSource(l, v, r, path[0]);
      var rest := LimitedByPlace(l, Into(v, first).value, Into(r, path[0]).value, path[1..]);
      source := [first] + rest;
      assert source[1..] == rest;
      assert forall k :: 0 < k < |path| ==> path[k] == path[1..][k - 1];
    }
  }

  /** No other key of a map on the way is truncated to the same text. */
  ghost predicate Unambiguous(max: int, v: Value, path: seq<Place>)
    decreases |path|
  {
    path != [] && Into(v, path[0]).Some? ==>
      && (path[0].Entry? ==>
            forall key :: key in KeysOf(v) && Truncate(key, max) == Truncate(path[0].key, max) ==> key == path[0].key)
      && Unambiguous(max, Into(v, path[0]).value, path[1..])
  }

  function TruncatedPath(path: seq<Place>, max: int): (r: seq<Place>)
    ensures |r| == |path|
  {
    seq(|path|, k requires 0 <= k < |path| => Truncated(path[k], max))
  }

  lemma {:induction false} IntoKept(l: Limiter, v: Value, r: Value, place: Place)
    requires Truncates(l) && Limited(l, v, r) && Into(v, place).Some?
    requires Unambiguous(l.maxString, v, [place])
    ensures Into(r, Truncated(place, l.maxString)).Some?
    ensures Limited(l, Into(v, place).value, Into(r, Truncated(place, l.maxString)).value)
  {
    if place.Entry? {
      var fields := if v.RawMap? then v.raw else v.fields;
      assert l.cut(place.key) in r.fields.entries;
      var source := SourceOf(l, fields, r.fields.entries, l.cut(place.key));
      assert source == place.key;
    }
  }

  /**
    * And nothing is lost: whatever stands at a path of the value on which no two keys are truncated alike is,
    * limited, at the truncated path of the result.
    */
  lemma {:induction false} PlacesKept(l: Limiter, v: Value, r: Value, path: seq<Place>)
    requires Truncates(l) && Limited(l, v, r) && At(v, path).Some? && Unambiguous(l.maxString, v, path)
    ensures At(r, TruncatedPath(path, l.maxString)).Some?
    ensures LimitedHere(l.maxString, At(v, path).value, At(r, TruncatedPath(path, l.maxString)).value)
    decreases |path|
  {
    if path == [] {
      HereLimited(l, v, r);
    } else {
      IntoKept(l, v, r, path[0]);
      var there := Truncated(path[0], l.maxString);
      PlacesKept(l, Into(v, path[0]).value, Into(r, there).value, path[1..]);
      assert TruncatedPath(path, l.maxString)[1..] == TruncatedPath(path[1..], l.maxString);
    }
  }

  // ----- The loops

  method LimitFieldsMap(l: Limiter, f: Fields) returns (out: map<Text, Value>)
    ensures LimitedEntries(l, f, out)
    decreases f, 1
  {
    var entries := Entries(f);
    var todo := entries.Keys;
    out := map[];
    while todo != {}
      invariant todo <= entries.Keys
      invariant forall source :: source in entries && source !in todo ==> l.cut(source) in out
      invariant forall key :: key in out ==> HasSource(l, f, key, out[key])
      decreases todo
    {
      var source :| source in todo;
      todo := todo - {source};
      var value := LimitValue(l, entries[source]);
      ghost var before := out;
      var cut := l.cut(source);
      out := out[cut := value];
      assert ComesFrom(l, f, source, cut, value);
      forall key | key in out
        ensures HasSource(l, f, key, out[key])
      {
        if key != cut {
          assert key in before && out[key] == before[key];
        }
      }
    }
  }

  method LimitValue(l: Limiter, v: Value) returns (r: Value)
    ensures Limited(l, v, r)
    decreases v, 0
  {
    match v {
      case Str(text) => return Str(l.cut(text));
      case RawMap(fields) =>
        var out := LimitFieldsMap(l, fields);
        return Object(Fields(out));
      case Object(fields) =>
        var out := LimitFieldsMap(l, fields);
        return Object(Fields(out));
      case List(items) =>
        var out: seq<Value> := [];
        for i := 0 to |items|
          invariant |out| == i
          invariant forall j :: 0 <= j < i ==> Limited(l, items[j], out[j])
        {
          var item := LimitValue(l, items[i]);
          out := out + [item];
        }
        return List(out);
      case Texts(texts) =>
        var out: seq<Text> := [];
        for i := 0 to |texts|
          invariant |out| == i
          invariant forall j :: 0 <= j < i ==> out[j] == l.cut(texts[j])
        {
          out := out + [l.cut(texts[i])];
        }
        return Texts(out);
      case Changes(changes) =>
        var out: seq<Change> := [];
        for i := 0 to |changes|
          invariant |out| == i
          invariant forall j :: 0 <= j < i ==>
                      && out[j].field == l.cut(changes[j].field)
                      && Limited(l, changes[j].oldValue, out[j].oldValue)
                      && Limited(l, changes[j].newValue, out[j].newValue)
        {
          var oldValue := LimitValue(l, changes[i].oldValue);
          var newValue := LimitValue(l, changes[i].newValue);
          out := out + [Change(l.cut(changes[i].field), oldValue, newValue)];
        }
        return Changes(out);
      case _ => return v;
    }
  }

  // ----- Ceilings on the encoded size

  function JsonSize(l: Limiter, v: Value): nat {
    if v.Nil? then 0
    else
      match l.encodedSize(v)
      case None => MAX_JSON_VALUE_BYTES + 1
      case Some(n) => n
  }

  const TRUNCATED_KEY := Ascii("_truncated")
  const TRUNCATED_FIELD_KEY := Ascii("_truncated_field")

  function Placeholder(field: Text): Value {
    Object(Fields(map[TRUNCATED_KEY := Boolean(true), TRUNCATED_FIELD_KEY := Str(field)]))
  }

  /** The limited value if it is small enough, else the placeholder if that is, else nil. */
  function UnderCeiling(l: Limiter, field: Text, limited: Value, max: int): (r: Value)
    ensures r == limited || r == Placeholder(field) || r == Nil
    ensures r.Nil? || JsonSize(l, r) <= max
  {
    if JsonSize(l, limited) <= max then limited
    else if JsonSize(l, Placeholder(field)) <= max then Placeholder(field)
    else Nil
  }

  /** `r` is a possible result of `limitJSONValue`. */
  ghost predicate JsonLimited(l: Limiter, field: Text, v: Value, max: int, r: Value) {
    if v.Nil? then r == Nil else exists w :: Limited(l, v, w) && r == UnderCeiling(l, field, w, max)
  }

  method LimitJsonValue(l: Limiter, field: Text, v: Value, max: int) returns (r: Value)
    ensures JsonLimited(l, field, v, max, r)
  {
    if v.Nil? {
      return Nil;
    }
    var limited := LimitValue(l, v);
    return UnderCeiling(l, field, limited, max);
  }

  function ToFields(v: Value): Fields {
    if v.Object? then v.fields else NilFields
  }

  /** `r` is what `limitFields` makes of a map limited once to `once`. */
  ghost predicate FieldsLimited(l: Limiter, field: Text, f: Fields, max: int, r: Fields) {
    if f.NilFields? then r == NilFields
    else exists once :: Limited(l, Object(f), once) && r == ToFields(UnderCeiling(l, field, once, max))
  }

  /** `limitFields` limits the map twice; the second pass finds nothing to do. */
  method LimitFields(l: Limiter, field: Text, f: Fields, max: int) returns (r: Fields)
    requires Cuts(l)
    ensures FieldsLimited(l, field, f, max, r)
  {
    if f.NilFields? {
      return NilFields;
    }
    var once := LimitValue(l, Object(f));
    var again := LimitJsonValue(l, field, once, max);
    ghost var twice :| Limited(l, once, twice) && again == UnderCeiling(l, field, twice, max);
    LimitTwice(l, Object(f), once, twice);
    return ToFields(again);
  }

  /**
    * A limited field is nil or within its ceiling. What is neither nil nor the placeholder is the value,
    * limited; and a value is given up altogether only when not even the placeholder is small enough.
    */
  lemma {:induction false} CeilingsHold(l: Limiter, field: Text, v: Value, f: Fields, max: int, r: Value, g: Fields)
    requires JsonLimited(l, field, v, max, r) && FieldsLimited(l, field, f, max, g)
    ensures r.Nil? || JsonSize(l, r) <= max
    ensures g.NilFields? || JsonSize(l, Object(g)) <= max
    ensures !r.Nil? && r != Placeholder(field) ==> Limited(l, v, r)
    ensures g.Fields? && Object(g) != Placeholder(field) ==> Limited(l, Object(f), Object(g))
    ensures (r.Nil? && !v.Nil?) || (g.NilFields? && f.Fields?) ==> JsonSize(l, Placeholder(field)) > max
  {
    if f.Fields? {
      var once :| Limited(l, Object(f), once) && g == ToFields(UnderCeiling(l, field, once, max));
    }
  }

  /** A value within the limits and within its ceiling is left as it is. */
  lemma {:induction false} SmallValuesStay(l: Limiter, field: Text, v: Value, f: Fields, max: int, r: Value, g: Fields)
    requires Cuts(l) && JsonLimited(l, field, v, max, r) && FieldsLimited(l, field, f, max, g)
    ensures Settled(l, v) && JsonSize(l, v) <= max ==> r == v
    ensures f.Fields? && Settled(l, Object(f)) && JsonSize(l, Object(f)) <= max ==> g == f
  {
    if !v.Nil? && Settled(l, v) {
      var w :| Limited(l, v, w) && r == UnderCeiling(l, field, w, max);
      SettledFixed(l, v, w);
    }
    if f.Fields? && Settled(l, Object(f)) {
      var once :| Limited(l, Object(f), once) && g == ToFields(UnderCeiling(l, field, once, max));
      SettledFixed(l, Object(f), once);
    }
  }

  /**
    * A value that cannot be encoded counts as larger than five megabytes: under any ceiling up to that it is
    * replaced, by the two-entry placeholder that names its field, or by nil if that is too large.
    */
  lemma {:induction false} UnencodableReplaced(l: Limiter, field: Text, v: Value, max: int, r: Value)
    requires Cuts(l) && Settled(l, v) && !v.Nil? && l.encodedSize(v).None? && max <= 5 * 1024 * 1024
    requires JsonLimited(l, field, v, max, r)
    ensures r.Nil? || (r.Object? && r.fields.Fields? && r.fields.entries ==
              map[Ascii("_truncated") := Boolean(true), Ascii("_truncated_field") := Str(field)])
  {
    var w :| Limited(l, v, w) && r == UnderCeiling(l, field, w, max);
    SettledFixed(l, v, w);
  }

  lemma {:induction false} PlaceholderSettledIff(l: Limiter, field: Text)
    requires |field| <= |TRUNCATED_FIELD_KEY|
    ensures Settled(l, Placeholder(field)) <==> RoomForPlaceholder(l)
  {
    var entries := Placeholder(field).fields.entries;
    assert |TRUNCATED_KEY| == 10 && |TRUNCATED_FIELD_KEY| == 16;
    assert TRUNCATED_FIELD_KEY in entries && TRUNCATED_KEY in entries;
    assert entries[TRUNCATED_FIELD_KEY] == Str(field) && entries[TRUNCATED_KEY] == Boolean(true);
    assert forall key :: key in entries ==> key == TRUNCATED_KEY || key == TRUNCATED_FIELD_KEY;
  }

  /** The string limit is off, or allows the placeholder's 16-byte key. */
  predicate RoomForPlaceholder(l: Limiter) {
    l.maxString <= 0 || l.maxString >= 16
  }

  /**
    * Exactly when the string limit holds in a limited field (field names being short): unless the limit is too
    * small for the placeholder's own keys, the limited value is too large, and the placeholder is not.
    */
  lemma {:induction false} FieldSettledIff(l: Limiter, field: Text, v: Value, w: Value, max: int)
    requires Cuts(l) && Limited(l, v, w) && |field| <= |TRUNCATED_FIELD_KEY|
    ensures Settled(l, UnderCeiling(l, field, w, max))
       <==> RoomForPlaceholder(l) || JsonSize(l, w) <= max || JsonSize(l, Placeholder(field)) > max
  {
    PlaceholderSettledIff(l, field);
    LimitedSettles(l, v, w);
  }

  /** Some value, limited, is over the ceiling. */
  ghost predicate SomethingTooLarge(l: Limiter, max: int) {
    exists v, w :: TooLarge(l, max, v, w)
  }

  ghost predicate TooLarge(l: Limiter, max: int, v: Value, w: Value) {
    !v.Nil? && Limited(l, v, w) && JsonSize(l, w) > max
  }

  ghost predicate AlwaysSettled(l: Limiter, field: Text, max: int) {
    forall v, r :: JsonLimited(l, field, v, max, r) ==> Settled(l, r)
  }

  /** The same for settings: when the string limit holds in the field whatever value is put there. */
  lemma {:induction false} FieldAlwaysSettledIff(l: Limiter, field: Text, max: int)
    requires Cuts(l) && |field| <= |TRUNCATED_FIELD_KEY|
    ensures AlwaysSettled(l, field, max)
       <==> RoomForPlaceholder(l) || JsonSize(l, Placeholder(field)) > max || !SomethingTooLarge(l, max)
  {
    if RoomForPlaceholder(l) || JsonSize(l, Placeholder(field)) > max || !SomethingTooLarge(l, max) {
      forall v, r | JsonLimited(l, field, v, max, r)
        ensures Settled(l, r)
      {
        if !v.Nil? {
          var w :| Limited(l, v, w) && r == UnderCeiling(l, field, w, max);
          assert TooLarge(l, max, v, w) <==> JsonSize(l, w) > max;
          FieldSettledIff(l, field, v, w, max);
        }
      }
    } else {
      var v, w :| TooLarge(l, max, v, w);
      assert JsonLimited(l, field, v, max, UnderCeiling(l, field, w, max));
      FieldSettledIff(l, field, v, w, max);
    }
  }

  lemma {:induction false} JsonSettles(l: Limiter, field: Text, v: Value, max: int, r: Value)
    requires Cuts(l) && RoomForPlaceholder(l) && |field| <= |TRUNCATED_FIELD_KEY|
    requires JsonLimited(l, field, v, max, r)
    ensures Settled(l, r)
  {
    if !v.Nil? {
      var w :| Limited(l, v, w) && r == UnderCeiling(l, field, w, max);
      FieldSettledIff(l, field, v, w, max);
    }
  }

  lemma {:induction false} FieldsSettle(l: Limiter, field: Text, f: Fields, max: int, r: Fields)
    requires Cuts(l) && RoomForPlaceholder(l) && |field| <= |TRUNCATED_FIELD_KEY|
    requires FieldsLimited(l, field, f, max, r) && r.Fields?
    ensures Settled(l, Object(r))
  {
    var once :| Limited(l, Object(f), once) && r == ToFields(UnderCeiling(l, field, once, max));
    FieldSettledIff(l, field, Object(f), once, max);
  }

  /** Forty zeros: `[0,0,...,0]`, which is 81 bytes of JSON. */
  const ZEROS := List(seq(40, _ => Number(0)))

  /**
    * With a string limit of 4 bytes and a ceiling of 64, a list of forty zeros recorded as `changes` is replaced
    * by its placeholder, `{"_truncated":true,"_truncated_field":"changes"}` of 48 bytes, whose keys are longer
    * than any string may be.
    */
  lemma {:induction false} SmallLimitMissesPlaceholder(l: Limiter, r: Value)
    requires Cuts(l) && l.maxString == 4
    requires l.encodedSize(ZEROS) == Some(81) && l.encodedSize(Placeholder(CHANGES)) == Some(48)
    ensures JsonLimited(l, CHANGES, ZEROS, 64, r) <==> r == Placeholder(CHANGES)
    ensures JsonLimited(l, CHANGES, ZEROS, 64, r) ==> !Settled(l, r)
  {
    assert |CHANGES| == 7 && |TRUNCATED_FIELD_KEY| == 16;
    SettledFixed(l, ZEROS, ZEROS);
    assert UnderCeiling(l, CHANGES, ZEROS, 64) == Placeholder(CHANGES);
    if JsonLimited(l, CHANGES, ZEROS, 64, r) {
      var w :| Limited(l, ZEROS, w) && r == UnderCeiling(l, CHANGES, w, 64);
      SettledFixed(l, ZEROS, w);
    }
    FieldSettledIff(l, CHANGES, ZEROS, ZEROS, 64);
  }

  // ----- The event

  /** The string fields `limitEvent` truncates; the envelope (IDs, type, times, service) is not among them. */
  function StringsLimited(l: Limiter, e: Event): (r: Event)
  {
    e.(idempotencyKey := l.cut(e.idempotencyKey), serviceVersion := l.cut(e.serviceVersion),
       classification := l.cut(e.classification), retentionHint := l.cut(e.retentionHint),
       userId := l.cut(e.userId), tenantId := l.cut(e.tenantId), operation := l.cut(e.operation),
       httpMethod := l.cut(e.httpMethod), path := l.cut(e.path), routeTemplate := l.cut(e.routeTemplate),
       kind := l.cut(e.kind), name := l.cut(e.name), message := l.cut(e.message),
       errorCode := l.cut(e.errorCode), errorMessage := l.cut(e.errorMessage), errorType := l.cut(e.errorType),
       severity := l.cut(e.severity), fingerprint := l.cut(e.fingerprint), stackTrace := l.cut(e.stackTrace),
       actorType := l.cut(e.actorType), actorId := l.cut(e.actorId), action := l.cut(e.action),
       entityType := l.cut(e.entityType), entityId := l.cut(e.entityId), fieldName := l.cut(e.fieldName),
       reason := l.cut(e.reason))
  }

  const METADATA := Ascii("metadata")
  const DATA := Ascii("data")
  const CHANGES := Ascii("changes")
  const OLD_VALUE := Ascii("old_value")
  const NEW_VALUE := Ascii("new_value")

  ghost predicate EventLimited(l: Limiter, e: Event, r: Event) {
    && r == StringsLimited(l, e).(metadata := r.metadata, data := r.data, changes := r.changes,
                                  oldValue := r.oldValue, newValue := r.newValue)
    && FieldsLimited(l, METADATA, e.metadata, l.maxMetadata, r.metadata)
    && FieldsLimited(l, DATA, e.data, l.maxData, r.data)
    && JsonLimited(l, CHANGES, e.changes, l.maxAuditValue, r.changes)
    && JsonLimited(l, OLD_VALUE, e.oldValue, l.maxAuditValue, r.oldValue)
    && JsonLimited(l, NEW_VALUE, e.newValue, l.maxAuditValue, r.newValue)
  }

  predicate EventSizeOk(l: Limiter, e: Event) {
    l.maxEvent <= 0 || (l.encodedEventSize(e).Some? && l.encodedEventSize(e).value <= l.maxEvent)
  }

  /** `limitEvent`: the limited event, and whether it is within the size limit of an event. */
  method LimitEvent(l: Limiter, e: Event) returns (r: Event, ok: bool)
    requires Cuts(l)
    ensures EventLimited(l, e, r) && ok == EventSizeOk(l, r)
  {
    var strings := StringsLimited(l, e);
    var metadata := LimitFields(l, METADATA, e.metadata, l.maxMetadata);
    var data := LimitFields(l, DATA, e.data, l.maxData);
    var changes := LimitJsonValue(l, CHANGES, e.changes, l.maxAuditValue);
    var oldValue := LimitJsonValue(l, OLD_VALUE, e.oldValue, l.maxAuditValue);
    var newValue := LimitJsonValue(l, NEW_VALUE, e.newValue, l.maxAuditValue);
    r := strings.(metadata := metadata, data := data, changes := changes, oldValue := oldValue, newValue := newValue);
    if l.maxEvent > 0 {
      var size := l.encodedEventSize(r);
      return r, size.Some? && size.value <= l.maxEvent;
    }
    return r, true;
  }

  /** Every one of the 26 texts that are truncated is within the limit. */
  ghost predicate TextsFit(l: Limiter, e: Event) {
    && Fits(l, e.idempotencyKey) && Fits(l, e.serviceVersion) && Fits(l, e.classification)
    && Fits(l, e.retentionHint) && Fits(l, e.userId) && Fits(l, e.tenantId) && Fits(l, e.operation)
    && Fits(l, e.httpMethod) && Fits(l, e.path) && Fits(l, e.routeTemplate) && Fits(l, e.kind)
    && Fits(l, e.name) && Fits(l, e.message) && Fits(l, e.errorCode) && Fits(l, e.errorMessage)
    && Fits(l, e.errorType) && Fits(l, e.severity) && Fits(l, e.fingerprint) && Fits(l, e.stackTrace)
    && Fits(l, e.actorType) && Fits(l, e.actorId) && Fits(l, e.action) && Fits(l, e.entityType)
    && Fits(l, e.entityId) && Fits(l, e.fieldName) && Fits(l, e.reason)
  }

  /** Every nested string and key, in the maps users fill and in the audit values, is within the limit. */
  ghost predicate NestedSettled(l: Limiter, e: Event) {
    && (e.metadata.Fields? ==> Settled(l, Object(e.metadata)))
    && (e.data.Fields? ==> Settled(l, Object(e.data)))
    && Settled(l, e.changes) && Settled(l, e.oldValue) && Settled(l, e.newValue)
  }

  /** Every structured field is nil or within its ceiling. */
  ghost predicate UnderCeilings(l: Limiter, e: Event) {
    && (e.metadata.NilFields? || JsonSize(l, Object(e.metadata)) <= l.maxMetadata)
    && (e.data.NilFields? || JsonSize(l, Object(e.data)) <= l.maxData)
    && (e.changes.Nil? || JsonSize(l, e.changes) <= l.maxAuditValue)
    && (e.oldValue.Nil? || JsonSize(l, e.oldValue) <= l.maxAuditValue)
    && (e.newValue.Nil? || JsonSize(l, e.newValue) <= l.maxAuditValue)
  }

  lemma {:induction false} EventUnderCeilings(l: Limiter, e: Event, r: Event)
    requires EventLimited(l, e, r)
    ensures UnderCeilings(l, r)
  {
    CeilingsHold(l, METADATA, Nil, e.metadata, l.maxMetadata, Nil, r.metadata);
    CeilingsHold(l, DATA, Nil, e.data, l.maxData, Nil, r.data);
    CeilingsHold(l, CHANGES, e.changes, NilFields, l.maxAuditValue, r.changes, NilFields);
    CeilingsHold(l, OLD_VALUE, e.oldValue, NilFields, l.maxAuditValue, r.oldValue, NilFields);
    CeilingsHold(l, NEW_VALUE, e.newValue, NilFields, l.maxAuditValue, r.newValue, NilFields);
  }

  lemma {:induction false} EventSettles(l: Limiter, e: Event, r: Event)
    requires Cuts(l) && RoomForPlaceholder(l) && EventLimited(l, e, r)
    ensures NestedSettled(l, r)
  {
    if r.metadata.Fields? {
      FieldsSettle(l, METADATA, e.metadata, l.maxMetadata, r.metadata);
    }
    if r.data.Fields? {
      FieldsSettle(l, DATA, e.data, l.maxData, r.data);
    }
    JsonSettles(l, CHANGES, e.changes, l.maxAuditValue, r.changes);
    JsonSettles(l, OLD_VALUE, e.oldValue, l.maxAuditValue, r.oldValue);
    JsonSettles(l, NEW_VALUE, e.newValue, l.maxAuditValue, r.newValue);
  }

  /** The texts of the first event are those of the second, truncated; what is not listed is the same. */
  ghost predicate TextsTruncated(max: int, r: Event, e: Event) {
    && r.idempotencyKey == Truncate(e.idempotencyKey, max) && r.serviceVersion == Truncate(e.serviceVersion, max)
    && r.classification == Truncate(e.classification, max) && r.retentionHint == Truncate(e.retentionHint, max)
    && r.userId == Truncate(e.userId, max) && r.tenantId == Truncate(e.tenantId, max)
    && r.operation == Truncate(e.operation, max) && r.httpMethod == Truncate(e.httpMethod, max)
    && r.path == Truncate(e.path, max) && r.routeTemplate == Truncate(e.routeTemplate, max)
    && r.kind == Truncate(e.kind, max) && r.name == Truncate(e.name, max)
    && r.message == Truncate(e.message, max) && r.errorCode == Truncate(e.errorCode, max)
    && r.errorMessage == Truncate(e.errorMessage, max) && r.errorType == Truncate(e.errorType, max)
    && r.severity == Truncate(e.severity, max) && r.fingerprint == Truncate(e.fingerprint, max)
    && r.stackTrace == Truncate(e.stackTrace, max) && r.actorType == Truncate(e.actorType, max)
    && r.actorId == Truncate(e.actorId, max) && r.action == Truncate(e.action, max)
    && r.entityType == Truncate(e.entityType, max) && r.entityId == Truncate(e.entityId, max)
    && r.fieldName == Truncate(e.fieldName, max) && r.reason == Truncate(e.reason, max)
    && r.eventId == e.eventId && r.eventType == e.eventType && r.occurredAt == e.occurredAt
    && r.environment == e.environment && r.service == e.service && r.requestId == e.requestId
    && r.traceId == e.traceId && r.spanId == e.spanId && r.parentSpanId == e.parentSpanId
    && r.status == e.status && r.level == e.level && r.httpStatus == e.httpStatus && r.durationMs == e.durationMs
    && r.startedAt == e.startedAt && r.finishedAt == e.finishedAt
  }

  /** The limited value, the placeholder with the field's own name, or nil. */
  ghost predicate Replaced(l: Limiter, field: string, v: Value, r: Value) {
    r.Nil? || r == Placeholder(Ascii(field)) || Limited(l, v, r)
  }

  /**
    * An event by its parts: 26 texts are truncated and every other field of the envelope is untouched; each of
    * the five structured fields is its own value limited, the placeholder that names it, or nil.
    */
  lemma {:induction false} EventByParts(l: Limiter, e: Event, r: Event)
    requires Truncates(l) && EventLimited(l, e, r)
    ensures TextsTruncated(l.maxString, r, e)
    ensures r.metadata.Fields? ==> Replaced(l, "metadata", Object(e.metadata), Object(r.metadata))
    ensures r.data.Fields? ==> Replaced(l, "data", Object(e.data), Object(r.data))
    ensures Replaced(l, "changes", e.changes, r.changes)
    ensures Replaced(l, "old_value", e.oldValue, r.oldValue)
    ensures Replaced(l, "new_value", e.newValue, r.newValue)
  {
    CeilingsHold(l, METADATA, Nil, e.metadata, l.maxMetadata, Nil, r.metadata);
    CeilingsHold(l, DATA, Nil, e.data, l.maxData, Nil, r.data);
    CeilingsHold(l, CHANGES, e.changes, NilFields, l.maxAuditValue, r.changes, NilFields);
    CeilingsHold(l, OLD_VALUE, e.oldValue, NilFields, l.maxAuditValue, r.oldValue, NilFields);
    CeilingsHold(l, NEW_VALUE, e.newValue, NilFields, l.maxAuditValue, r.newValue, NilFields);
  }

  /**
    * A limited event: each of the truncated texts is within the string limit, every structured field is nil or
    * within its own ceiling, and every nested string and key of all five of them is within the string limit
    * too, provided that limit has room for the placeholder.
    */
  lemma {:induction false} EventWithinLimits(l: Limiter, e: Event, r: Event)
    requires Cuts(l) && EventLimited(l, e, r)
    ensures TextsFit(l, r) && UnderCeilings(l, r)
    ensures RoomForPlaceholder(l) ==> NestedSettled(l, r)
  {
    EventUnderCeilings(l, e, r);
    if RoomForPlaceholder(l) {
      EventSettles(l, e, r);
    }
  }

  /** An event whose texts already fit keeps every one of them. */
  lemma {:induction false} ShortTextsStay(l: Limiter, e: Event)
    requires Cuts(l) && TextsFit(l, e)
    ensures StringsLimited(l, e) == e
  {}
}
