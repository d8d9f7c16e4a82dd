/** The redactor of logcenter/redaction.go over nested values; the regular expressions are a parameter. */
module Redaction {
  import opened Bytes
  import opened Events

  /** Which keys are sensitive, and what `RedactString` does to a text. */
  datatype Redactor = Redactor(sensitive: Text -> bool, scrub: Text -> Text)

  const REDACTED := Ascii("[REDACTED]")

  // ----- Sensitive keys

  predicate Contains(t: Text, part: Text) {
    exists i :: 0 <= i <= |t| && IsPrefixAt(t, i, part)
  }

  /** Containing a part is being made of something before it, the part, and something after it. */
  lemma {:induction false} ContainsIff(t: Text, part: Text)
    ensures Contains(t, part) <==> exists a: Text, b: Text :: t == a + part + b
  {
    if Contains(t, part) {
      var i :| 0 <= i <= |t| && IsPrefixAt(t, i, part);
      assert t == t[..i] + part + t[i + |part|..];
    }
    if a: Text, b: Text :| t == a + part + b {
      assert t[|a|..|a| + |part|] == part;
      assert IsPrefixAt(t, |a|, part);
    }
  }

  /** `IsSensitiveKey`; `normal` lower-cases after trimming. */
  predicate HasFragment(normal: Text -> Text, fragments: seq<Text>, key: Text) {
    exists f :: f in fragments && Contains(normal(key), f)
  }

  /** Some fragment of the configuration, blank ones apart, occurs in the key, both normalized. */
  ghost predicate Mentions(normal: Text -> Text, configured: seq<Text>, key: Text) {
    exists f :: f in configured && normal(f) != [] && Contains(normal(key), normal(f))
  }

  /** `normalizeFragments`: normalized, without blanks and duplicates. */
  method NormalizeFragments(normal: Text -> Text, fragments: seq<Text>) returns (normalized: seq<Text>)
    ensures forall i, j :: 0 <= i < j < |normalized| ==> normalized[i] != normalized[j]
    ensures forall key :: HasFragment(normal, normalized, key) <==> Mentions(normal, fragments, key)
  {
    var seen: set<Text> := {};
    normalized := [];
    for i := 0 to |fragments|
      invariant forall j, k :: 0 <= j < k < |normalized| ==> normalized[j] != normalized[k]
      invariant forall t :: t in seen <==> t in normalized
      invariant forall t :: t in normalized ==> t != [] && exists j :: 0 <= j < |fragments| && t == normal(fragments[j])
      invariant forall j :: 0 <= j < i && normal(fragments[j]) != [] ==> normal(fragments[j]) in normalized
    {
      var fragment := normal(fragments[i]);
      if fragment == [] || fragment in seen {
        continue;
      }
      seen := seen + {fragment};
      normalized := normalized + [fragment];
    }
  }

  /** `newRedactor`: a key is sensitive when a non-blank built-in or extra fragment occurs in it. */
  method NewRedactor(normal: Text -> Text, builtIn: seq<Text>, extra: seq<Text>, scrub: Text -> Text)
    returns (r: Redactor)
    ensures forall key :: r.sensitive(key) <==> Mentions(normal, builtIn, key) || Mentions(normal, extra, key)
    ensures r.scrub == scrub
  {
    var fragments := NormalizeFragments(normal, builtIn + extra);
    r := Redactor(key => HasFragment(normal, fragments, key), scrub);
    forall key
      ensures r.sensitive(key) <==> Mentions(normal, builtIn, key) || Mentions(normal, extra, key)
    {
      MentionsConcat(normal, builtIn, extra, key);
    }
  }

  lemma {:induction false} MentionsConcat(normal: Text -> Text, a: seq<Text>, b: seq<Text>, key: Text)
    ensures Mentions(normal, a + b, key) <==> Mentions(normal, a, key) || Mentions(normal, b, key)
  {
    assert forall f :: f in a + b <==> f in a || f in b;
  }

  // ----- The passes

  function RedactFields(r: Redactor, fields: Fields): Fields
    decreases fields
  {
    match fields
    case NilFields => NilFields
    case Fields(entries) =>
      Fields(map key | key in entries :: if r.sensitive(key) then Str(REDACTED) else RedactValue(r, entries[key]))
  }

  function RedactValue(r: Redactor, value: Value): Value
    decreases value, 0
  {
    match value
    case RawMap(fields) => Object(RedactFields(r, fields))
    case Object(fields) => Object(RedactFields(r, fields))
    case List(items) => List(seq(|items|, i requires 0 <= i < |items| => RedactValue(r, items[i])))
    case Changes(changes) =>
      Changes(seq(|changes|, i requires 0 <= i < |changes| =>
        Change(changes[i].field,
               RedactNamed(r, changes[i].field, changes[i].oldValue),
               RedactNamed(r, changes[i].field, changes[i].newValue))))
    case Str(text) => Str(r.scrub(text))
    case _ => value
  }

  /** `RedactNamedValue`: nil stays nil, a sensitive name hides the rest. */
  function RedactNamed(r: Redactor, name: Text, value: Value): Value
    decreases value, 1
  {
    if value.Nil? then Nil
    else if r.sensitive(name) then Str(REDACTED)
    else RedactValue(r, value)
  }

  function RedactEvent(r: Redactor, e: Event): Event {
    e.(message := r.scrub(e.message),
       errorMessage := r.scrub(e.errorMessage),
       stackTrace := r.scrub(e.stackTrace),
       reason := r.scrub(e.reason),
       metadata := RedactFields(r, e.metadata),
       data := RedactFields(r, e.data),
       changes := RedactValue(r, e.changes),
       oldValue := RedactNamed(r, e.fieldName, e.oldValue),
       newValue := RedactNamed(r, e.fieldName, e.newValue))
  }

  /** The loops that fill the fresh maps and slices. */
  method RedactFieldsLoop(r: Redactor, fields: Fields) returns (redacted: Fields)
    ensures redacted == RedactFields(r, fields)
    decreases fields, 0
  {
    if fields.NilFields? {
      return NilFields;
    }
    var entries := fields.entries;
    var out: map<Text, Value> := map[];
    var todo := entries.Keys;
    while todo != {}
      invariant todo <= entries.Keys && out.Keys == entries.Keys - todo
      invariant forall key :: key in out ==>
                  out[key] == if r.sensitive(key) then Str(REDACTED) else RedactValue(r, entries[key])
      decreases todo
    {
      var key :| key in todo;
      todo := todo - {key};
      if r.sensitive(key) {
        out := out[key := Str(REDACTED)];
      } else {
        var value := RedactValueLoop(r, entries[key]);
        out := out[key := value];
      }
    }
    return Fields(out);
  }

  method RedactValueLoop(r: Redactor, value: Value) returns (redacted: Value)
    ensures redacted == RedactValue(r, value)
    decreases value, 0
  {
    match value {
      case RawMap(fields) =>
        var out := RedactFieldsLoop(r, fields);
        return Object(out);
      case Object(fields) =>
        var out := RedactFieldsLoop(r, fields);
        return Object(out);
      case List(items) =>
        var out: seq<Value> := [];
        for i := 0 to |items|
          invariant |out| == i
          invariant forall j :: 0 <= j < i ==> out[j] == RedactValue(r, items[j])
        {
          var item := RedactValueLoop(r, items[i]);
          out := out + [item];
        }
        return List(out);
      case Changes(changes) =>
        var out: seq<Change> := [];
        for i := 0 to |changes|
          invariant |out| == i
          invariant forall j :: 0 <= j < i ==>
                      out[j] == Change(changes[j].field,
                                       RedactNamed(r, changes[j].field, changes[j].oldValue),
                                       RedactNamed(r, changes[j].field, changes[j].newValue))
        {
          var field := changes[i].field;
          var oldValue := if changes[i].oldValue.Nil? then Nil else Str(REDACTED);
          var newValue := if changes[i].newValue.Nil? then Nil else Str(REDACTED);
          if !r.sensitive(field) {
            oldValue := RedactValueLoop(r, changes[i].oldValue);
            newValue := RedactValueLoop(r, changes[i].newValue);
          }
          out := out + [Change(field, oldValue, newValue)];
        }
        return Changes(out);
      case Str(text) => return Str(r.scrub(text));
      case _ => return value;
    }
  }

  // ----- Noninterference

  predicate IsMap(v: Value) {
    v.RawMap? || v.Object?
  }

  function MapOf(v: Value): Fields
    requires IsMap(v)
  {
    if v.RawMap? then v.raw else v.fields
  }

  /**
    * Values that agree except below sensitive keys and sensitive change fields, at any depth, and up to what
    * scrubbing removes from their texts.
    */
  ghost predicate Alike(r: Redactor, v: Value, w: Value)
    decreases v, 0
  {
    match v
    case RawMap(fields) => IsMap(w) && AlikeFields(r, fields, MapOf(w))
    case Object(fields) => IsMap(w) && AlikeFields(r, fields, MapOf(w))
    case List(items) =>
      w.List? && |items| == |w.items| && forall i :: 0 <= i < |items| ==> Alike(r, items[i], w.items[i])
    case Changes(changes) =>
      w.Changes? && |changes| == |w.changes| &&
      forall i :: 0 <= i < |changes| ==>
        && changes[i].field == w.changes[i].field
        && AlikeNamed(r, changes[i].field, changes[i].oldValue, w.changes[i].oldValue)
        && AlikeNamed(r, changes[i].field, changes[i].newValue, w.changes[i].newValue)
    case Str(text) => w.Str? && r.scrub(text) == r.scrub(w.text)
    case _ => v == w
  }

  ghost predicate AlikeFields(r: Redactor, f: Fields, g: Fields)
    decreases f
  {
    match f
    case NilFields => g.NilFields?
    case Fields(entries) =>
      g.Fields? && entries.Keys == g.entries.Keys &&
      forall key :: key in entries ==> r.sensitive(key) || Alike(r, entries[key], g.entries[key])
  }

  ghost predicate AlikeNamed(r: Redactor, name: Text, v: Value, w: Value)
    decreases v, 1
  {
    v.Nil? == w.Nil? && (v.Nil? || r.sensitive(name) || Alike(r, v, w))
  }

  lemma {:induction false} RedactionSeesAlike(r: Redactor, v: Value, w: Value)
    ensures RedactValue(r, v) == RedactValue(r, w) <==> Alike(r, v, w)
    decreases v, 0
  {
    match v {
      case RawMap(fields) =>
        if IsMap(w) { RedactionSeesAlikeFields(r, fields, MapOf(w)); }
      case Object(fields) =>
        if IsMap(w) { RedactionSeesAlikeFields(r, fields, MapOf(w)); }
      case List(items) =>
        if w.List? { RedactionSeesAlikeItems(r, items, w.items); }
      case Changes(changes) =>
        if w.Changes? { RedactionSeesAlikeChanges(r, changes, w.changes); }
      case _ =>
    }
  }

  lemma {:induction false} RedactionSeesAlikeFields(r: Redactor, f: Fields, g: Fields)
    ensures RedactFields(r, f) == RedactFields(r, g) <==> AlikeFields(r, f, g)
    decreases f, 0
  {
    if f.Fields? && g.Fields? {
      var x, y := RedactFields(r, f).entries, RedactFields(r, g).entries;
      assert x.Keys == f.entries.Keys && y.Keys == g.entries.Keys;
      if f.entries.Keys == g.entries.Keys {
        forall key | key in f.entries
          ensures x[key] == y[key] <==> r.sensitive(key) || Alike(r, f.entries[key], g.entries[key])
        {
          RedactionSeesAlike(r, f.entries[key], g.entries[key]);
        }
        assert x == y <==> forall key :: key in f.entries ==> x[key] == y[key];
      }
    }
  }

  lemma {:induction false} RedactionSeesAlikeItems(r: Redactor, xs: seq<Value>, ys: seq<Value>)
    ensures RedactValue(r, List(xs)) == RedactValue(r, List(ys)) <==> Alike(r, List(xs), List(ys))
    decreases xs, 0
  {
    var a, b := RedactValue(r, List(xs)).items, RedactValue(r, List(ys)).items;
    if |xs| == |ys| {
      forall i | 0 <= i < |xs|
        ensures a[i] == b[i] <==> Alike(r, xs[i], ys[i])
      {
        RedactionSeesAlike(r, xs[i], ys[i]);
      }
      assert a == b <==> forall i :: 0 <= i < |xs| ==> a[i] == b[i];
    } else {
      assert |a| == |xs| && |b| == |ys|;
    }
  }

  lemma {:induction false} RedactionSeesAlikeNamed(r: Redactor, name: Text, v: Value, w: Value)
    ensures RedactNamed(r, name, v) == RedactNamed(r, name, w) <==> AlikeNamed(r, name, v, w)
    decreases v, 1
  {
    RedactionSeesAlike(r, v, w);
  }

  lemma {:induction false} RedactionSeesAlikeChanges(r: Redactor, xs: seq<Change>, ys: seq<Change>)
    ensures RedactValue(r, Changes(xs)) == RedactValue(r, Changes(ys)) <==> Alike(r, Changes(xs), Changes(ys))
    decreases xs, 0
  {
    var a, b := RedactValue(r, Changes(xs)).changes, RedactValue(r, Changes(ys)).changes;
    if |xs| == |ys| {
      forall i | 0 <= i < |xs|
        ensures a[i] == b[i] <==>
                  && xs[i].field == ys[i].field
                  && AlikeNamed(r, xs[i].field, xs[i].oldValue, ys[i].oldValue)
                  && AlikeNamed(r, xs[i].field, xs[i].newValue, ys[i].newValue)
      {
        RedactionSeesAlikeNamed(r, xs[i].field, xs[i].oldValue, ys[i].oldValue);
        RedactionSeesAlikeNamed(r, xs[i].field, xs[i].newValue, ys[i].newValue);
      }
      assert a == b <==> forall i :: 0 <= i < |xs| ==> a[i] == b[i];
    } else {
      assert |a| == |xs| && |b| == |ys|;
    }
  }

  /** Events that differ only in what redaction hides. */
  ghost predicate AlikeEvents(r: Redactor, e: Event, f: Event) {
    && f == e.(message := f.message, errorMessage := f.errorMessage, stackTrace := f.stackTrace, reason := f.reason,
               metadata := f.metadata, data := f.data, changes := f.changes,
               oldValue := f.oldValue, newValue := f.newValue)
    && r.scrub(e.message) == r.scrub(f.message)
    && r.scrub(e.errorMessage) == r.scrub(f.errorMessage)
    && r.scrub(e.stackTrace) == r.scrub(f.stackTrace)
    && r.scrub(e.reason) == r.scrub(f.reason)
    && AlikeFields(r, e.metadata, f.metadata)
    && AlikeFields(r, e.data, f.data)
    && Alike(r, e.changes, f.changes)
    && AlikeNamed(r, e.fieldName, e.oldValue, f.oldValue)
    && AlikeNamed(r, e.fieldName, e.newValue, f.newValue)
  }

  /**
    * Noninterference, exactly: two events redact to the same event if and only if they differ only in values
    * under sensitive keys, sensitive change fields or a sensitive field name (nil apart), or in what
    * scrubbing takes out of their texts.
    */
  lemma {:induction false} RedactionHidesExactly(r: Redactor, e: Event, f: Event)
    ensures RedactEvent(r, e) == RedactEvent(r, f) <==> AlikeEvents(r, e, f)
  {
    RedactionSeesAlikeFields(r, e.metadata, f.metadata);
    RedactionSeesAlikeFields(r, e.data, f.data);
    RedactionSeesAlike(r, e.changes, f.changes);
    RedactionSeesAlikeNamed(r, e.fieldName, e.oldValue, f.oldValue);
    RedactionSeesAlikeNamed(r, e.fieldName, e.newValue, f.newValue);
  }

  // ----- What comes out

  /** At every depth: a sensitive key holds the marker, a sensitive change field holds nil or the marker. */
  ghost predicate Clean(r: Redactor, v: Value)
    decreases v, 0
  {
    match v
    case RawMap(fields) => CleanFields(r, fields)
    case Object(fields) => CleanFields(r, fields)
    case List(items) => forall i :: 0 <= i < |items| ==> Clean(r, items[i])
    case Changes(changes) =>
      forall i :: 0 <= i < |changes| ==>
        && CleanNamed(r, changes[i].field, changes[i].oldValue)
        && CleanNamed(r, changes[i].field, changes[i].newValue)
    case _ => true
  }

  ghost predicate CleanFields(r: Redactor, f: Fields)
    decreases f, 0
  {
    f.Fields? ==>
      forall key :: key in f.entries ==>
        if r.sensitive(key) then f.entries[key] == Str(REDACTED) else Clean(r, f.entries[key])
  }

  ghost predicate CleanNamed(r: Redactor, name: Text, v: Value)
    decreases v, 1
  {
    if r.sensitive(name) then v == Nil || v == Str(REDACTED) else Clean(r, v)
  }

  /**
    * At every depth: texts are scrubbed, maps keep their keys, lists and changes their lengths and fields, nil
    * stays nil, and every other value is kept.
    */
  ghost predicate SameShape(r: Redactor, v: Value, w: Value) {
    match v
    case RawMap(fields) => w.Object? && SameKeys(r, fields, w.fields)
    case Object(fields) => w.Object? && SameKeys(r, fields, w.fields)
    case List(items) =>
      w.List? && |items| == |w.items| && forall i :: 0 <= i < |items| ==> SameShape(r, items[i], w.items[i])
    case Changes(changes) =>
      w.Changes? && |changes| == |w.changes| &&
      forall i :: 0 <= i < |changes| ==>
        && w.changes[i].field == changes[i].field
        && (w.changes[i].oldValue == Str(REDACTED) || SameShape(r, changes[i].oldValue, w.changes[i].oldValue))
        && (w.changes[i].newValue == Str(REDACTED) || SameShape(r, changes[i].newValue, w.changes[i].newValue))
        && w.changes[i].oldValue.Nil? == changes[i].oldValue.Nil?
        && w.changes[i].newValue.Nil? == changes[i].newValue.Nil?
    case Str(text) => w == Str(r.scrub(text))
    case _ => v == w
  }

  ghost predicate SameKeys(r: Redactor, f: Fields, g: Fields) {
    && f.NilFields? == g.NilFields?
    && (f.Fields? ==> f.entries.Keys == g.entries.Keys)
    && (f.Fields? ==> forall key :: key in f.entries ==>
          g.entries[key] == Str(REDACTED) || SameShape(r, f.entries[key], g.entries[key]))
  }

  ghost predicate NamedIsClean(r: Redactor, name: Text, v: Value) {
    var w := RedactNamed(r, name, v);
    CleanNamed(r, name, w) && w.Nil? == v.Nil? && (w == Str(REDACTED) || SameShape(r, v, w))
  }

  /** Redaction leaves nothing sensitive behind and takes no key, item or change away. */
  lemma {:induction false} RedactedIsClean(r: Redactor, v: Value)
    ensures Clean(r, RedactValue(r, v)) && SameShape(r, v, RedactValue(r, v))
    decreases v, 0
  {
    match v {
      case RawMap(fields) => RedactedFieldsAreClean(r, fields);
      case Object(fields) => RedactedFieldsAreClean(r, fields);
      case List(items) =>
        forall i | 0 <= i < |items|
          ensures Clean(r, RedactValue(r, items[i])) && SameShape(r, items[i], RedactValue(r, items[i]))
        {
          RedactedIsClean(r, items[i]);
        }
      case Changes(changes) =>
        forall i | 0 <= i < |changes|
          ensures NamedIsClean(r, changes[i].field, changes[i].oldValue)
          ensures NamedIsClean(r, changes[i].field, changes[i].newValue)
        {
          RedactedIsClean(r, changes[i].oldValue);
          RedactedIsClean(r, changes[i].newValue);
        }
      case _ =>
    }
  }

  lemma {:induction false} RedactedFieldsAreClean(r: Redactor, f: Fields)
    ensures CleanFields(r, RedactFields(r, f)) && SameKeys(r, f, RedactFields(r, f))
    decreases f, 0
  {
    if f.Fields? {
      forall key | key in f.entries
        ensures Clean(r, RedactValue(r, f.entries[key])) && SameShape(r, f.entries[key], RedactValue(r, f.entries[key]))
      {
        RedactedIsClean(r, f.entries[key]);
      }
    }
  }

  /** The redacted event, field by field: clean, of the same shape, and otherwise the event it was. */
  lemma {:induction false} RedactedEventIsClean(r: Redactor, e: Event)
    ensures var o := RedactEvent(r, e);
            && o == e.(message := o.message, errorMessage := o.errorMessage, stackTrace := o.stackTrace,
                       reason := o.reason, metadata := o.metadata, data := o.data, changes := o.changes,
                       oldValue := o.oldValue, newValue := o.newValue)
            && o.message == r.scrub(e.message) && o.errorMessage == r.scrub(e.errorMessage)
            && o.stackTrace == r.scrub(e.stackTrace) && o.reason == r.scrub(e.reason)
            && CleanFields(r, o.metadata) && SameKeys(r, e.metadata, o.metadata)
            && CleanFields(r, o.data) && SameKeys(r, e.data, o.data)
            && Clean(r, o.changes) && SameShape(r, e.changes, o.changes)
            && o.oldValue == RedactNamed(r, e.fieldName, e.oldValue) && NamedIsClean(r, e.fieldName, e.oldValue)
            && o.newValue == RedactNamed(r, e.fieldName, e.newValue) && NamedIsClean(r, e.fieldName, e.newValue)
  {
    RedactedFieldsAreClean(r, e.metadata);
    RedactedFieldsAreClean(r, e.data);
    RedactedIsClean(r, e.changes);
    RedactedIsClean(r, e.oldValue);
    RedactedIsClean(r, e.newValue);
  }

  // ----- Redacting twice

  ghost predicate ScrubsOnce(r: Redactor) {
    forall t :: r.scrub(r.scrub(t)) == r.scrub(t)
  }

  ghost predicate RedactsOnce(r: Redactor) {
    forall v :: RedactValue(r, RedactValue(r, v)) == RedactValue(r, v)
  }

  lemma {:induction false} RedactTwice(r: Redactor, v: Value)
    requires ScrubsOnce(r)
    ensures RedactValue(r, RedactValue(r, v)) == RedactValue(r, v)
    decreases v, 0
  {
    match v {
      case RawMap(fields) => RedactFieldsTwice(r, fields);
      case Object(fields) => RedactFieldsTwice(r, fields);
      case List(items) =>
        forall i | 0 <= i < |items|
          ensures RedactValue(r, RedactValue(r, items[i])) == RedactValue(r, items[i])
        {
          RedactTwice(r, items[i]);
        }
      case Changes(changes) =>
        forall i | 0 <= i < |changes|
          ensures var c := changes[i];
                  RedactNamed(r, c.field, RedactNamed(r, c.field, c.oldValue)) == RedactNamed(r, c.field, c.oldValue)
          ensures var c := changes[i];
                  RedactNamed(r, c.field, RedactNamed(r, c.field, c.newValue)) == RedactNamed(r, c.field, c.newValue)
        {
          RedactNamedTwice(r, changes[i].field, changes[i].oldValue);
          RedactNamedTwice(r, changes[i].field, changes[i].newValue);
        }
      case _ =>
    }
  }

  lemma {:induction false} RedactNamedTwice(r: Redactor, name: Text, v: Value)
    requires ScrubsOnce(r)
    ensures RedactNamed(r, name, RedactNamed(r, name, v)) == RedactNamed(r, name, v)
    decreases v, 1
  {
    RedactTwice(r, v);
  }

  lemma {:induction false} RedactFieldsTwice(r: Redactor, f: Fields)
    requires ScrubsOnce(r)
    ensures RedactFields(r, RedactFields(r, f)) == RedactFields(r, f)
    decreases f, 0
  {
    if f.Fields? {
      forall key | key in f.entries && !r.sensitive(key)
        ensures RedactValue(r, RedactValue(r, f.entries[key])) == RedactValue(r, f.entries[key])
      {
        RedactTwice(r, f.entries[key]);
      }
    }
  }

  /** Redacting twice is redacting once for every value exactly when scrubbing twice is scrubbing once. */
  lemma {:induction false} RedactIdempotentIff(r: Redactor)
    ensures RedactsOnce(r) <==> ScrubsOnce(r)
  {
    if ScrubsOnce(r) {
      forall v
        ensures RedactValue(r, RedactValue(r, v)) == RedactValue(r, v)
      {
        RedactTwice(r, v);
      }
    }
    if RedactsOnce(r) {
      forall t
        ensures r.scrub(r.scrub(t)) == r.scrub(t)
      {
        var v := Str(t);
        assert RedactValue(r, v) == Str(r.scrub(t));
        assert RedactValue(r, Str(r.scrub(t))) == Str(r.scrub(r.scrub(t)));
        assert RedactValue(r, RedactValue(r, v)) == RedactValue(r, v);
      }
    }
  }

  // ----- One pair of a text

  /** A byte that ends an unquoted value: a comma, a semicolon, white space, a closing brace or bracket. */
  predicate EndsValue(b: Byte) {
    b in {0x2C, 0x3B, 0x7D, BRACKET, 0x20} || 9 <= b <= 10 || 12 <= b <= 13
  }

  function UnquotedWidth(t: Text): (n: nat)
    ensures n <= |t|
    ensures forall i :: 0 <= i < n ==> !EndsValue(t[i])
    ensures n < |t| ==> EndsValue(t[n])
  {
    if t == [] || EndsValue(t[0]) then 0 else 1 + UnquotedWidth(t[1..])
  }

  /** The next occurrence of the byte, or the length. */
  function Find(t: Text, b: Byte): (n: nat)
    ensures n <= |t|
    ensures forall i :: 0 <= i < n ==> t[i] != b
    ensures n < |t| ==> t[n] == b
  {
    if t == [] || t[0] == b then 0 else 1 + Find(t[1..], b)
  }

  /** White space of the pattern: tab, line feed, form feed, carriage return, space. */
  predicate IsWhite(b: Byte) {
    9 <= b <= 10 || 12 <= b <= 13 || b == 0x20
  }

  function Gap(t: Text): (n: nat)
    ensures n <= |t|
    ensures forall i :: 0 <= i < n ==> IsWhite(t[i])
    ensures n < |t| ==> !IsWhite(t[n])
  {
    if t == [] || !IsWhite(t[0]) then 0 else 1 + Gap(t[1..])
  }

  /** A value at the start of the text: a quoted string, else a run of unquoted bytes. */
  function BareWidth(t: Text): (n: nat)
    ensures n <= |t|
  {
    if t != [] && (t[0] == 0x22 || t[0] == 0x27) && 1 + Find(t[1..], t[0]) < |t| then 2 + Find(t[1..], t[0])
    else UnquotedWidth(t)
  }

  /** How much of the text after the separator the pair pattern takes: white space and a value, or nothing. */
  function ValueWidth(t: Text): (n: nat)
    ensures n <= |t|
  {
    var n := BareWidth(t[Gap(t)..]);
    if n == 0 then 0 else Gap(t) + n
  }

  /** The text after the separator, scrubbed. */
  function ScrubValue(t: Text): Text {
    if ValueWidth(t) == 0 then t else REDACTED + t[ValueWidth(t)..]
  }

  /** What is before the separator: white space around the key goes when there is a value to hide. */
  function ScrubName(name: Text, t: Text): Text {
    if ValueWidth(t) == 0 then name else TrimSpace(name)
  }

  /**
    * What the pair pattern makes of one pair: the key with any white space that follows it, the separator
    * (a colon or an equals sign), and the text after that.
    */
  function ScrubPair(name: Text, separator: Byte, t: Text): Text {
    ScrubName(name, t) + [separator] + ScrubValue(t)
  }

  lemma {:induction false} MarkerWidth(tail: Text)
    ensures ValueWidth(REDACTED + tail) == |REDACTED| - 1 == 9
  {
    var t := REDACTED + tail;
    assert REDACTED[9] == BRACKET && REDACTED[0] == 0x5B;
    assert t[0] == REDACTED[0];
    assert t[0..] == t;
    MarkerRun(tail);
  }

  lemma {:induction false} MarkerRun(tail: Text)
    ensures UnquotedWidth(REDACTED + tail) == 9
  {
    var t := REDACTED + tail;
    assert REDACTED[9] == BRACKET;
    assert forall i :: 0 <= i < 9 ==> t[i] == REDACTED[i] && !EndsValue(t[i]);
    assert t[9] == BRACKET;
  }

  lemma {:induction false} MarkerScrubbed(tail: Text)
    ensures ValueWidth(REDACTED + tail) > 0
    ensures ScrubValue(REDACTED + tail) == REDACTED + [BRACKET] + tail
  {
    var t := REDACTED + tail;
    MarkerWidth(tail);
    assert t[9] == REDACTED[9] == BRACKET;
    assert t[9..] == [BRACKET] + tail;
    assert REDACTED + ([BRACKET] + tail) == REDACTED + [BRACKET] + tail;
  }

  lemma {:induction false} LongerPair(name: Text, separator: Byte, a: Text, b: Text)
    requires |a| != |b|
    ensures name + [separator] + a != name + [separator] + b
  {
    assert |name + [separator] + a| == |name| + 1 + |a|;
    assert |name + [separator] + b| == |name| + 1 + |b|;
  }

  /**
    * The pair pattern is not idempotent: the marker ends in a bracket, which ends an unquoted value, so every
    * further pass takes the marker up to there and leaves one more bracket behind. A second pass changes nothing
    * if and only if the first found no value to hide.
    */
  lemma {:induction false} ScrubPairTwiceIff(name: Text, separator: Byte, t: Text)
    ensures var twice := ScrubPair(ScrubName(name, t), separator, ScrubValue(t));
            && (twice == ScrubPair(name, separator, t) <==> ValueWidth(t) == 0)
            && (ValueWidth(t) > 0 ==>
                  twice == TrimSpace(name) + [separator] + (REDACTED + [BRACKET] + t[ValueWidth(t)..]))
  {
    var n := ValueWidth(t);
    if n > 0 {
      var once := REDACTED + t[n..];
      MarkerScrubbed(t[n..]);
      TrimSpaceIdempotent(name);
      assert ScrubName(TrimSpace(name), once) == TrimSpace(name);
      LongerPair(TrimSpace(name), separator, ScrubValue(once), once);
    }
  }

  const TOKEN := Ascii("token")
  const EQUALS: Byte := 0x3D
  const SECRET := Ascii("secret")

  lemma {:induction false} SecretWidth()
    ensures ValueWidth(SECRET) == 6 == |SECRET|
  {
    assert forall i :: 0 <= i < 6 ==> 97 <= SECRET[i] <= 122;
    assert SECRET[0..] == SECRET;
  }

  lemma {:induction false} TokenTrimmed()
    ensures TrimSpace(TOKEN) == TOKEN
  {
    assert TOKEN[0] == 116 && TOKEN[4] == 110;
    TrimmedEnds(TOKEN);
  }

  lemma {:induction false} TokenScrubbed()
    ensures ValueWidth(SECRET) > 0 && ScrubName(TOKEN, SECRET) == TOKEN && ScrubValue(SECRET) == REDACTED
    ensures ScrubPair(TOKEN, EQUALS, SECRET) == TOKEN + [EQUALS] + REDACTED
  {
    SecretWidth();
    TokenTrimmed();
    assert SECRET[6..] == [] && REDACTED + [] == REDACTED;
  }

  /** A redactor that treats two `token` texts as the pattern does fails: `token=secret` changes on each pass. */
  lemma {:induction false} TokenPairRedactsTwice(r: Redactor)
    requires r.scrub(TOKEN + [EQUALS] + SECRET) == ScrubPair(TOKEN, EQUALS, SECRET)
    requires r.scrub(TOKEN + [EQUALS] + REDACTED) == ScrubPair(TOKEN, EQUALS, REDACTED)
    ensures !RedactsOnce(r)
  {
    TokenScrubbed();
    ScrubPairTwiceIff(TOKEN, EQUALS, SECRET);
    var t := TOKEN + [EQUALS] + SECRET;
    assert r.scrub(r.scrub(t)) != r.scrub(t);
    RedactIdempotentIff(r);
  }
}
