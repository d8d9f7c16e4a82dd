/** The bounded priority buffer of logcenter/queue.go. */
module EventQueues {
  import opened Bytes
  import opened Events
  import opened Seqs

  datatype DropReason = BufferFull | BufferReplaced

  datatype Drop = Drop(event: Event, reason: DropReason)

  datatype PushResult = PushResult(queued: bool, dropped: Option<Drop>)

  predicate AtLevel(e: Event, level: Text) {
    e.eventType == LOG_EVENT && e.level == level
  }

  predicate IsDroppable(e: Event) {
    e.eventType == LOG_EVENT && (e.level == LEVEL_DEBUG || e.level == LEVEL_INFO)
  }

  /** The lowest slot holding a log event of the level, or -1. */
  function FirstAtLevel(q: seq<Event>, level: Text): (index: int)
    ensures -1 <= index < |q|
    ensures index >= 0 ==> AtLevel(q[index], level)
    ensures forall j :: 0 <= j < (if index >= 0 then index else |q|) ==> !AtLevel(q[j], level)
  {
    if q == [] then -1
    else
      var before := FirstAtLevel(q[..|q| - 1], level);
      if before >= 0 then before
      else if AtLevel(q[|q| - 1], level) then |q| - 1
      else -1
  }

  /** The slot an important newcomer may take from a full buffer: the first debug line, else the first info line. */
  function Victim(q: seq<Event>): (index: int)
    ensures -1 <= index < |q|
    ensures index >= 0 ==> IsDroppable(q[index])
  {
    var debug := FirstAtLevel(q, LEVEL_DEBUG);
    if debug >= 0 then debug else FirstAtLevel(q, LEVEL_INFO)
  }

  /** The buffer after a push, and what the push reports. */
  function Pushed(q: seq<Event>, capacity: nat, e: Event): (seq<Event>, PushResult) {
    if |q| < capacity then (q + [e], PushResult(true, None))
    else if IsDroppable(e) then (q, PushResult(false, Some(Drop(e, BufferFull))))
    else
      var index := Victim(q);
      if index >= 0 then (q[index := e], PushResult(true, Some(Drop(q[index], BufferReplaced))))
      else (q, PushResult(false, Some(Drop(e, BufferFull))))
  }

  /** How many events a drain takes: all of them for a non-positive maximum. */
  function Taken(q: seq<Event>, max: int): (n: nat)
    ensures n <= |q|
    ensures q != [] ==> n > 0
    ensures max > 0 ==> n <= max
    ensures n < |q| ==> n == max
  {
    if max <= 0 || max > |q| then |q| else max
  }

  /** The buffer object: `capacity` preallocated slots of which the first `len` are in use. */
  class EventQueue {
    const buffer: array<Event>
    var len: nat

    ghost predicate Valid()
      reads this
    {
      len <= buffer.Length
    }

    ghost function Contents(): seq<Event>
      requires Valid()
      reads this, buffer
    {
      buffer[..len]
    }

    constructor (capacity: nat)
      ensures Valid() && fresh(buffer) && buffer.Length == capacity && Contents() == []
    {
      buffer := new Event[capacity];
      len := 0;
    }

    method IndexOfDroppable(level: Text) returns (index: int)
      requires Valid()
      ensures index == FirstAtLevel(Contents(), level)
    {
      for i := 0 to len
        invariant forall j :: 0 <= j < i ==> !AtLevel(buffer[j], level)
      {
        if AtLevel(buffer[i], level) {
          return i;
        }
      }
      return -1;
    }

    method Push(e: Event) returns (r: PushResult)
      requires Valid()
      modifies this`len, buffer
      ensures Valid()
      ensures (Contents(), r) == Pushed(old(Contents()), buffer.Length, e)
    {
      if len < buffer.Length {
        buffer[len] := e;
        len := len + 1;
        assert Contents() == old(Contents()) + [e];
        return PushResult(true, None);
      }
      if IsDroppable(e) {
        return PushResult(false, Some(Drop(e, BufferFull)));
      }
      var index := IndexOfDroppable(LEVEL_DEBUG);
      if index < 0 {
        index := IndexOfDroppable(LEVEL_INFO);
      }
      if index >= 0 {
        var dropped := buffer[index];
        buffer[index] := e;
        return PushResult(true, Some(Drop(dropped, BufferReplaced)));
      }
      return PushResult(false, Some(Drop(e, BufferFull)));
    }

    /** The overlapping copy that moves the events down by `n` slots. */
    method ShiftDown(n: nat)
      requires Valid() && 0 < n <= len
      modifies buffer
      ensures buffer[..len - n] == old(buffer[n..len])
    {
      ghost var was := buffer[..len];
      for i := 0 to len - n
        invariant buffer[..i] == was[n..n + i]
        invariant buffer[i..len] == was[i..]
      {
        assert buffer[i + n] == buffer[i..len][n] == was[i + n];
        buffer[i] := buffer[i + n];
        assert buffer[i + 1..len] == was[i..][1..];
        assert buffer[..i + 1] == buffer[..i] + [buffer[i]];
      }
    }

    /** Takes the oldest events, then shifts the rest down inside the same slots. */
    method Drain(max: int) returns (events: seq<Event>)
      requires Valid()
      modifies this`len, buffer
      ensures Valid()
      ensures events + Contents() == old(Contents())
      ensures |events| == Taken(old(Contents()), max)
    {
      if len == 0 {
        return [];
      }
      var n := if max <= 0 || max > len then len else max;
      events := buffer[..n];
      assert buffer[..len] == buffer[..n] + buffer[n..len];
      ShiftDown(n);
      len := len - n;
    }
  }

  // ----- Whole runs of pushes and drains

  datatype Op = Push(event: Event) | Drain(max: int)

  /** A run so far: what is held, and where every event that was offered has gone. */
  datatype Trace = Trace(
    held: seq<Event>,
    accepted: seq<Event>,
    refused: seq<Event>,
    evicted: seq<Event>,
    drained: seq<Event>)

  function Step(capacity: nat, t: Trace, op: Op): Trace {
    match op
    case Drain(max) =>
      var n := Taken(t.held, max);
      t.(held := t.held[n..], drained := t.drained + t.held[..n])
    case Push(e) =>
      var (held, r) := Pushed(t.held, capacity, e);
      var evicted := if r.queued && r.dropped.Some? then [r.dropped.value.event] else [];
      if r.queued then t.(held := held, accepted := t.accepted + [e], evicted := t.evicted + evicted)
      else t.(held := held, refused := t.refused + [e])
  }

  function Run(capacity: nat, ops: seq<Op>): Trace {
    if ops == [] then Trace([], [], [], [], [])
    else Step(capacity, Run(capacity, ops[..|ops| - 1]), ops[|ops| - 1])
  }

  /** The events offered by a run, in order. */
  function Offered(ops: seq<Op>): seq<Event> {
    if ops == [] then []
    else Offered(ops[..|ops| - 1]) + if ops[|ops| - 1].Push? then [ops[|ops| - 1].event] else []
  }

  /** The events a push reports as dropped. */
  function ReportedDrops(r: PushResult): seq<Event> {
    if r.dropped.Some? then [r.dropped.value.event] else []
  }

  /**
    * One push, without its case analysis: nothing appears or vanishes unreported, at most one slot
    * changes, the buffer never shrinks, and refusal means exactly that the newcomer is what was dropped.
    */
  lemma {:induction false} PushConserves(q: seq<Event>, capacity: nat, e: Event)
    requires |q| <= capacity
    ensures var (held, r) := Pushed(q, capacity, e);
            && multiset(q) + multiset{e} == multiset(held) + multiset(ReportedDrops(r))
            && |q| <= |held| <= capacity
            && (!r.queued ==> held == q && r.dropped == Some(Drop(e, BufferFull)))
            && (r.queued && r.dropped.Some? ==>
                  && |held| == |q|
                  && exists i :: 0 <= i < |q| && held == q[i := e]
                                 && q[i] == r.dropped.value.event && IsDroppable(q[i]))
  {
    var (held, r) := Pushed(q, capacity, e);
    if r.queued && r.dropped.Some? {
      var i := Victim(q);
      assert held == q[i := e] && q[i] == r.dropped.value.event;
    }
  }

  /**
    * Which event an important newcomer displaces: the oldest debug line, or without one the oldest info line,
    * reported as replaced; it is refused only by a full buffer without either.
    */
  lemma {:induction false} EvictsOldestLeast(q: seq<Event>, capacity: nat, e: Event)
    requires |q| >= capacity && IsImportant(e)
    ensures var (held, r) := Pushed(q, capacity, e);
            && (r.queued <==> exists i :: 0 <= i < |q| && (AtLevel(q[i], LEVEL_DEBUG) || AtLevel(q[i], LEVEL_INFO)))
            && (r.queued ==> exists i :: 0 <= i < |q| && IsOldestLeast(q, i)
                                         && held == q[i := e] && r.dropped == Some(Drop(q[i], BufferReplaced)))
  {
    var i := Victim(q);
    if i >= 0 {
      LevelsDiffer(q[i]);
      assert IsOldestLeast(q, i);
    }
  }

  /** The slot holds the first debug line, or the first info line of a buffer without debug lines. */
  ghost predicate IsOldestLeast(q: seq<Event>, i: int)
    requires 0 <= i < |q|
  {
    || (AtLevel(q[i], LEVEL_DEBUG) && forall j :: 0 <= j < i ==> !AtLevel(q[j], LEVEL_DEBUG))
    || (AtLevel(q[i], LEVEL_INFO) && (forall j :: 0 <= j < i ==> !AtLevel(q[j], LEVEL_INFO))
        && forall j :: 0 <= j < |q| ==> !AtLevel(q[j], LEVEL_DEBUG))
  }

  /** Every event offered so far is in exactly one place. */
  ghost predicate Accounted(capacity: nat, offered: seq<Event>, t: Trace) {
    && multiset(offered) == multiset(t.accepted) + multiset(t.refused)
    && multiset(t.accepted) == multiset(t.drained) + multiset(t.held) + multiset(t.evicted)
    && |t.held| <= capacity
    && (t.evicted == [] ==> t.drained + t.held == t.accepted)
  }

  lemma {:induction false} DrainAccounted(capacity: nat, offered: seq<Event>, t: Trace, max: int)
    requires Accounted(capacity, offered, t)
    ensures Accounted(capacity, offered, Step(capacity, t, Drain(max)))
  {
    var n := Taken(t.held, max);
    assert t.held == t.held[..n] + t.held[n..];
    assert (t.drained + t.held[..n]) + t.held[n..] == t.drained + t.held;
  }

  lemma {:induction false} AppendAccounted(capacity: nat, offered: seq<Event>, t: Trace, e: Event)
    requires Accounted(capacity, offered, t) && |t.held| < capacity
    ensures Accounted(capacity, offered + [e], t.(held := t.held + [e], accepted := t.accepted + [e]))
  {
    assert t.drained + (t.held + [e]) == (t.drained + t.held) + [e];
  }

  lemma {:induction false} ReplaceAccounted(
    capacity: nat, offered: seq<Event>, t: Trace, e: Event, held: seq<Event>, victim: Event)
    requires Accounted(capacity, offered, t) && |held| <= capacity
    requires multiset(t.held) + multiset{e} == multiset(held) + multiset{victim}
    ensures Accounted(capacity, offered + [e],
                      t.(held := held, accepted := t.accepted + [e], evicted := t.evicted + [victim]))
  {
    assert t.evicted + [victim] != [];
    assert multiset(t.accepted + [e]) == multiset(t.drained) + multiset(t.evicted) + (multiset(t.held) + multiset{e});
  }

  lemma {:induction false} RefuseAccounted(capacity: nat, offered: seq<Event>, t: Trace, e: Event)
    requires Accounted(capacity, offered, t)
    ensures Accounted(capacity, offered + [e], t.(refused := t.refused + [e]))
  {}

  lemma {:induction false} PushAccounted(capacity: nat, offered: seq<Event>, t: Trace, e: Event)
    requires Accounted(capacity, offered, t)
    ensures Accounted(capacity, offered + [e], Step(capacity, t, Push(e)))
  {
    PushConserves(t.held, capacity, e);
    var (held, r) := Pushed(t.held, capacity, e);
    var t1 := Step(capacity, t, Push(e));
    if !r.queued {
      RefuseAccounted(capacity, offered, t, e);
      assert t1 == t.(refused := t.refused + [e]);
    } else if r.dropped.None? {
      AppendAccounted(capacity, offered, t, e);
      assert t1 == t.(held := t.held + [e], accepted := t.accepted + [e], evicted := t.evicted + []);
      assert t.evicted + [] == t.evicted;
    } else {
      var victim := r.dropped.value.event;
      assert ReportedDrops(r) == [victim];
      ReplaceAccounted(capacity, offered, t, e, held, victim);
      assert t1 == t.(held := held, accepted := t.accepted + [e], evicted := t.evicted + [victim]);
    }
  }

  /**
    * Every event offered is, for ever, in exactly one place: held, drained, evicted or refused; the
    * buffer stays within capacity; and while nothing is evicted events leave in the order they came.
    */
  lemma {:induction false} RunConserves(capacity: nat, ops: seq<Op>)
    ensures Accounted(capacity, Offered(ops), Run(capacity, ops))
  {
    if ops != [] {
      var prefix, last := ops[..|ops| - 1], ops[|ops| - 1];
      RunConserves(capacity, prefix);
      match last {
        case Drain(max) =>
          DrainAccounted(capacity, Offered(prefix), Run(capacity, prefix), max);
          assert Offered(ops) == Offered(prefix);
        case Push(e) =>
          PushAccounted(capacity, Offered(prefix), Run(capacity, prefix), e);
      }
    }
  }

  // ----- Order

  /** A newcomer in the slot of a debug line, ahead of an older event. */
  lemma {:induction false} EvictionReorders(debug: Event, older: Event, newer: Event)
    requires AtLevel(debug, LEVEL_DEBUG) && !IsDroppable(older) && !IsDroppable(newer)
    ensures Pushed([debug, older], 2, newer).0 == [newer, older]
  {
    assert [debug, older][0] == debug;
    assert FirstAtLevel([debug, older], LEVEL_DEBUG) == 0;
  }

  lemma {:induction false} RotationFixed(t: seq<Event>, e: Event)
    ensures [e] + t == t + [e] <==> forall j :: 0 <= j < |t| ==> t[j] == e
  {
    if [e] + t == t + [e] {
      forall j | 0 <= j < |t|
        ensures t[j] == e
      {
        RotationAt(t, e, j);
      }
    }
  }

  lemma {:induction false} RotationAt(t: seq<Event>, e: Event, j: nat)
    requires [e] + t == t + [e] && j < |t|
    ensures t[j] == e
  {
    assert (t + [e])[j] == t[j] == ([e] + t)[j];
    if j > 0 {
      RotationAt(t, e, j - 1);
    }
  }

  /**
    * Exactly when an eviction keeps the order: the buffer becomes what dropping the victim and appending the
    * newcomer would make it if and only if nothing but copies of the newcomer stands behind the victim.
    */
  lemma {:induction false} EvictionKeepsOrderIff(q: seq<Event>, capacity: nat, e: Event)
    requires |q| >= capacity && IsImportant(e) && Victim(q) >= 0
    ensures var i := Victim(q);
            Pushed(q, capacity, e).0 == q[..i] + q[i + 1..] + [e] <==> forall j :: i < j < |q| ==> q[j] == e
  {
    var i := Victim(q);
    var t := q[i + 1..];
    assert q[i := e] == q[..i] + ([e] + t);
    assert q[..i] + t + [e] == q[..i] + (t + [e]);
    SameTail(q[..i], [e] + t, t + [e]);
    RotationFixed(t, e);
    assert (forall j :: 0 <= j < |t| ==> t[j] == e) <==> forall j :: i < j < |q| ==> q[j] == e by {
      assert forall j :: i < j < |q| ==> q[j] == t[j - i - 1];
    }
  }

  lemma {:induction false} SameTail(a: seq<Event>, b: seq<Event>, c: seq<Event>)
    ensures a + b == a + c <==> b == c
  {
    if a + b == a + c {
      assert b == (a + b)[|a|..] && c == (a + c)[|a|..];
    }
  }

  /** A push that can be told beforehand not to disturb the order: it evicts nothing, or the last slot. */
  predicate OrderSafe(q: seq<Event>, capacity: nat, e: Event) {
    |q| < capacity || IsDroppable(e) || Victim(q) < 0 || Victim(q) == |q| - 1
  }

  ghost predicate Distinct(s: seq<Event>) {
    forall i, j :: 0 <= i < j < |s| ==> s[i] != s[j]
  }

  /** The first event arrived before the second. */
  ghost predicate Before(offered: seq<Event>, x: Event, y: Event) {
    exists i, j :: 0 <= i < j < |offered| && offered[i] == x && offered[j] == y
  }

  /** The events are a selection of those offered, in the order of arrival. */
  ghost predicate InOrder(offered: seq<Event>, out: seq<Event>) {
    && (forall k :: 0 <= k < |out| ==> out[k] in offered)
    && (forall j, k :: 0 <= j < k < |out| ==> Before(offered, out[j], out[k]))
  }

  lemma {:induction false} BeforeGrows(offered: seq<Event>, e: Event, x: Event, y: Event)
    ensures Before(offered, x, y) ==> Before(offered + [e], x, y)
    ensures x in offered ==> Before(offered + [e], x, e)
  {
    var more := offered + [e];
    if Before(offered, x, y) {
      var i, j :| 0 <= i < j < |offered| && offered[i] == x && offered[j] == y;
      assert more[i] == x && more[j] == y;
    }
    if x in offered {
      var i :| 0 <= i < |offered| && offered[i] == x;
      assert more[i] == x && more[|offered|] == e;
    }
  }

  lemma {:induction false} InOrderGrows(offered: seq<Event>, out: seq<Event>, e: Event)
    requires InOrder(offered, out)
    ensures InOrder(offered + [e], out) && InOrder(offered + [e], out + [e])
  {
    var more := out + [e];
    forall j, k | 0 <= j < k < |more|
      ensures Before(offered + [e], more[j], more[k])
    {
      BeforeGrows(offered, e, more[j], more[k]);
    }
    forall j, k | 0 <= j < k < |out|
      ensures Before(offered + [e], out[j], out[k])
    {
      BeforeGrows(offered, e, out[j], out[k]);
    }
  }

  lemma {:induction false} InOrderPrefix(offered: seq<Event>, out: seq<Event>, n: nat)
    requires InOrder(offered, out) && n <= |out|
    ensures InOrder(offered, out[..n])
  {}

  lemma {:induction false} NewestIsLast(offered: seq<Event>, e: Event, y: Event)
    requires Distinct(offered + [e])
    ensures !Before(offered + [e], e, y)
  {
    assert (offered + [e])[|offered|] == e;
  }

  /** What has left the buffer, followed by what is still in it. */
  function OutOf(t: Trace): seq<Event> {
    t.drained + t.held
  }

  lemma {:induction false} DrainKeepsOut(capacity: nat, t: Trace, max: int)
    ensures OutOf(Step(capacity, t, Drain(max))) == OutOf(t)
  {
    var n := Taken(t.held, max);
    assert t.held == t.held[..n] + t.held[n..];
  }

  /** One push: the order survives it exactly when it was safe. */
  lemma {:induction false} PushInOrderIff(capacity: nat, offered: seq<Event>, t: Trace, e: Event)
    requires |t.held| <= capacity && InOrder(offered, OutOf(t)) && Distinct(offered + [e])
    ensures InOrder(offered + [e], OutOf(Step(capacity, t, Push(e)))) <==> OrderSafe(t.held, capacity, e)
  {
    var out, q := OutOf(t), t.held;
    var out1 := OutOf(Step(capacity, t, Push(e)));
    InOrderGrows(offered, out, e);
    if |q| < capacity {
      assert out1 == out + [e];
    } else if IsDroppable(e) || Victim(q) < 0 {
      assert out1 == out;
    } else {
      var i := Victim(q);
      var at := |t.drained| + i;
      assert out1 == out[at := e];
      if i == |q| - 1 {
        InOrderPrefix(offered, out, at);
        InOrderGrows(offered, out[..at], e);
        assert out1 == out[..at] + [e];
      } else {
        NewestIsLast(offered, e, out1[at + 1]);
        assert out1[at] == e;
      }
    }
  }

  /** The order of arrival is kept at every point of the run. */
  ghost predicate AlwaysInOrder(capacity: nat, ops: seq<Op>) {
    && InOrder(Offered(ops), OutOf(Run(capacity, ops)))
    && (ops != [] ==> AlwaysInOrder(capacity, ops[..|ops| - 1]))
  }

  /** No push of the run found a full buffer with its victim anywhere but in the last slot. */
  ghost predicate EvictsOnlyLast(capacity: nat, ops: seq<Op>) {
    ops != [] ==>
      var front, last := ops[..|ops| - 1], ops[|ops| - 1];
      && EvictsOnlyLast(capacity, front)
      && (last.Push? ==> OrderSafe(Run(capacity, front).held, capacity, last.event))
  }

  lemma {:induction false} OfferedSplit(ops: seq<Op>)
    requires ops != []
    ensures var front, last := ops[..|ops| - 1], ops[|ops| - 1];
            && Offered(ops) == Offered(front) + (if last.Push? then [last.event] else [])
            && (Distinct(Offered(ops)) ==> Distinct(Offered(front)))
  {
    var front := Offered(ops[..|ops| - 1]);
    assert forall i :: 0 <= i < |front| ==> Offered(ops)[i] == front[i];
  }

  /**
    * First-in first-out over whole runs, exactly: for distinct events, what has been drained and then what is
    * held is in the order of arrival at every point of the run if and only if every eviction hit the last slot.
    */
  lemma {:induction false} RunInOrderIff(capacity: nat, ops: seq<Op>)
    requires Distinct(Offered(ops))
    ensures AlwaysInOrder(capacity, ops) <==> EvictsOnlyLast(capacity, ops)
  {
    if ops != [] {
      var front, last := ops[..|ops| - 1], ops[|ops| - 1];
      OfferedSplit(ops);
      RunInOrderIff(capacity, front);
      RunConserves(capacity, front);
      if AlwaysInOrder(capacity, front) {
        match last {
          case Push(e) => PushInOrderIff(capacity, Offered(front), Run(capacity, front), e);
          case Drain(max) =>
            DrainKeepsOut(capacity, Run(capacity, front), max);
            assert Offered(ops) == Offered(front);
        }
      }
    }
  }

  // ----- What a full buffer keeps

  predicate IsImportant(e: Event) {
    !IsDroppable(e)
  }

  predicate IsDebug(e: Event) {
    AtLevel(e, LEVEL_DEBUG)
  }

  predicate IsInfo(e: Event) {
    AtLevel(e, LEVEL_INFO)
  }

  function PushAll(capacity: nat, offered: seq<Event>): (held: seq<Event>) {
    if offered == [] then []
    else Pushed(PushAll(capacity, offered[..|offered| - 1]), capacity, offered[|offered| - 1]).0
  }

  function Min(a: int, b: int): int {
    if a <= b then a else b
  }

  function Max(a: int, b: int): int {
    if a >= b then a else b
  }

  /** What matters of a buffer's contents: which important events, how many debug and info lines. */
  datatype Tally = Tally(important: multiset<Event>, debugs: int, infos: int)

  function TallyOf(q: seq<Event>): Tally {
    Tally(multiset(Filter(q, IsImportant)), |Filter(q, IsDebug)|, |Filter(q, IsInfo)|)
  }

  /**
    * The best contents for a buffer of the capacity, in closed form: the first important events that fit
    * and, of the debug and info lines taken in before the buffer filled up, those left after one eviction
    * for each further important event kept, debug lines going before info lines.
    */
  function Best(capacity: nat, important: seq<Event>, first: seq<Event>): Tally {
    BestOf(capacity, important, |Filter(first, IsImportant)|, |Filter(first, IsDebug)|, |Filter(first, IsInfo)|)
  }

  function BestAfter(capacity: nat, offered: seq<Event>): Tally {
    Best(capacity, Filter(offered, IsImportant), offered[..Min(capacity, |offered|)])
  }

  function BestOf(capacity: nat, important: seq<Event>, early: nat, debugs: nat, infos: nat): Tally {
    var kept := Min(capacity, |important|);
    var evictions := kept - early;
    Tally(multiset(important[..kept]), Max(0, debugs - evictions), infos - Max(0, evictions - debugs))
  }

  lemma {:induction false} LevelsDiffer(e: Event)
    ensures !(IsDebug(e) && IsInfo(e))
    ensures IsDebug(e) || IsInfo(e) <==> IsDroppable(e)
  {
    assert |LEVEL_DEBUG| != |LEVEL_INFO|;
  }

  lemma {:induction false} LevelsPartition(q: seq<Event>)
    ensures |Filter(q, IsImportant)| + |Filter(q, IsInfo)| + |Filter(q, IsDebug)| == |q|
    ensures |Filter(q, IsDebug)| > 0 <==> FirstAtLevel(q, LEVEL_DEBUG) >= 0
    ensures |Filter(q, IsInfo)| > 0 <==> FirstAtLevel(q, LEVEL_INFO) >= 0
  {
    if q != [] {
      LevelsDiffer(q[|q| - 1]);
      LevelsPartition(q[..|q| - 1]);
    }
  }

  function Counted(t: Tally, e: Event): Tally {
    if IsDebug(e) then t.(debugs := t.debugs + 1)
    else if IsInfo(e) then t.(infos := t.infos + 1)
    else t.(important := t.important + multiset{e})
  }

  /** The effect of a push, seen through the tally. */
  function NextTally(t: Tally, room: bool, e: Event): Tally {
    if room then Counted(t, e)
    else if IsDroppable(e) || (t.debugs <= 0 && t.infos <= 0) then t
    else
      var important := t.important + multiset{e};
      if t.debugs > 0 then Tally(important, t.debugs - 1, t.infos) else Tally(important, t.debugs, t.infos - 1)
  }

  lemma {:induction false} TallySnoc(q: seq<Event>, e: Event)
    ensures TallyOf(q + [e]) == Counted(TallyOf(q), e)
  {
    LevelsDiffer(e);
    FilterSnoc(q, e, IsImportant);
    FilterSnoc(q, e, IsDebug);
    FilterSnoc(q, e, IsInfo);
  }

  lemma {:induction false} TallyReplaced(q: seq<Event>, i: nat, e: Event)
    requires i < |q| && IsDroppable(q[i]) && IsImportant(e)
    ensures TallyOf(q[i := e]) == Tally(
              TallyOf(q).important + multiset{e},
              TallyOf(q).debugs - (if IsDebug(q[i]) then 1 else 0),
              TallyOf(q).infos - (if IsDebug(q[i]) then 0 else 1))
  {
    LevelsDiffer(e);
    LevelsDiffer(q[i]);
    FilterReplaced(q, i, e, IsImportant);
    FilterReplaced(q, i, e, IsDebug);
    FilterReplaced(q, i, e, IsInfo);
  }

  lemma {:induction false} PushTally(q: seq<Event>, capacity: nat, e: Event)
    ensures TallyOf(Pushed(q, capacity, e).0) == NextTally(TallyOf(q), |q| < capacity, e)
  {
    LevelsPartition(q);
    var index := Victim(q);
    if |q| < capacity {
      TallySnoc(q, e);
    } else if IsDroppable(e) || index < 0 {
      assert Pushed(q, capacity, e).0 == q;
    } else {
      assert Pushed(q, capacity, e).0 == q[index := e];
      LevelsDiffer(q[index]);
      TallyReplaced(q, index, e);
    }
  }

  /** Until the buffer is full, the best is all of it. */
  lemma {:induction false} BestOfRoom(capacity: nat, important: seq<Event>, debugs: nat, infos: nat)
    requires |important| <= capacity
    ensures BestOf(capacity, important, |important|, debugs, infos) == Tally(multiset(important), debugs, infos)
  {
    assert important[..|important|] == important;
  }

  lemma {:induction false} BestWithRoom(capacity: nat, offered: seq<Event>)
    requires |offered| <= capacity
    ensures Best(capacity, Filter(offered, IsImportant), offered) == TallyOf(offered)
  {
    BestOfRoom(capacity, Filter(offered, IsImportant), |Filter(offered, IsDebug)|, |Filter(offered, IsInfo)|);
  }

  lemma {:induction false} BestWhenFull(
    capacity: nat, important: seq<Event>, e: Event, early: nat, debugs: nat, infos: nat)
    requires early + debugs + infos == capacity && early <= |important| && IsImportant(e)
    ensures BestOf(capacity, important + [e], early, debugs, infos)
         == NextTally(BestOf(capacity, important, early, debugs, infos), false, e)
  {
    LevelsDiffer(e);
    if |important| < capacity {
      assert (important + [e])[..|important| + 1] == important[..|important|] + [e];
      assert BestOf(capacity, important, early, debugs, infos).debugs > 0
          || BestOf(capacity, important, early, debugs, infos).infos > 0;
    } else {
      assert (important + [e])[..capacity] == important[..capacity];
      assert BestOf(capacity, important, early, debugs, infos) == Tally(multiset(important[..capacity]), 0, 0);
    }
  }

  lemma {:induction false} FilterPrefix(s: seq<Event>, n: nat)
    requires n <= |s|
    ensures |Filter(s[..n], IsImportant)| <= |Filter(s, IsImportant)|
  {
    FilterConcat(s[..n], s[n..], IsImportant);
    assert s == s[..n] + s[n..];
  }

  /** The closed form follows the pushes. */
  lemma {:induction false} BestSnoc(capacity: nat, before: seq<Event>, e: Event)
    ensures BestAfter(capacity, before + [e]) == NextTally(BestAfter(capacity, before), |before| < capacity, e)
  {
    var offered := before + [e];
    if |before| < capacity {
      assert offered[..|offered|] == offered && before[..|before|] == before;
      BestWithRoom(capacity, before);
      BestWithRoom(capacity, offered);
      TallySnoc(before, e);
    } else {
      var first := before[..capacity];
      assert offered[..capacity] == first;
      FilterSnoc(before, e, IsImportant);
      if !IsDroppable(e) {
        LevelsPartition(first);
        FilterPrefix(before, capacity);
        BestWhenFull(capacity, Filter(before, IsImportant), e,
                     |Filter(first, IsImportant)|, |Filter(first, IsDebug)|, |Filter(first, IsInfo)|);
      }
    }
  }

  lemma {:induction false} PushAllSnoc(capacity: nat, before: seq<Event>, e: Event)
    ensures PushAll(capacity, before + [e]) == Pushed(PushAll(capacity, before), capacity, e).0
  {
    assert (before + [e])[..|before|] == before;
  }

  lemma {:induction false} PushLength(q: seq<Event>, capacity: nat, e: Event)
    ensures |Pushed(q, capacity, e).0| == if |q| < capacity then |q| + 1 else |q|
  {}

  /** As many events as fit, and the best of those offered. */
  ghost predicate HoldsBest(capacity: nat, offered: seq<Event>, held: seq<Event>) {
    |held| == Min(capacity, |offered|) && TallyOf(held) == BestAfter(capacity, offered)
  }

  /**
    * Retention is the best a buffer of that size can do: it is full as soon as enough events came, the
    * important events it holds are exactly the first that fit, and the log lines given up for them are
    * debug lines as long as there are any, info lines only after that, in numbers fixed by what was offered.
    */
  lemma {:induction false} KeepsTheBest(capacity: nat, offered: seq<Event>)
    ensures HoldsBest(capacity, offered, PushAll(capacity, offered))
  {
    if offered == [] {
      KeepsTheBestOfNothing(capacity);
    } else {
      var before, e := offered[..|offered| - 1], offered[|offered| - 1];
      KeepsTheBest(capacity, before);
      KeepsTheBestNext(capacity, before, e);
      assert offered == before + [e];
    }
  }

  lemma {:induction false} KeepsTheBestOfNothing(capacity: nat)
    ensures HoldsBest(capacity, [], PushAll(capacity, []))
  {
    var none: seq<Event> := [];
    assert none[..Min(capacity, 0)] == none;
    BestWithRoom(capacity, none);
  }

  lemma {:induction false} KeepsTheBestNext(capacity: nat, before: seq<Event>, e: Event)
    requires HoldsBest(capacity, before, PushAll(capacity, before))
    ensures HoldsBest(capacity, before + [e], PushAll(capacity, before + [e]))
  {
    var q := PushAll(capacity, before);
    PushAllSnoc(capacity, before, e);
    PushLength(q, capacity, e);
    PushTally(q, capacity, e);
    BestSnoc(capacity, before, e);
  }
}
