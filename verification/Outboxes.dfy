/** The durable outbox of logcenter/outbox.go: a file of lines, one encoded event a line. */
module Outboxes {
  import opened Bytes
  import opened Events

  /** A line either decodes to an event or is skipped as junk. */
  datatype Line = Record(event: Event) | Junk(raw: Text)

  /** The events of the lines that decode, in file order. */
  function Decoded(lines: seq<Line>): (events: seq<Event>)
    ensures |events| <= |lines|
  {
    if lines == [] then []
    else
      var rest := Decoded(lines[..|lines| - 1]);
      match lines[|lines| - 1]
      case Record(e) => rest + [e]
      case Junk(_) => rest
  }

  /** The lines that do not decode, in file order. */
  function JunkOf(lines: seq<Line>): seq<Text> {
    if lines == [] then []
    else
      var rest := JunkOf(lines[..|lines| - 1]);
      match lines[|lines| - 1]
      case Record(_) => rest
      case Junk(raw) => rest + [raw]
  }

  predicate Keeps(line: Line, ids: set<Text>) {
    line.Record? ==> line.event.eventId !in ids
  }

  /** The lines left once the records with the IDs are gone. */
  function Without(lines: seq<Line>, ids: set<Text>): (kept: seq<Line>)
    ensures |kept| <= |lines|
  {
    if lines == [] then []
    else
      var rest := Without(lines[..|lines| - 1], ids);
      if Keeps(lines[|lines| - 1], ids) then rest + [lines[|lines| - 1]] else rest
  }

  /** The IDs of the records in the file. */
  function StoredIds(lines: seq<Line>): (ids: set<Text>) {
    set line | line in lines && line.Record? :: line.event.eventId
  }

  function Records(events: seq<Event>): (lines: seq<Line>)
    ensures |lines| == |events|
  {
    seq(|events|, i requires 0 <= i < |events| => Record(events[i]))
  }

  /** A batch from the front of the file. */
  function Peeked(lines: seq<Line>, max: int): (events: seq<Event>)
    ensures events <= Decoded(lines)
    ensures events == [] ==> Decoded(lines) == []
    ensures max > 0 ==> |events| <= max
    ensures |events| < |Decoded(lines)| ==> |events| == max
  {
    var all := Decoded(lines);
    if max <= 0 || |all| <= max then all else all[..max]
  }

  /** The IDs that `eventIDs` and `Remove` act on: an empty ID never names a record. */
  function RemovableIds(events: seq<Event>): set<Text> {
    Ids(events) - {[]}
  }

  class DurableOutbox {
    /** The file's contents; no file is the same as an empty one to every operation. */
    var file: Option<seq<Line>>

    ghost function Lines(): seq<Line>
      reads this
    {
      if file.Some? then file.value else []
    }

    constructor ()
      ensures file == None
    {
      file := None;
    }

    /** `fault` is the number of events written before the disk failed, if it did. */
    method Append(events: seq<Event>, fault: Option<nat>) returns (failed: bool)
      requires fault.Some? ==> fault.value < |events|
      modifies this
      ensures failed == fault.Some?
      ensures var written := if failed then events[..fault.value] else events;
              && Lines() == old(Lines()) + Records(written)
              && Decoded(Lines()) == old(Decoded(Lines())) + written
              && JunkOf(Lines()) == old(JunkOf(Lines()))
    {
      RecordsDecode(Lines(), if fault.Some? then events[..fault.value] else events);
      if |events| == 0 {
        assert events == [];
        return false;
      }
      var lines := if file.Some? then file.value else [];
      var n := if fault.Some? then fault.value else |events|;
      for i := 0 to n
        invariant lines == old(Lines()) + Records(events[..i])
      {
        lines := lines + [Record(events[i])];
      }
      assert n == |events| ==> events[..n] == events;
      file := Some(lines);
      return fault.Some?;
    }

    method Peek(max: int, fault: bool) returns (events: Option<seq<Event>>)
      ensures events == if fault then None else Some(Peeked(Lines(), max))
    {
      if fault {
        return None;
      }
      if file.None? {
        return Some([]);
      }
      var lines := file.value;
      var found: seq<Event> := [];
      for i := 0 to |lines|
        invariant found == Decoded(lines[..i])
        invariant max > 0 ==> |found| <= max
      {
        DecodedPrefix(lines, i);
        if max > 0 && |found| >= max {
          assert found == Decoded(lines)[..max];
          assert |Decoded(lines)| <= max ==> found == Decoded(lines);
          return Some(found);
        }
        assert lines[..i + 1][..i] == lines[..i];
        if lines[i].Record? {
          found := found + [lines[i].event];
        }
      }
      assert lines[..|lines|] == lines;
      return Some(found);
    }

    method Remove(eventIds: seq<Text>, fault: bool) returns (failed: bool)
      modifies this
      ensures var ids := (set id | id in eventIds) - {[]};
              && failed == (fault && ids != {})
              && Lines() == if failed then old(Lines()) else Without(old(Lines()), ids)
    {
      var ids: set<Text> := {};
      for i := 0 to |eventIds|
        invariant ids == (set id | id in eventIds[..i]) - {[]}
      {
        if eventIds[i] != [] {
          ids := ids + {eventIds[i]};
        }
      }
      assert eventIds[..|eventIds|] == eventIds;
      WithoutNone(Lines());
      if ids == {} {
        return false;
      }
      if fault {
        return true;
      }
      if file.None? {
        return false;
      }
      var lines := file.value;
      var kept: seq<Line> := [];
      for i := 0 to |lines|
        invariant kept == Without(lines[..i], ids)
      {
        assert lines[..i + 1][..i] == lines[..i];
        if !(lines[i].Record? && lines[i].event.eventId in ids) {
          kept := kept + [lines[i]];
        }
      }
      assert lines[..|lines|] == lines;
      file := if |kept| == 0 then None else Some(kept);
      return false;
    }
  }

  lemma {:induction false} DecodedSnoc(lines: seq<Line>, e: Event)
    ensures Decoded(lines + [Record(e)]) == Decoded(lines) + [e]
    ensures JunkOf(lines + [Record(e)]) == JunkOf(lines)
  {
    assert (lines + [Record(e)])[..|lines|] == lines;
  }

  lemma {:induction false} RecordsSnoc(lines: seq<Line>, events: seq<Event>, e: Event)
    ensures lines + Records(events + [e]) == lines + Records(events) + [Record(e)]
  {
    assert Records(events + [e]) == Records(events) + [Record(e)];
  }

  /** What is appended decodes again, after what was there. */
  lemma {:induction false} RecordsDecode(lines: seq<Line>, events: seq<Event>)
    ensures Decoded(lines + Records(events)) == Decoded(lines) + events
    ensures JunkOf(lines + Records(events)) == JunkOf(lines)
    decreases |events|
  {
    if events == [] {
      assert lines + Records(events) == lines;
    } else {
      var front, last := events[..|events| - 1], events[|events| - 1];
      RecordsDecode(lines, front);
      assert events == front + [last];
      RecordsSnoc(lines, front, last);
      DecodedSnoc(lines + Records(front), last);
    }
  }

  lemma {:induction false} WithoutNone(lines: seq<Line>)
    ensures Without(lines, {}) == lines
  {
    if lines != [] {
      WithoutNone(lines[..|lines| - 1]);
    }
  }

  lemma {:induction false} DecodedPrefix(lines: seq<Line>, n: nat)
    requires n <= |lines|
    ensures Decoded(lines[..n]) <= Decoded(lines)
  {
    if n < |lines| {
      var front := lines[..|lines| - 1];
      DecodedPrefix(front, n);
      assert front[..n] == lines[..n];
    } else {
      assert lines[..n] == lines;
    }
  }

  lemma {:induction false} StoredIdsDecoded(lines: seq<Line>)
    ensures StoredIds(lines) == Ids(Decoded(lines))
  {
    if lines != [] {
      var front, last := lines[..|lines| - 1], lines[|lines| - 1];
      StoredIdsDecoded(front);
      assert lines == front + [last];
      assert StoredIds(lines) == StoredIds(front) + (if last.Record? then {last.event.eventId} else {});
      assert Ids(Decoded(lines)) == Ids(Decoded(front)) + (if last.Record? then {last.event.eventId} else {});
    }
  }

  /** Removal takes exactly the records with the IDs and leaves every junk line alone. */
  lemma {:induction false} WithoutRemoves(lines: seq<Line>, ids: set<Text>)
    ensures StoredIds(Without(lines, ids)) == StoredIds(lines) - ids
    ensures JunkOf(Without(lines, ids)) == JunkOf(lines)
    ensures forall line :: line in Without(lines, ids) ==> line in lines
  {
    if lines != [] {
      var front, last := lines[..|lines| - 1], lines[|lines| - 1];
      WithoutRemoves(front, ids);
      var kept := Without(front, ids);
      assert lines == front + [last];
      assert StoredIds(lines) == StoredIds(front) + (if last.Record? then {last.event.eventId} else {});
      if Keeps(last, ids) {
        assert (kept + [last])[..|kept|] == kept;
        assert StoredIds(kept + [last]) == StoredIds(kept) + (if last.Record? then {last.event.eventId} else {});
      }
    }
  }

  /** The lines at the positions, in order, are the ones kept, and no other line is to be kept. */
  ghost predicate Selects(lines: seq<Line>, ids: set<Text>, kept: seq<Line>, at: seq<nat>) {
    && |at| == |kept|
    && (forall j, k :: 0 <= j < k < |at| ==> at[j] < at[k])
    && (forall k :: 0 <= k < |at| ==> at[k] < |lines| && kept[k] == lines[at[k]])
    && (forall i :: 0 <= i < |lines| ==> (i in at <==> Keeps(lines[i], ids)))
  }

  lemma {:induction false} SelectsDropped(front: seq<Line>, last: Line, ids: set<Text>, kept: seq<Line>, at: seq<nat>)
    requires Selects(front, ids, kept, at) && !Keeps(last, ids)
    ensures Selects(front + [last], ids, kept, at)
  {
    var lines := front + [last];
    forall i | 0 <= i < |lines|
      ensures i in at <==> Keeps(lines[i], ids)
    {
      assert i < |front| ==> lines[i] == front[i];
    }
  }

  lemma {:induction false} SelectsKept(front: seq<Line>, last: Line, ids: set<Text>, kept: seq<Line>, at: seq<nat>)
    requires Selects(front, ids, kept, at) && Keeps(last, ids)
    ensures Selects(front + [last], ids, kept + [last], at + [|front|])
  {
    var lines, more := front + [last], at + [|front|];
    forall i | 0 <= i < |lines|
      ensures i in more <==> Keeps(lines[i], ids)
    {
      if i < |front| {
        assert lines[i] == front[i];
        assert i in more <==> i in at;
      } else {
        assert more[|at|] == i && lines[i] == last;
      }
    }
  }

  /** Removal is a selection: every line not named survives, as often and in the order it was there. */
  lemma {:induction false} WithoutSelects(lines: seq<Line>, ids: set<Text>) returns (at: seq<nat>)
    ensures Selects(lines, ids, Without(lines, ids), at)
  {
    if lines == [] {
      at := [];
    } else {
      var front, last := lines[..|lines| - 1], lines[|lines| - 1];
      at := WithoutSelects(front, ids);
      assert lines == front + [last];
      if Keeps(last, ids) {
        SelectsKept(front, last, ids, Without(front, ids), at);
        at := at + [|front|];
      } else {
        SelectsDropped(front, last, ids, Without(front, ids), at);
      }
    }
  }

  /** Removing one record after another or all at once is the same. */
  lemma {:induction false} WithoutTwice(lines: seq<Line>, a: set<Text>, b: set<Text>)
    ensures Without(Without(lines, a), b) == Without(lines, a + b)
  {
    if lines != [] {
      var front, last := lines[..|lines| - 1], lines[|lines| - 1];
      WithoutTwice(front, a, b);
      var kept := Without(front, a);
      assert (kept + [last])[..|kept|] == kept;
    }
  }

  /** Each record removed shortens the backlog. */
  lemma {:induction false} WithoutShrinks(lines: seq<Line>, ids: set<Text>)
    ensures |Decoded(Without(lines, ids))| <= |Decoded(lines)|
    ensures StoredIds(lines) * ids != {} ==> |Decoded(Without(lines, ids))| < |Decoded(lines)|
  {
    if lines != [] {
      var front, last := lines[..|lines| - 1], lines[|lines| - 1];
      WithoutShrinks(front, ids);
      var kept := Without(front, ids);
      assert (kept + [last])[..|kept|] == kept;
      assert lines == front + [last];
      assert StoredIds(lines) == StoredIds(front) + (if last.Record? then {last.event.eventId} else {});
    }
  }
}
