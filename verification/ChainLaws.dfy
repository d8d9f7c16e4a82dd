/** What the chain proves about the history of events, and that restarts do not show in it. */
module ChainLaws {
  import opened Bytes
  import opened Events
  import opened TamperChain

  // ----- Equal heads, equal histories

  /** The head of the chain after stamping events with the canonical hashes, from genesis. */
  function Head(crypto: Crypto, config: Config, canonicals: seq<Text>): (h: Text)
    ensures OneLine(h)
    ensures |h| == if canonicals == [] then 0 else 64
    decreases |canonicals|, 1
  {
    if canonicals == [] then []
    else Hex(MessageDigest(crypto, config.secret, MessageAt(crypto, config, canonicals, |canonicals| - 1)))
  }

  /** The message hashed at a position of the chain. */
  function MessageAt(crypto: Crypto, config: Config, canonicals: seq<Text>, i: nat): Text
    requires i < |canonicals|
    decreases |canonicals|, 0
  {
    Message(config.chainId, (i + 1) % UINT64, Head(crypto, config, canonicals[..i]), canonicals[i])
  }

  /** Two different messages that the two chains hashed, with one digest. */
  ghost predicate MessagesCollide(
    crypto: Crypto, a: Config, xs: seq<Text>, b: Config, ys: seq<Text>, i: nat, j: nat)
    requires i < |xs| && j < |ys|
  {
    Collide(crypto, a.secret, MessageAt(crypto, a, xs, i), MessageAt(crypto, b, ys, j))
  }

  lemma {:induction false} PrefixMessage(crypto: Crypto, config: Config, canonicals: seq<Text>, n: nat, i: nat)
    requires i < n <= |canonicals|
    ensures MessageAt(crypto, config, canonicals[..n], i) == MessageAt(crypto, config, canonicals, i)
  {
    assert canonicals[..n][..i] == canonicals[..i];
  }

  /**
    * Two chains from genesis, perhaps with different chain IDs but the same secret, that end in the same hash:
    * they have the same chain ID, the same length and the same canonical hash at every position -- or two
    * different messages that they hashed on the way have the same digest, and their positions are known.
    */
  lemma {:induction false} EqualHeadsEqualHistories(
    crypto: Crypto, a: Config, xs: seq<Text>, b: Config, ys: seq<Text>)
    requires a.secret == b.secret
    requires forall i :: 0 <= i < |xs| ==> OneLine(xs[i])
    requires forall i :: 0 <= i < |ys| ==> OneLine(ys[i])
    requires Head(crypto, a, xs) == Head(crypto, b, ys)
    ensures || (xs == ys && (xs != [] ==> a.chainId == b.chainId))
            || exists i, j :: 0 <= i < |xs| && 0 <= j < |ys| && MessagesCollide(crypto, a, xs, b, ys, i, j)
    decreases |xs|
  {
    if xs != [] && ys != [] {
      var m, n := |xs| - 1, |ys| - 1;
      EvidenceBinds(crypto, a, (m + 1) % UINT64, Head(crypto, a, xs[..m]), xs[m],
                    b, (n + 1) % UINT64, Head(crypto, b, ys[..n]), ys[n]);
      if MessageAt(crypto, a, xs, m) != MessageAt(crypto, b, ys, n) {
        assert MessagesCollide(crypto, a, xs, b, ys, m, n);
      } else {
        EqualHeadsEqualHistories(crypto, a, xs[..m], b, ys[..n]);
        if xs[..m] == ys[..n] {
          assert xs == xs[..m] + [xs[m]] && ys == ys[..n] + [ys[n]];
        } else {
          var i, j :| 0 <= i < m && 0 <= j < n && MessagesCollide(crypto, a, xs[..m], b, ys[..n], i, j);
          PrefixMessage(crypto, a, xs, m, i);
          PrefixMessage(crypto, b, ys, n, j);
          assert MessagesCollide(crypto, a, xs, b, ys, i, j);
        }
      }
    }
  }

  /** The canonical hashes of encoded events. */
  function CanonicalsOf(crypto: Crypto, encodings: seq<Text>): (cs: seq<Text>)
    ensures |cs| == |encodings|
    ensures forall i :: 0 <= i < |cs| ==> OneLine(cs[i])
  {
    assert forall i :: 0 <= i < |encodings| ==> OneLine(Hex(crypto.sha256(encodings[i])));
    seq(|encodings|, i requires 0 <= i < |encodings| => Hex(crypto.sha256(encodings[i])))
  }

  /**
    * Carried down to the events: equal heads mean that the same encoded events were stamped, in the same
    * order, unless a collision can be exhibited -- in the chain's messages or between two of the encodings.
    */
  lemma {:induction false} EqualHeadsEqualEvents(
    crypto: Crypto, a: Config, xs: seq<Text>, b: Config, ys: seq<Text>)
    requires a.secret == b.secret
    requires Head(crypto, a, CanonicalsOf(crypto, xs)) == Head(crypto, b, CanonicalsOf(crypto, ys))
    ensures || xs == ys
            || (exists i :: 0 <= i < |xs| && i < |ys| && xs[i] != ys[i] && crypto.sha256(xs[i]) == crypto.sha256(ys[i]))
            || (exists i, j :: 0 <= i < |xs| && 0 <= j < |ys| &&
                  MessagesCollide(crypto, a, CanonicalsOf(crypto, xs), b, CanonicalsOf(crypto, ys), i, j))
  {
    var cs, ds := CanonicalsOf(crypto, xs), CanonicalsOf(crypto, ys);
    EqualHeadsEqualHistories(crypto, a, cs, b, ds);
    if cs == ds && xs != ys {
      var i :| 0 <= i < |xs| && xs[i] != ys[i];
      assert cs[i] == ds[i];
      HexInjective(crypto.sha256(xs[i]), crypto.sha256(ys[i]));
    }
  }

  // ----- Runs with restarts

  /** An event to stamp, with the fate of the save that follows, or a restart of the process. */
  datatype Act = Present(event: Event, saveWorks: bool) | Restart

  /** A run so far: the state, and the marks handed out. */
  datatype Run = Run(state: State, marks: seq<Mark>)

  function Step(crypto: Crypto, config: Config, r: Run, act: Act): Run {
    match act
    case Present(e, saveWorks) =>
      var (s, applied) := Apply(crypto, config, r.state, e, saveWorks);
      Run(s, if applied.mark.Some? then r.marks + [applied.mark.value] else r.marks)
    case Restart =>
      match Load(config, r.state.disk)
      case Some(m) => r.(state := r.state.(memory := m))
      case None => r
  }

  function Acts(crypto: Crypto, config: Config, start: State, acts: seq<Act>): Run {
    if acts == [] then Run(start, [])
    else Step(crypto, config, Acts(crypto, config, start, acts[..|acts| - 1]), acts[|acts| - 1])
  }

  /** The same run without its restarts. */
  function Uninterrupted(acts: seq<Act>): seq<Act> {
    if acts == [] then []
    else
      var rest := Uninterrupted(acts[..|acts| - 1]);
      if acts[|acts| - 1].Restart? then rest else rest + [acts[|acts| - 1]]
  }

  /** What a restart would load is what is in memory. */
  predicate InStep(config: Config, s: State) {
    Load(config, s.disk) == Some(s.memory)
  }

  /** No restart finds a state file that lags behind: the save before it worked. */
  ghost predicate NoStaleRestart(crypto: Crypto, config: Config, start: State, acts: seq<Act>) {
    acts == [] ||
    (var front := acts[..|acts| - 1];
     && NoStaleRestart(crypto, config, start, front)
     && (acts[|acts| - 1].Restart? ==> InStep(config, Acts(crypto, config, start, front).state)))
  }

  /** If no restart is stale, a run with restarts is, stamp by stamp, the run without them. */
  lemma {:induction false} RestartsDoNotShow(crypto: Crypto, config: Config, start: State, acts: seq<Act>)
    requires NoStaleRestart(crypto, config, start, acts)
    ensures Acts(crypto, config, start, acts) == Acts(crypto, config, start, Uninterrupted(acts))
  {
    if acts != [] {
      var front, last := acts[..|acts| - 1], acts[|acts| - 1];
      RestartsDoNotShow(crypto, config, start, front);
      if !last.Restart? {
        var u := Uninterrupted(front);
        assert (u + [last])[..|u|] == u;
      }
    }
  }

  /** With every save working (and a state file to save to) no restart is stale. */
  lemma {:induction false} WorkingSavesAreNeverStale(crypto: Crypto, config: Config, start: State, acts: seq<Act>)
    requires config.persistent && InStep(config, start)
    requires forall i :: 0 <= i < |acts| && acts[i].Present? ==> acts[i].saveWorks
    ensures InStep(config, Acts(crypto, config, start, acts).state)
    ensures NoStaleRestart(crypto, config, start, acts)
  {
    if acts != [] {
      WorkingSavesAreNeverStale(crypto, config, start, acts[..|acts| - 1]);
    }
  }

  /** What a restart would load never runs ahead of memory, and lags in its sequence number if it differs. */
  ghost predicate Lagging(config: Config, s: State) {
    && Load(config, s.disk).Some?
    && (InStep(config, s) || Load(config, s.disk).value.sequence < s.memory.sequence)
  }

  lemma {:induction false} LagStep(crypto: Crypto, config: Config, r: Run, act: Act)
    requires Lagging(config, r.state) && r.state.memory.sequence + 1 < UINT64
    ensures var r1 := Step(crypto, config, r, act);
            && Lagging(config, r1.state)
            && r1.state.memory.sequence <= r.state.memory.sequence + 1
            && (act.Restart? && !InStep(config, r.state) ==> r1.state.memory.sequence < r.state.memory.sequence)
  {}

  lemma {:induction false} Advance(crypto: Crypto, config: Config, r: Run, act: Act)
    requires act.Present?
    ensures Step(crypto, config, r, act).state.memory.sequence
         == if Stamps(crypto, config, act) then (r.state.memory.sequence + 1) % UINT64 else r.state.memory.sequence
  {}

  /** Stamping advances two chains alike, wherever they stand. */
  lemma {:induction false} SameAdvance(crypto: Crypto, config: Config, r: Run, u: Run, act: Act)
    requires act.Present? && r.state.memory.sequence + 1 < UINT64 && u.state.memory.sequence + 1 < UINT64
    ensures var r1, u1 := Step(crypto, config, r, act), Step(crypto, config, u, act);
            r1.state.memory.sequence - r.state.memory.sequence == u1.state.memory.sequence - u.state.memory.sequence
  {
    Advance(crypto, config, r, act);
    Advance(crypto, config, u, act);
  }

  lemma {:induction false} LagRun(crypto: Crypto, config: Config, start: State, acts: seq<Act>)
    requires InStep(config, start) && start.memory.sequence + |acts| < UINT64
    ensures var r, u := Acts(crypto, config, start, acts), Acts(crypto, config, start, Uninterrupted(acts));
            && Lagging(config, r.state)
            && |Uninterrupted(acts)| <= |acts|
            && r.state.memory.sequence <= u.state.memory.sequence <= start.memory.sequence + |acts|
            && (!NoStaleRestart(crypto, config, start, acts) ==> r.state.memory.sequence < u.state.memory.sequence)
  {
    if acts != [] {
      var front, last := acts[..|acts| - 1], acts[|acts| - 1];
      LagRun(crypto, config, start, front);
      var r, u := Acts(crypto, config, start, front), Acts(crypto, config, start, Uninterrupted(front));
      LagStep(crypto, config, r, last);
      if !last.Restart? {
        var us := Uninterrupted(front);
        assert (us + [last])[..|us|] == us;
        SameAdvance(crypto, config, r, u, last);
        SequenceGrows(crypto, config, u, last);
      }
    }
  }

  lemma {:induction false} SequenceGrows(crypto: Crypto, config: Config, u: Run, act: Act)
    requires act.Present? && u.state.memory.sequence + 1 < UINT64
    ensures Step(crypto, config, u, act).state.memory.sequence <= u.state.memory.sequence + 1
  {}

  /** The act adds a mark to the chain, whatever the chain's state. */
  predicate Stamps(crypto: Crypto, config: Config, act: Act) {
    act.Present? && Matches(config, act.event) && CanonicalHash(crypto, act.event, config.metadataKey).Some?
  }

  /** The last stamp of the acts, if one came since the last restart, was saved. */
  predicate LastStampSaved(crypto: Crypto, config: Config, acts: seq<Act>) {
    acts == [] ||
    (var last := acts[|acts| - 1];
     if last.Restart? then true
     else if Stamps(crypto, config, last) then config.persistent && last.saveWorks
     else LastStampSaved(crypto, config, acts[..|acts| - 1]))
  }

  /** Before every restart the last stamp was saved: a condition on the acts alone. */
  predicate RestartsFindAllSaved(crypto: Crypto, config: Config, acts: seq<Act>) {
    acts == [] ||
    (var front := acts[..|acts| - 1];
     && RestartsFindAllSaved(crypto, config, front)
     && (acts[|acts| - 1].Restart? ==> LastStampSaved(crypto, config, front)))
  }

  lemma {:induction false} InStepNext(crypto: Crypto, config: Config, r: Run, act: Act)
    requires Lagging(config, r.state) && r.state.memory.sequence + 1 < UINT64
    ensures InStep(config, Step(crypto, config, r, act).state)
       <==> act.Restart? || (if Stamps(crypto, config, act) then config.persistent && act.saveWorks
                             else InStep(config, r.state))
  {}

  lemma {:induction false} InStepIff(crypto: Crypto, config: Config, start: State, acts: seq<Act>)
    requires InStep(config, start) && start.memory.sequence + |acts| < UINT64
    ensures InStep(config, Acts(crypto, config, start, acts).state) <==> LastStampSaved(crypto, config, acts)
  {
    if acts != [] {
      var front := acts[..|acts| - 1];
      LagRun(crypto, config, start, front);
      InStepIff(crypto, config, start, front);
      InStepNext(crypto, config, Acts(crypto, config, start, front), acts[|acts| - 1]);
    }
  }

  lemma {:induction false} NoStaleRestartIff(crypto: Crypto, config: Config, start: State, acts: seq<Act>)
    requires InStep(config, start) && start.memory.sequence + |acts| < UINT64
    ensures NoStaleRestart(crypto, config, start, acts) <==> RestartsFindAllSaved(crypto, config, acts)
  {
    if acts != [] {
      NoStaleRestartIff(crypto, config, start, acts[..|acts| - 1]);
      InStepIff(crypto, config, start, acts[..|acts| - 1]);
    }
  }

  /**
    * Exactly when restarts leave the chain untouched: the whole run -- stamps, head and file -- is the run
    * without them if and only if the last stamp before each restart was saved; and otherwise already the head
    * differs. (Below 2^64 events; the counter then wraps.)
    */
  lemma {:induction false} RestartTransparentIff(crypto: Crypto, config: Config, start: State, acts: seq<Act>)
    requires InStep(config, start) && start.memory.sequence + |acts| < UINT64
    ensures Acts(crypto, config, start, acts) == Acts(crypto, config, start, Uninterrupted(acts))
       <==> RestartsFindAllSaved(crypto, config, acts)
    ensures Acts(crypto, config, start, acts).state.memory
          == Acts(crypto, config, start, Uninterrupted(acts)).state.memory
       <==> RestartsFindAllSaved(crypto, config, acts)
  {
    LagRun(crypto, config, start, acts);
    NoStaleRestartIff(crypto, config, start, acts);
    if NoStaleRestart(crypto, config, start, acts) {
      RestartsDoNotShow(crypto, config, start, acts);
    }
  }

  /** The acts up to the last one that stamps. */
  function UpToLastStamp(crypto: Crypto, config: Config, acts: seq<Act>): (r: seq<Act>)
    ensures |r| <= |acts|
    ensures r == [] || Stamps(crypto, config, r[|r| - 1])
  {
    if acts == [] || Stamps(crypto, config, acts[|acts| - 1]) then acts
    else UpToLastStamp(crypto, config, acts[..|acts| - 1])
  }

  lemma {:induction false} ActsSnoc(crypto: Crypto, config: Config, start: State, front: seq<Act>, last: Act)
    ensures Acts(crypto, config, start, front + [last])
         == Step(crypto, config, Acts(crypto, config, start, front), last)
  {
    assert (front + [last])[..|front|] == front;
  }

  /** A stamping act numbers its mark after the chain's memory. */
  lemma {:induction false} StampNumbers(crypto: Crypto, config: Config, r: Run, act: Act)
    requires Stamps(crypto, config, act)
    ensures var marks := Step(crypto, config, r, act).marks;
            marks != [] && marks[|marks| - 1].sequence == (r.state.memory.sequence + 1) % UINT64
  {}

  /** Any other event leaves the run as it was. */
  lemma {:induction false} QuietAct(crypto: Crypto, config: Config, r: Run, act: Act)
    requires act.Present? && !Stamps(crypto, config, act)
    ensures Step(crypto, config, r, act) == r
  {}

  lemma {:induction false} MarksUpToLastStamp(crypto: Crypto, config: Config, start: State, acts: seq<Act>)
    ensures var t := UpToLastStamp(crypto, config, acts);
            && Acts(crypto, config, start, acts).marks == Acts(crypto, config, start, t).marks
            && Acts(crypto, config, start, Uninterrupted(acts)).marks
               == Acts(crypto, config, start, Uninterrupted(t)).marks
  {
    if acts != [] && !Stamps(crypto, config, acts[|acts| - 1]) {
      var front, last := acts[..|acts| - 1], acts[|acts| - 1];
      MarksUpToLastStamp(crypto, config, start, front);
      if !last.Restart? {
        QuietAct(crypto, config, Acts(crypto, config, start, front), last);
        ActsSnoc(crypto, config, start, Uninterrupted(front), last);
        QuietAct(crypto, config, Acts(crypto, config, start, Uninterrupted(front)), last);
      }
    }
  }

  lemma {:induction false} MarksDiffer(crypto: Crypto, config: Config, r: Run, u: Run, act: Act)
    requires Stamps(crypto, config, act) && r.state.memory.sequence < u.state.memory.sequence < UINT64 - 1
    ensures Step(crypto, config, r, act).marks != Step(crypto, config, u, act).marks
  {
    StampNumbers(crypto, config, r, act);
    StampNumbers(crypto, config, u, act);
  }

  lemma {:induction false} LaterMarkDiffers(crypto: Crypto, config: Config, start: State, acts: seq<Act>)
    requires InStep(config, start) && start.memory.sequence + |acts| < UINT64
    requires acts != [] && Stamps(crypto, config, acts[|acts| - 1]) && !NoStaleRestart(crypto, config, start, acts)
    ensures Acts(crypto, config, start, acts).marks != Acts(crypto, config, start, Uninterrupted(acts)).marks
  {
    var front, last := acts[..|acts| - 1], acts[|acts| - 1];
    LagRun(crypto, config, start, front);
    ActsSnoc(crypto, config, start, Uninterrupted(front), last);
    var r, u := Acts(crypto, config, start, front), Acts(crypto, config, start, Uninterrupted(front));
    assert r.state.memory.sequence < u.state.memory.sequence;
    MarksDiffer(crypto, config, r, u, last);
  }

  /**
    * The same for the stamps alone: the marks handed out are those of the run without restarts if and only if
    * the last stamp before each restart was saved -- restarts after the very last stamp apart, which show in no
    * stamp yet.
    */
  lemma {:induction false} MarksTransparentIff(crypto: Crypto, config: Config, start: State, acts: seq<Act>)
    requires InStep(config, start) && start.memory.sequence + |acts| < UINT64
    ensures Acts(crypto, config, start, acts).marks == Acts(crypto, config, start, Uninterrupted(acts)).marks
       <==> RestartsFindAllSaved(crypto, config, UpToLastStamp(crypto, config, acts))
  {
    var t := UpToLastStamp(crypto, config, acts);
    MarksUpToLastStamp(crypto, config, start, acts);
    NoStaleRestartIff(crypto, config, start, t);
    if NoStaleRestart(crypto, config, start, t) {
      RestartsDoNotShow(crypto, config, start, t);
    } else {
      LaterMarkDiffers(crypto, config, start, t);
    }
  }

  /** The acts without the events that add no mark. */
  function OnlyStamping(crypto: Crypto, config: Config, acts: seq<Act>): seq<Act> {
    if acts == [] then []
    else
      var rest, last := OnlyStamping(crypto, config, acts[..|acts| - 1]), acts[|acts| - 1];
      if last.Restart? || Stamps(crypto, config, last) then rest + [last] else rest
  }

  /**
    * Events that do not match, or cannot be encoded, are invisible to the chain: a run with any number of them
    * anywhere is, in stamps, head and file, the run without them.
    */
  lemma {:induction false} NonMatchingInvisible(crypto: Crypto, config: Config, start: State, acts: seq<Act>)
    ensures Acts(crypto, config, start, acts) == Acts(crypto, config, start, OnlyStamping(crypto, config, acts))
  {
    if acts != [] {
      var front, last := acts[..|acts| - 1], acts[|acts| - 1];
      NonMatchingInvisible(crypto, config, start, front);
      ActsSnoc(crypto, config, start, OnlyStamping(crypto, config, front), last);
      if last.Present? && !Stamps(crypto, config, last) {
        QuietAct(crypto, config, Acts(crypto, config, start, front), last);
      }
    }
  }

  // ----- The marks of a run form the chain

  function CanonicalsOfMarks(marks: seq<Mark>): (cs: seq<Text>)
    ensures |cs| == |marks|
  {
    seq(|marks|, i requires 0 <= i < |marks| => marks[i].canonicalHash)
  }

  function HashBefore(marks: seq<Mark>, i: nat): Text
    requires i <= |marks|
  {
    if i == 0 then [] else marks[i - 1].hash
  }

  /** Each mark follows the one before, and memory holds the end of the chain. */
  ghost predicate Chained(crypto: Crypto, config: Config, r: Run) {
    && (forall i :: 0 <= i < |r.marks| ==>
          && r.marks[i].sequence == (i + 1) % UINT64
          && r.marks[i].previousHash == HashBefore(r.marks, i)
          && OneLine(r.marks[i].canonicalHash))
    && r.state.memory.sequence == |r.marks| % UINT64
    && r.state.memory.previousHash == Head(crypto, config, CanonicalsOfMarks(r.marks))
    && (r.marks != [] ==> r.marks[|r.marks| - 1].hash == r.state.memory.previousHash)
  }

  lemma {:induction false} HeadSnoc(crypto: Crypto, config: Config, canonicals: seq<Text>, canonical: Text)
    ensures Head(crypto, config, canonicals + [canonical])
         == HashEvidence(crypto, config, (|canonicals| + 1) % UINT64, Head(crypto, config, canonicals), canonical)
  {
    assert (canonicals + [canonical])[..|canonicals|] == canonicals;
  }

  lemma {:induction false} LinkedMark(marks: seq<Mark>, mark: Mark, i: nat)
    requires i <= |marks|
    ensures (marks + [mark])[i] == if i < |marks| then marks[i] else mark
    ensures HashBefore(marks + [mark], i) == HashBefore(marks, i)
  {}

  lemma {:induction false} ChainedMark(crypto: Crypto, config: Config, r: Run, r1: Run, mark: Mark)
    requires Chained(crypto, config, r) && OneLine(mark.canonicalHash)
    requires mark == NextMark(crypto, config, r.state.memory, mark.canonicalHash)
    requires r1.marks == r.marks + [mark] && r1.state.memory == Memory(mark.hash, mark.sequence)
    ensures Chained(crypto, config, r1)
  {
    HeadWithMark(crypto, config, r, mark);
    WrapNext(|r.marks|);
    assert mark.previousHash == HashBefore(r.marks, |r.marks|) by {
      assert r.marks == [] ==> CanonicalsOfMarks(r.marks) == [];
    }
    forall i | 0 <= i < |r1.marks|
      ensures r1.marks[i].sequence == (i + 1) % UINT64
      ensures r1.marks[i].previousHash == HashBefore(r1.marks, i)
      ensures OneLine(r1.marks[i].canonicalHash)
    {
      LinkedMark(r.marks, mark, i);
    }
  }

  lemma {:induction false} HeadWithMark(crypto: Crypto, config: Config, r: Run, mark: Mark)
    requires Chained(crypto, config, r)
    requires mark == NextMark(crypto, config, r.state.memory, mark.canonicalHash)
    ensures Head(crypto, config, CanonicalsOfMarks(r.marks + [mark])) == mark.hash
  {
    var cs := CanonicalsOfMarks(r.marks);
    assert CanonicalsOfMarks(r.marks + [mark]) == cs + [mark.canonicalHash];
    WrapNext(|r.marks|);
    HeadSnoc(crypto, config, cs, mark.canonicalHash);
  }

  lemma {:induction false} ChainedStep(crypto: Crypto, config: Config, r: Run, act: Act)
    requires act.Present? && Chained(crypto, config, r)
    ensures Chained(crypto, config, Step(crypto, config, r, act))
  {
    if Matches(config, act.event) {
      var h := CanonicalHash(crypto, act.event, config.metadataKey);
      if h.Some? {
        ChainedMark(crypto, config, r, Step(crypto, config, r, act), NextMark(crypto, config, r.state.memory, h.value));
      }
    }
  }

  lemma {:induction false} WrapNext(n: nat)
    ensures (n % UINT64 + 1) % UINT64 == (n + 1) % UINT64
  {}

  lemma {:induction false} FreshRunChained(crypto: Crypto, config: Config, acts: seq<Act>)
    requires NoStaleRestart(crypto, config, State(GENESIS, None), acts)
    ensures Chained(crypto, config, Acts(crypto, config, State(GENESIS, None), acts))
  {
    var start := State(GENESIS, None);
    if acts != [] {
      var front, last := acts[..|acts| - 1], acts[|acts| - 1];
      FreshRunChained(crypto, config, front);
      if !last.Restart? {
        ChainedStep(crypto, config, Acts(crypto, config, start, front), last);
      }
    }
  }

  lemma {:induction false} SavedNext(crypto: Crypto, config: Config, r: Run, act: Act)
    requires Load(config, r.state.disk).Some?
    ensures var s1 := Step(crypto, config, r, act).state;
            && Load(config, s1.disk).Some?
            && (act.Restart? ==> InStep(config, s1))
            && (Stamps(crypto, config, act) && config.persistent && act.saveWorks ==> InStep(config, s1))
            && (act.Present? && !Stamps(crypto, config, act) ==> s1 == r.state)
  {}

  /** However long the run: if the last stamp was saved, a restart would load what is in memory. */
  lemma {:induction false} SavedIsInStep(crypto: Crypto, config: Config, start: State, acts: seq<Act>)
    requires InStep(config, start)
    ensures var s := Acts(crypto, config, start, acts).state;
            Load(config, s.disk).Some? && (LastStampSaved(crypto, config, acts) ==> InStep(config, s))
  {
    if acts != [] {
      var front := acts[..|acts| - 1];
      SavedIsInStep(crypto, config, start, front);
      SavedNext(crypto, config, Acts(crypto, config, start, front), acts[|acts| - 1]);
    }
  }

  lemma {:induction false} SavedRestartsAreFresh(crypto: Crypto, config: Config, start: State, acts: seq<Act>)
    requires InStep(config, start) && RestartsFindAllSaved(crypto, config, acts)
    ensures NoStaleRestart(crypto, config, start, acts)
  {
    if acts != [] {
      SavedRestartsAreFresh(crypto, config, start, acts[..|acts| - 1]);
      SavedIsInStep(crypto, config, start, acts[..|acts| - 1]);
    }
  }

  /**
    * From genesis, whatever non-matching events and saved restarts come between: the marks are numbered
    * consecutively, each names its predecessor's hash, and the head in memory is the head of the chain over
    * their canonical hashes.
    */
  lemma {:induction false} MarksFormTheChain(crypto: Crypto, config: Config, acts: seq<Act>)
    requires RestartsFindAllSaved(crypto, config, acts)
    ensures Chained(crypto, config, Acts(crypto, config, State(GENESIS, None), acts))
  {
    SavedRestartsAreFresh(crypto, config, State(GENESIS, None), acts);
    FreshRunChained(crypto, config, acts);
  }

  lemma {:induction false} SameMarkCount(crypto: Crypto, config: Config, r: Run, u: Run, act: Act)
    requires act.Present? && |r.marks| == |u.marks|
    ensures |Step(crypto, config, r, act).marks| == |Step(crypto, config, u, act).marks|
  {}

  /** Restarts change what the marks say, never how many there are. */
  lemma {:induction false} RestartsKeepCount(crypto: Crypto, config: Config, start: State, acts: seq<Act>)
    ensures |Acts(crypto, config, start, acts).marks| == |Acts(crypto, config, start, Uninterrupted(acts)).marks|
         <= |acts|
  {
    if acts != [] {
      var front, last := acts[..|acts| - 1], acts[|acts| - 1];
      RestartsKeepCount(crypto, config, start, front);
      if !last.Restart? {
        var u := Uninterrupted(front);
        ActsSnoc(crypto, config, start, u, last);
        SameMarkCount(crypto, config, Acts(crypto, config, start, front), Acts(crypto, config, start, u), last);
      }
    }
  }

  lemma {:induction false} UninterruptedIsSaved(crypto: Crypto, config: Config, acts: seq<Act>)
    ensures RestartsFindAllSaved(crypto, config, Uninterrupted(acts))
  {
    if acts != [] {
      UninterruptedIsSaved(crypto, config, acts[..|acts| - 1]);
      var u := Uninterrupted(acts[..|acts| - 1]);
      assert (u + [acts[|acts| - 1]])[..|u|] == u;
    }
  }

  /** And only then: below 2^64 events, one restart that loses a stamp leaves a chain that does not check out. */
  lemma {:induction false} MarksFormTheChainIff(crypto: Crypto, config: Config, acts: seq<Act>)
    requires |acts| < UINT64
    ensures Chained(crypto, config, Acts(crypto, config, State(GENESIS, None), acts))
       <==> RestartsFindAllSaved(crypto, config, acts)
  {
    var start := State(GENESIS, None);
    if RestartsFindAllSaved(crypto, config, acts) {
      MarksFormTheChain(crypto, config, acts);
    } else {
      LagRun(crypto, config, start, acts);
      NoStaleRestartIff(crypto, config, start, acts);
      UninterruptedIsSaved(crypto, config, acts);
      MarksFormTheChain(crypto, config, Uninterrupted(acts));
      RestartsKeepCount(crypto, config, start, acts);
    }
  }

  /**
    * Two runs from genesis, with one secret and with their stamps saved before each restart, whose memories
    * hold the same hash: they stamped the same canonical hashes in the same order, under the same chain ID -- or
    * two of the messages they hashed are exhibited as a collision.
    */
  lemma {:induction false} EqualMemoriesEqualRuns(
    crypto: Crypto, a: Config, acts: seq<Act>, b: Config, others: seq<Act>)
    requires a.secret == b.secret
    requires RestartsFindAllSaved(crypto, a, acts) && RestartsFindAllSaved(crypto, b, others)
    requires Acts(crypto, a, State(GENESIS, None), acts).state.memory.previousHash
          == Acts(crypto, b, State(GENESIS, None), others).state.memory.previousHash
    ensures var xs := CanonicalsOfMarks(Acts(crypto, a, State(GENESIS, None), acts).marks);
            var ys := CanonicalsOfMarks(Acts(crypto, b, State(GENESIS, None), others).marks);
            || (xs == ys && (xs != [] ==> a.chainId == b.chainId))
            || exists i, j :: 0 <= i < |xs| && 0 <= j < |ys| && MessagesCollide(crypto, a, xs, b, ys, i, j)
  {
    MarksFormTheChain(crypto, a, acts);
    MarksFormTheChain(crypto, b, others);
    EqualHeadsEqualHistories(crypto, a, CanonicalsOfMarks(Acts(crypto, a, State(GENESIS, None), acts).marks),
                             b, CanonicalsOfMarks(Acts(crypto, b, State(GENESIS, None), others).marks));
  }

  /** A failed save followed by a restart hands out a sequence number twice. */
  lemma {:induction false} StaleRestartRepeats(crypto: Crypto, config: Config, e: Event)
    requires config.persistent && Matches(config, e) && CanonicalHash(crypto, e, config.metadataKey).Some?
    ensures var acts := [Present(e, false), Restart, Present(e, true)];
            var marks := Acts(crypto, config, State(GENESIS, None), acts).marks;
            |marks| == 2 && marks[0] == marks[1]
  {
    var acts := [Present(e, false), Restart, Present(e, true)];
    var start := State(GENESIS, None);
    assert acts[..2] == [Present(e, false), Restart];
    assert acts[..2][..1] == [Present(e, false)] && acts[..2][..1][..0] == [];
    assert [Present(e, false)][..0] == [];
    assert Acts(crypto, config, start, []) == Run(start, []);
    var r1 := Acts(crypto, config, start, [Present(e, false)]);
    assert r1 == Step(crypto, config, Run(start, []), Present(e, false));
    var r2 := Acts(crypto, config, start, acts[..2]);
    assert r2 == Step(crypto, config, r1, Restart);
    assert r2.state == start;
  }
}
