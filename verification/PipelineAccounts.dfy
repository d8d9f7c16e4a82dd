/** Conservation of events and admission over every run of the pipeline. */
module PipelineAccounts {
  import opened Bytes
  import opened Events
  import opened Seqs
  import opened EventQueues
  import opened Outboxes
  import opened Pipeline

  /** Events of a batch whose result is not counted yet. */
  function SendLoad(send: Sending): int {
    if send.Removing? then 0 else |send.batch|
  }

  /** Events a caller still has to account for: its own, or one its push pushed out. */
  function CallerLoad(caller: Caller): int {
    match caller
    case Counting(drop, _) => if drop then 1 else 0
    case Bumping => 0
    case Signalling => 0
    case Sync(_, send) => SendLoad(send)
    case SyncPersisting(_) => 0
    case Returned => 0
    case _ => 1
  }

  function WorkerLoad(worker: Worker): int {
    if worker.Delivering? then SendLoad(worker.send) else 0
  }

  /** Successful pushes a caller has not counted yet. */
  function UncountedPush(caller: Caller): int {
    if (caller.Counting? && caller.queued) || caller.Bumping? then 1 else 0
  }

  /** Every event offered or read back is buffered, under way, sent, failed or dropped. */
  ghost predicate Balanced(s: State) {
    var n := s.counters;
    n.offered + n.reread ==
      |s.queue| + WorkerLoad(s.worker) + SumOf(s.callers, CallerLoad) + n.sent + n.failed + n.dropped
  }

  /** Every push that succeeded is counted or about to be, and its event is buffered, taken or replaced. */
  ghost predicate PushesBalanced(s: State) {
    s.counters.queued + SumOf(s.callers, UncountedPush) == |s.queue| + s.counters.taken + s.counters.replaced
  }

  ghost predicate Books(c: Config, s: State) {
    && Balanced(s)
    && PushesBalanced(s)
    && |s.queue| <= c.capacity
    && (!c.durable ==> s.counters.reread == 0)
  }

  lemma {:induction false} CallerMoves(s: State, i: nat, caller: Caller)
    requires i < |s.callers|
    ensures SumOf(s.callers[i := caller], CallerLoad)
         == SumOf(s.callers, CallerLoad) - CallerLoad(s.callers[i]) + CallerLoad(caller)
    ensures SumOf(s.callers[i := caller], UncountedPush)
         == SumOf(s.callers, UncountedPush) - UncountedPush(s.callers[i]) + UncountedPush(caller)
  {
    SumReplaced(s.callers, i, caller, CallerLoad);
    SumReplaced(s.callers, i, caller, UncountedPush);
  }

  lemma {:induction false} BooksCall(c: Config, s: State, sync: bool)
    requires Books(c, s)
    ensures Books(c, Do(c, s, Call(sync)))
  {
    SumSnoc(s.callers, Checking(sync), CallerLoad);
    SumSnoc(s.callers, Checking(sync), UncountedPush);
  }

  lemma {:induction false} BooksCheck(c: Config, s: State, i: nat)
    requires Enabled(c, s, CheckClosed(i)) && Books(c, s)
    ensures Books(c, Do(c, s, CheckClosed(i)))
  {
    CallerMoves(s, i, Do(c, s, CheckClosed(i)).callers[i]);
  }

  lemma {:induction false} BooksAppend(c: Config, s: State, i: nat, works: bool)
    requires Enabled(c, s, Append(i, works)) && Books(c, s)
    ensures Books(c, DoAppend(c, s, i, works))
  {
    CallerMoves(s, i, DoAppend(c, s, i, works).callers[i]);
  }

  lemma {:induction false} BooksPrepare(c: Config, s: State, i: nat, result: Option<Event>)
    requires Enabled(c, s, Prepare(i, result)) && Books(c, s)
    ensures Books(c, DoPrepare(c, s, i, result))
  {
    var caller := DoPrepare(c, s, i, result).callers[i];
    assert CallerLoad(caller) == 1 && UncountedPush(caller) == 0;
    CallerMoves(s, i, caller);
  }

  lemma {:induction false} BooksLeaving(c: Config, s: State, step: Step)
    requires Enabled(c, s, step) && Books(c, s)
    requires step.CountRefusal? || step.CountPush? || step.CountQueued? || step.Signal?
    ensures Books(c, Do(c, s, step))
  {
    CallerMoves(s, step.i, Do(c, s, step).callers[step.i]);
  }

  lemma {:induction false} BooksPush(c: Config, s: State, i: nat)
    requires Enabled(c, s, Step.Push(i)) && Books(c, s)
    ensures Books(c, DoPush(c, s, i))
  {
    var e := s.callers[i].event;
    var (held, r) := Pushed(s.queue, c.capacity, e);
    PushConserves(s.queue, c.capacity, e);
    assert |multiset(s.queue) + multiset{e}| == |multiset(held) + multiset(ReportedDrops(r))|;
    CallerMoves(s, i, DoPush(c, s, i).callers[i]);
  }

  lemma {:induction false} BooksWorker(c: Config, s: State, step: Step)
    requires Enabled(c, s, step) && Books(c, s)
    requires step.TakeToken? || step.Look? || step.StartPass? || step.StartLastPass? || step.Drain? || step.Peek?
    ensures Books(c, Do(c, s, step))
  {
    assert Do(c, s, step).callers == s.callers;
  }

  lemma {:induction false} WithSendLoad(s: State, who: Who, send: Sending)
    requires InFlight(s, who).Some?
    ensures var s1 := WithSend(s, who, send);
            && WorkerLoad(s1.worker) + SumOf(s1.callers, CallerLoad)
               == WorkerLoad(s.worker) + SumOf(s.callers, CallerLoad)
                  - SendLoad(InFlight(s, who).value) + SendLoad(send)
            && SumOf(s1.callers, UncountedPush) == SumOf(s.callers, UncountedPush)
            && s1.queue == s.queue && s1.counters == s.counters
  {
    if who.ACaller? {
      CallerMoves(s, who.i, s.callers[who.i].(send := send));
    }
  }

  lemma {:induction false} ConcludedLoad(s: State, who: Who, acked: bool, persist: bool)
    requires InFlight(s, who).Some?
    ensures var s1 := Concluded(s, who, acked, persist);
            && WorkerLoad(s1.worker) + SumOf(s1.callers, CallerLoad)
               == WorkerLoad(s.worker) + SumOf(s.callers, CallerLoad) - SendLoad(InFlight(s, who).value)
            && SumOf(s1.callers, UncountedPush) == SumOf(s.callers, UncountedPush)
            && s1.queue == s.queue && s1.counters == s.counters
  {
    if who.ACaller? {
      CallerMoves(s, who.i, Concluded(s, who, acked, persist).callers[who.i]);
    }
  }

  lemma {:induction false} BooksAnswered(c: Config, s: State, who: Who, rejected: bool)
    requires Enabled(c, s, Post(who, Answered(rejected))) && Books(c, s)
    ensures Books(c, DoPost(c, s, who, Answered(rejected)))
  {
    var send := InFlight(s, who).value;
    WithSendLoad(s.(answered := s.answered + set e | e in send.batch), who, Acked(send.batch, rejected));
  }

  lemma {:induction false} BooksRefused(c: Config, s: State, who: Who, retryable: bool)
    requires Enabled(c, s, Post(who, Refused(retryable))) && Books(c, s)
    ensures Books(c, DoPost(c, s, who, Refused(retryable)))
  {
    var send := InFlight(s, who).value;
    WithSendLoad(s, who, if retryable && send.attempt < c.retries
                         then Posting(send.batch, send.attempt + 1)
                         else Failing(send.batch, retryable));
  }

  lemma {:induction false} BooksPost(c: Config, s: State, who: Who, reply: Reply)
    requires Enabled(c, s, Post(who, reply)) && Books(c, s)
    ensures Books(c, DoPost(c, s, who, reply))
  {
    match reply {
      case Answered(rejected) => BooksAnswered(c, s, who, rejected);
      case Refused(retryable) => BooksRefused(c, s, who, retryable);
    }
  }

  lemma {:induction false} BooksCountSent(c: Config, s: State, who: Who)
    requires Enabled(c, s, CountSent(who)) && Books(c, s)
    ensures Books(c, DoCountSent(c, s, who))
  {
    var send := InFlight(s, who).value;
    WithSendLoad(s.(counters := s.counters.(sent := s.counters.sent + |send.batch|)),
                 who, Removing(send.batch, send.rejected));
  }

  lemma {:induction false} BooksRemove(c: Config, s: State, who: Who, works: bool)
    requires Enabled(c, s, Remove(who, works)) && Books(c, s)
    ensures Books(c, DoRemove(c, s, who, works))
  {
    var send := InFlight(s, who).value;
    ConcludedLoad(if c.durable && works then s.(outbox := Without(s.outbox, RemovableIds(send.batch))) else s,
                  who, true, send.rejected);
  }

  lemma {:induction false} BooksCountFailed(c: Config, s: State, who: Who)
    requires Enabled(c, s, CountFailed(who)) && Books(c, s)
    ensures Books(c, DoCountFailed(c, s, who))
  {
    var send := InFlight(s, who).value;
    ConcludedLoad(s.(counters := s.counters.(failed := s.counters.failed + |send.batch|)),
                  who, false, send.retryable);
  }

  /** The steps of a caller up to its push. */
  lemma {:induction false} BooksEntering(c: Config, s: State, step: Step)
    requires Enabled(c, s, step) && Books(c, s)
    requires step.Call? || step.CheckClosed? || step.Prepare? || step.Append? || step.Push?
    ensures Books(c, Do(c, s, step))
  {
    match step {
      case Call(sync) => BooksCall(c, s, sync);
      case CheckClosed(i) => BooksCheck(c, s, i);
      case Prepare(i, result) => BooksPrepare(c, s, i, result);
      case Append(i, works) => BooksAppend(c, s, i, works);
      case Push(i) => BooksPush(c, s, i);
    }
  }

  /** The steps of a batch under way. */
  lemma {:induction false} BooksSending(c: Config, s: State, step: Step)
    requires Enabled(c, s, step) && Books(c, s)
    requires step.Post? || step.CountSent? || step.Remove? || step.CountFailed?
    ensures Books(c, Do(c, s, step))
  {
    match step {
      case Post(who, reply) => BooksPost(c, s, who, reply);
      case CountSent(who) => BooksCountSent(c, s, who);
      case Remove(who, works) => BooksRemove(c, s, who, works);
      case CountFailed(who) => BooksCountFailed(c, s, who);
    }
  }

  lemma {:induction false} BooksStep(c: Config, s: State, step: Step)
    requires Enabled(c, s, step) && Books(c, s)
    ensures Books(c, Do(c, s, step))
  {
    if step.Call? || step.CheckClosed? || step.Prepare? || step.Append? || step.Push? {
      BooksEntering(c, s, step);
    } else if step.Post? || step.CountSent? || step.Remove? || step.CountFailed? {
      BooksSending(c, s, step);
    } else if step.CountRefusal? || step.CountPush? || step.CountQueued? || step.Signal? {
      BooksLeaving(c, s, step);
    } else if step.Close? || step.Crash? {
      BooksEnding(c, s, step);
    } else {
      BooksWorker(c, s, step);
    }
  }

  lemma {:induction false} BooksEnding(c: Config, s: State, step: Step)
    requires (step.Close? || step.Crash?) && Books(c, s)
    ensures Books(c, Do(c, s, step))
  {}

  lemma {:induction false} BooksRun(c: Config, s: State, steps: seq<Step>)
    requires CanRun(c, s, steps) && Books(c, s)
    ensures Books(c, After(c, s, steps))
    decreases |steps|
  {
    if steps != [] {
      BooksStep(c, s, steps[0]);
      BooksRun(c, Do(c, s, steps[0]), steps[1..]);
    }
  }

  /**
    * Conservation. In every reachable state the calls since the process started plus the events read back
    * from the outbox are the events buffered, under way, sent, failed and dropped; without an outbox nothing
    * is read back, so the calls alone balance. The Queued counter is balanced too, although a push that
    * replaces an event counts both as queued and as dropped, and the buffer never exceeds its capacity.
    */
  lemma {:induction false} EventsAreConserved(c: Config, init: State, steps: seq<Step>)
    requires Init(c, init) && CanRun(c, init, steps)
    ensures Books(c, After(c, init, steps))
  {
    BooksRun(c, init, steps);
  }

  /** When everybody is at rest the counters add up to the calls. */
  lemma {:induction false} CountersAddUpAtRest(c: Config, init: State, steps: seq<Step>)
    requires Init(c, init) && CanRun(c, init, steps) && !c.durable
    requires var s := After(c, init, steps);
             && !s.worker.Delivering?
             && forall i :: 0 <= i < |s.callers| ==> s.callers[i].Returned?
    ensures var s := After(c, init, steps);
            && s.counters.offered == |s.queue| + s.counters.sent + s.counters.failed + s.counters.dropped
            && s.counters.queued == |s.queue| + s.counters.taken + s.counters.replaced
  {
    EventsAreConserved(c, init, steps);
    RestSums(After(c, init, steps).callers);
  }

  lemma {:induction false} RestSums(callers: seq<Caller>)
    requires forall i :: 0 <= i < |callers| ==> callers[i].Returned?
    ensures SumOf(callers, CallerLoad) == 0 && SumOf(callers, UncountedPush) == 0
  {
    if callers != [] {
      RestSums(callers[..|callers| - 1]);
    }
  }

  // ----- The wake-up threshold

  lemma {:induction false} Extend(c: Config, init: State, steps: seq<Step>, step: Step) returns (more: seq<Step>)
    requires CanRun(c, init, steps) && Enabled(c, After(c, init, steps), step)
    ensures CanRun(c, init, more) && After(c, init, more) == Do(c, After(c, init, steps), step)
  {
    OneStep(c, After(c, init, steps), step);
    RunConcat(c, init, steps, [step]);
    more := steps + [step];
  }

  /** A caller can take its event all the way into a buffer with room while the worker sleeps. */
  lemma {:induction false} OneMoreBuffered(c: Config, init: State, steps: seq<Step>, e: Event) returns (more: seq<Step>)
    requires c.admits(e) && CanRun(c, init, steps)
    requires var s := After(c, init, steps); s.worker.Idle? && !s.closed && |s.queue| < c.capacity
    ensures CanRun(c, init, more)
    ensures var s, s1 := After(c, init, steps), After(c, init, more);
            s1.worker.Idle? && !s1.closed && s1.queue == s.queue + [e]
  {
    var i := |After(c, init, steps).callers|;
    more := Extend(c, init, steps, Call(false));
    more := Extend(c, init, more, CheckClosed(i));
    more := Extend(c, init, more, Prepare(i, Some(e)));
    more := Extend(c, init, more, Append(i, true));
    more := Extend(c, init, more, Step.Push(i));
  }

  lemma {:induction false} Buffered(c: Config, init: State, e: Event, n: nat) returns (steps: seq<Step>)
    requires Init(c, init) && c.admits(e) && n <= c.capacity
    ensures CanRun(c, init, steps)
    ensures var s := After(c, init, steps); s.worker.Idle? && !s.closed && |s.queue| == n
  {
    if n == 0 {
      steps := [];
    } else {
      steps := Buffered(c, init, e, n - 1);
      steps := OneMoreBuffered(c, init, steps, e);
    }
  }

  ghost predicate Waiting(c: Config, init: State, steps: seq<Step>) {
    CanRun(c, init, steps) && After(c, init, steps).worker.Idle? && |After(c, init, steps).queue| >= c.batchSize
  }

  /**
    * The normalization of the settings is what makes the wake-up threshold mean something: a full batch can be
    * waiting for the sleeping worker if and only if the batch size does not exceed the buffer size.
    */
  lemma {:induction false} ThresholdReachableIff(c: Config, init: State, e: Event)
    requires Init(c, init) && c.admits(e)
    ensures (exists steps :: Waiting(c, init, steps)) <==> c.batchSize <= c.capacity
  {
    if c.batchSize <= c.capacity {
      var steps := Buffered(c, init, e, c.batchSize);
      assert Waiting(c, init, steps);
    }
    if steps :| Waiting(c, init, steps) {
      EventsAreConserved(c, init, steps);
    }
  }

  // ----- Admission

  /** The event passed validation, or was already in the outbox file when the process first started. */
  ghost predicate Known(c: Config, stored: seq<Line>, e: Event) {
    c.admits(e) || Record(e) in stored
  }

  ghost predicate CallerAdmitted(c: Config, caller: Caller) {
    match caller
    case Persisting(e) => c.admits(e)
    case Pushing(e) => c.admits(e)
    case Sync(e, send) => c.admits(e) && send.batch == [e]
    case SyncPersisting(e) => c.admits(e)
    case _ => true
  }

  ghost predicate WorkerAdmitted(c: Config, stored: seq<Line>, worker: Worker) {
    worker.Delivering? ==>
      forall e :: e in worker.send.batch ==> if worker.phase.QueuePhase? then c.admits(e) else Known(c, stored, e)
  }

  ghost predicate Admitted(c: Config, stored: seq<Line>, s: State) {
    && (forall e :: e in s.queue ==> c.admits(e))
    && (forall i :: 0 <= i < |s.callers| ==> CallerAdmitted(c, s.callers[i]))
    && WorkerAdmitted(c, stored, s.worker)
    && (forall e :: Record(e) in s.outbox ==> Known(c, stored, e))
    && (forall e :: e in s.appended ==> c.admits(e))
    && (forall e :: e in s.answered ==> Known(c, stored, e))
  }

  lemma {:induction false} AdmittedCaller(c: Config, stored: seq<Line>, s: State, i: nat, caller: Caller)
    requires Admitted(c, stored, s) && i < |s.callers| && CallerAdmitted(c, caller)
    ensures Admitted(c, stored, WithCaller(s, i, caller))
  {}

  lemma {:induction false} AdmittedEntering(c: Config, stored: seq<Line>, s: State, step: Step)
    requires Enabled(c, s, step) && Admitted(c, stored, s)
    requires step.CheckClosed? || step.Prepare? || step.CountRefusal? || step.CountPush? || step.CountQueued?
             || step.Signal?
    ensures Admitted(c, stored, Do(c, s, step))
  {
    var s1 := Do(c, s, step);
    assert CallerAdmitted(c, s1.callers[step.i]);
    AdmittedCaller(c, stored, s.(counters := s1.counters, notify := s1.notify), step.i, s1.callers[step.i]);
  }

  lemma {:induction false} AdmittedAppend(c: Config, stored: seq<Line>, s: State, i: nat, works: bool)
    requires Enabled(c, s, Append(i, works)) && Admitted(c, stored, s)
    ensures Admitted(c, stored, DoAppend(c, s, i, works))
  {
    var s1 := DoAppend(c, s, i, works);
    assert CallerAdmitted(c, s.callers[i]);
    AdmittedCaller(c, stored, s, i, s1.callers[i]);
  }

  lemma {:induction false} AdmittedPush(c: Config, stored: seq<Line>, s: State, i: nat)
    requires Enabled(c, s, Step.Push(i)) && Admitted(c, stored, s)
    ensures Admitted(c, stored, DoPush(c, s, i))
  {
    var e := s.callers[i].event;
    var held := Pushed(s.queue, c.capacity, e).0;
    assert CallerAdmitted(c, s.callers[i]);
    assert forall x :: x in held ==> x in s.queue || x == e;
    var s1 := DoPush(c, s, i);
    AdmittedCaller(c, stored, s.(queue := held, counters := s1.counters), i, s1.callers[i]);
  }

  lemma {:induction false} PeekedStored(lines: seq<Line>, max: int)
    ensures forall e :: e in Peeked(lines, max) ==> Record(e) in lines
  {
    DecodedStored(lines);
  }

  lemma {:induction false} DecodedStored(lines: seq<Line>)
    ensures forall e :: e in Decoded(lines) ==> Record(e) in lines
  {
    if lines != [] {
      DecodedStored(lines[..|lines| - 1]);
    }
  }

  lemma {:induction false} AdmittedWorker(c: Config, stored: seq<Line>, s: State, step: Step)
    requires Enabled(c, s, step) && Admitted(c, stored, s)
    requires step.TakeToken? || step.Look? || step.StartPass? || step.StartLastPass? || step.Drain? || step.Peek?
    ensures Admitted(c, stored, Do(c, s, step))
  {
    var s1 := Do(c, s, step);
    PeekedStored(s.outbox, c.batchSize);
    assert forall e :: e in s1.queue ==> e in s.queue;
    assert WorkerAdmitted(c, stored, s1.worker);
  }

  lemma {:induction false} AdmittedWithSend(c: Config, stored: seq<Line>, s: State, who: Who, send: Sending)
    requires InFlight(s, who).Some? && Admitted(c, stored, s) && send.batch == InFlight(s, who).value.batch
    ensures Admitted(c, stored, WithSend(s, who, send))
  {
    match who {
      case TheWorker =>
      case ACaller(i) =>
        assert CallerAdmitted(c, s.callers[i]);
        AdmittedCaller(c, stored, s, i, s.callers[i].(send := send));
    }
  }

  lemma {:induction false} AdmittedConcluded(
    c: Config, stored: seq<Line>, s: State, who: Who, acked: bool, persist: bool)
    requires InFlight(s, who).Some? && Admitted(c, stored, s)
    ensures Admitted(c, stored, Concluded(s, who, acked, persist))
  {
    match who {
      case TheWorker =>
      case ACaller(i) =>
        assert CallerAdmitted(c, s.callers[i]);
        AdmittedCaller(c, stored, s, i, Concluded(s, who, acked, persist).callers[i]);
    }
  }

  lemma {:induction false} AdmittedPost(c: Config, stored: seq<Line>, s: State, who: Who, reply: Reply)
    requires Enabled(c, s, Post(who, reply)) && Admitted(c, stored, s)
    ensures Admitted(c, stored, DoPost(c, s, who, reply))
  {
    var send := InFlight(s, who).value;
    match reply {
      case Answered(rejected) =>
        if who.ACaller? {
          assert CallerAdmitted(c, s.callers[who.i]);
        }
        var s0 := s.(answered := s.answered + set e | e in send.batch);
        assert Admitted(c, stored, s0);
        AdmittedWithSend(c, stored, s0, who, Acked(send.batch, rejected));
      case Refused(retryable) =>
        AdmittedWithSend(c, stored, s, who, if retryable && send.attempt < c.retries
                                            then Posting(send.batch, send.attempt + 1)
                                            else Failing(send.batch, retryable));
    }
  }

  lemma {:induction false} AdmittedRemove(c: Config, stored: seq<Line>, s: State, who: Who, works: bool)
    requires Enabled(c, s, Remove(who, works)) && Admitted(c, stored, s)
    ensures Admitted(c, stored, DoRemove(c, s, who, works))
  {
    var send := InFlight(s, who).value;
    WithoutRemoves(s.outbox, RemovableIds(send.batch));
    var s0 := if c.durable && works then s.(outbox := Without(s.outbox, RemovableIds(send.batch))) else s;
    assert Admitted(c, stored, s0);
    AdmittedConcluded(c, stored, s0, who, true, send.rejected);
  }

  lemma {:induction false} AdmittedCountSent(c: Config, stored: seq<Line>, s: State, who: Who)
    requires Enabled(c, s, CountSent(who)) && Admitted(c, stored, s)
    ensures Admitted(c, stored, DoCountSent(c, s, who))
  {
    var send := InFlight(s, who).value;
    AdmittedWithSend(c, stored, s.(counters := s.counters.(sent := s.counters.sent + |send.batch|)),
                     who, Removing(send.batch, send.rejected));
  }

  lemma {:induction false} AdmittedCountFailed(c: Config, stored: seq<Line>, s: State, who: Who)
    requires Enabled(c, s, CountFailed(who)) && Admitted(c, stored, s)
    ensures Admitted(c, stored, DoCountFailed(c, s, who))
  {
    var send := InFlight(s, who).value;
    AdmittedConcluded(c, stored, s.(counters := s.counters.(failed := s.counters.failed + |send.batch|)),
                      who, false, send.retryable);
  }

  lemma {:induction false} AdmittedStep(c: Config, stored: seq<Line>, s: State, step: Step)
    requires Enabled(c, s, step) && Admitted(c, stored, s)
    ensures Admitted(c, stored, Do(c, s, step))
  {
    match step {
      case Call(_) =>
      case Close =>
      case Crash =>
      case Append(i, works) => AdmittedAppend(c, stored, s, i, works);
      case Push(i) => AdmittedPush(c, stored, s, i);
      case Post(who, reply) => AdmittedPost(c, stored, s, who, reply);
      case CountSent(who) => AdmittedCountSent(c, stored, s, who);
      case Remove(who, works) => AdmittedRemove(c, stored, s, who, works);
      case CountFailed(who) => AdmittedCountFailed(c, stored, s, who);
      case TakeToken => AdmittedWorker(c, stored, s, step);
      case Look => AdmittedWorker(c, stored, s, step);
      case StartPass => AdmittedWorker(c, stored, s, step);
      case StartLastPass => AdmittedWorker(c, stored, s, step);
      case Drain => AdmittedWorker(c, stored, s, step);
      case Peek(_) => AdmittedWorker(c, stored, s, step);
      case _ => AdmittedEntering(c, stored, s, step);
    }
  }

  lemma {:induction false} AdmittedRun(c: Config, stored: seq<Line>, s: State, steps: seq<Step>)
    requires CanRun(c, s, steps) && Admitted(c, stored, s)
    ensures Admitted(c, stored, After(c, s, steps))
    decreases |steps|
  {
    if steps != [] {
      AdmittedStep(c, stored, s, steps[0]);
      AdmittedRun(c, stored, Do(c, s, steps[0]), steps[1..]);
    }
  }

  /**
    * Admission. In every reachable state, everything buffered, appended by this client, or on its way from
    * the buffer or a synchronous call has passed validation, and whatever was delivered or lies in the outbox
    * has passed it or was in the file from the start.
    */
  lemma {:induction false} OnlyAdmittedEventsTravel(c: Config, init: State, steps: seq<Step>)
    requires Init(c, init) && CanRun(c, init, steps)
    ensures Admitted(c, init.outbox, After(c, init, steps))
  {
    AdmittedRun(c, init.outbox, init, steps);
  }

  /** So when validation demands an ID and the file began with none missing, no record is ever without one. */
  lemma {:induction false} RecordsKeepIds(c: Config, init: State, steps: seq<Step>)
    requires Init(c, init) && CanRun(c, init, steps)
    requires [] !in StoredIds(init.outbox)
    requires forall e :: c.admits(e) ==> e.eventId != []
    ensures [] !in StoredIds(After(c, init, steps).outbox)
  {
    OnlyAdmittedEventsTravel(c, init, steps);
    var s := After(c, init, steps);
    forall line | line in s.outbox && line.Record?
      ensures line.event.eventId != []
    {
      assert Record(line.event) in s.outbox;
      if Record(line.event) in init.outbox {
        assert line.event.eventId in StoredIds(init.outbox);
      }
    }
  }
}
