/** What `enqueue` does over every interleaving: the course of one call, and what is recorded before it is buffered. */
module AsyncCalls {
  import opened Bytes
  import opened Events
  import opened Seqs
  import opened Pipeline
  import opened PipelineLaws
  import opened Closing

  // ----- The course of a call

  /** The caller's own steps, in order. */
  function OwnSteps(steps: seq<Step>, i: nat): seq<Step> {
    if steps == [] then [] else OwnStep(steps[0], i) + OwnSteps(steps[1..], i)
  }

  function OwnStep(step: Step, i: nat): seq<Step> {
    if CallerOf(step) == Some(i) then [step] else []
  }

  /** The event passed preparation and its record was tried, whether or not the disk took it. */
  ghost predicate Tried(own: seq<Step>, i: nat, e: Event) {
    |own| >= 3 && own[0] == CheckClosed(i) && own[1] == Prepare(i, Some(e)) && own[2].Append? && own[2].i == i
  }

  /** Turned away at the door, or refused by preparation. */
  ghost predicate Refusal(own: seq<Step>, i: nat) {
    own == [CheckClosed(i)] || own == [CheckClosed(i), Prepare(i, None)]
  }

  /** The steps after the record: push, the count of drops, the count of queued events, the signal. */
  function Tail(i: nat): seq<Step> {
    [Step.Push(i), CountPush(i), CountQueued(i), Signal(i)]
  }

  ghost predicate Pushes(own: seq<Step>, i: nat, n: nat) {
    n <= 4 && |own| == 3 + n && own[3..] == Tail(i)[..n] && own[1].Prepare? && own[1].result.Some?
    && Tried(own, i, own[1].result.value)
  }

  /** Where the caller stands, against the steps it has made. */
  ghost predicate OnCourse(caller: Caller, own: seq<Step>, i: nat) {
    match caller
    case Checking(sync) => !sync && own == []
    case Preparing(sync) => !sync && own == [CheckClosed(i)]
    case Dropping => Refusal(own, i)
    case Persisting(e) => own == [CheckClosed(i), Prepare(i, Some(e))]
    case Pushing(e) => Pushes(own, i, 0) && own[1] == Prepare(i, Some(e))
    case Counting(_, _) => Pushes(own, i, 1)
    case Bumping => Pushes(own, i, 2)
    case Signalling => Pushes(own, i, 3)
    case Returned =>
      || Pushes(own, i, 2) || Pushes(own, i, 4)
      || (own != [] && Refusal(own[..|own| - 1], i) && own[|own| - 1] == CountRefusal(i))
    case _ => false
  }

  /** A caller moves only by its own steps. */
  lemma {:induction false} OthersPass(c: Config, s: State, i: nat, step: Step)
    requires Enabled(c, s, step) && !step.Crash? && i < |s.callers| && CallerOf(step) != Some(i)
    ensures i < |Do(c, s, step).callers| && Do(c, s, step).callers[i] == s.callers[i]
  {
    if CallerOf(step).Some? {
      CallerStepFrame(c, s, step);
    }
  }

  lemma {:induction false} OwnCourse(c: Config, s: State, i: nat, own: seq<Step>, step: Step)
    requires Enabled(c, s, step) && i < |s.callers| && CallerOf(step) == Some(i) && OnCourse(s.callers[i], own, i)
    ensures i < |Do(c, s, step).callers| && OnCourse(Do(c, s, step).callers[i], own + [step], i)
  {
    CallerStepFrame(c, s, step);
    var more := own + [step];
    assert more[..|own|] == own;
    if |own| >= 3 {
      assert more[3..] == own[3..] + [step];
      var n := |own| - 3;
      assert n < 4 ==> Tail(i)[..n + 1] == Tail(i)[..n] + [Tail(i)[n]];
    } else {
      assert |own| == 2 ==> more[3..] == Tail(i)[..0];
    }
  }

  lemma {:induction false} CourseStep(c: Config, s: State, i: nat, own: seq<Step>, step: Step)
    requires Enabled(c, s, step) && !step.Crash? && i < |s.callers| && OnCourse(s.callers[i], own, i)
    ensures i < |Do(c, s, step).callers| && OnCourse(Do(c, s, step).callers[i], own + OwnStep(step, i), i)
  {
    if CallerOf(step) == Some(i) {
      OwnCourse(c, s, i, own, step);
    } else {
      OthersPass(c, s, i, step);
      assert own + [] == own;
    }
  }

  lemma {:induction false} CourseRun(c: Config, s: State, i: nat, own: seq<Step>, steps: seq<Step>)
    requires CanRun(c, s, steps) && Crash !in steps && i < |s.callers| && OnCourse(s.callers[i], own, i)
    ensures var s1 := After(c, s, steps);
            i < |s1.callers| && OnCourse(s1.callers[i], own + OwnSteps(steps, i), i)
    decreases |steps|
  {
    if steps == [] {
      assert own + [] == own;
    } else {
      var step, rest := steps[0], steps[1..];
      CourseStep(c, s, i, own, step);
      CourseRun(c, Do(c, s, step), i, own + OwnStep(step, i), rest);
      OneThenRest(own, OwnStep(step, i), OwnSteps(rest, i));
      assert OwnSteps(steps, i) == OwnStep(step, i) + OwnSteps(rest, i);
    }
  }

  /**
    * The course of an asynchronous call, in any interleaving without a crash. Its own steps are always the
    * beginning of one of three courses: it is turned away; preparation refuses its event; or it tries to record
    * the event, pushes it whether or not the disk took the record, counts its drops, and, if it then counts the
    * event as queued, signals the worker. It never posts anything itself.
    */
  lemma {:induction false} AsyncCallCourse(c: Config, s: State, steps: seq<Step>)
    requires CanRun(c, Do(c, s, Call(false)), steps) && Crash !in steps
    ensures var i, s1 := |s.callers|, After(c, Do(c, s, Call(false)), steps);
            i < |s1.callers| && OnCourse(s1.callers[i], OwnSteps(steps, i), i)
  {
    var i := |s.callers|;
    CourseRun(c, Do(c, s, Call(false)), i, [], steps);
    FromNothing(OwnSteps(steps, i));
  }

  // ----- A synchronous call never touches the buffer

  ghost predicate IsSyncs(caller: Caller) {
    match caller
    case Checking(sync) => sync
    case Preparing(sync) => sync
    case Dropping => true
    case Sync(_, _) => true
    case SyncPersisting(_) => true
    case Returned => true
    case _ => false
  }

  lemma {:induction false} OwnKind(c: Config, s: State, i: nat, step: Step)
    requires Enabled(c, s, step) && i < |s.callers| && CallerOf(step) == Some(i) && IsSyncs(s.callers[i])
    ensures i < |Do(c, s, step).callers| && IsSyncs(Do(c, s, step).callers[i])
    ensures Do(c, s, step).queue == s.queue && Do(c, s, step).notify == s.notify
  {
    CallerStepFrame(c, s, step);
  }

  lemma {:induction false} KindRun(c: Config, s: State, i: nat, steps: seq<Step>)
    requires CanRun(c, s, steps) && Crash !in steps && i < |s.callers| && IsSyncs(s.callers[i])
    ensures var s1 := After(c, s, steps);
            && i < |s1.callers| && IsSyncs(s1.callers[i])
            && Step.Push(i) !in steps && Signal(i) !in steps
    decreases |steps|
  {
    if steps != [] {
      if CallerOf(steps[0]) == Some(i) {
        OwnKind(c, s, i, steps[0]);
      } else {
        OthersPass(c, s, i, steps[0]);
      }
      KindRun(c, Do(c, s, steps[0]), i, steps[1..]);
    }
  }

  /** A synchronous call neither pushes into the buffer nor wakes the worker, in any interleaving. */
  lemma {:induction false} SyncCallAvoidsBuffer(c: Config, s: State, steps: seq<Step>)
    requires CanRun(c, Do(c, s, Call(true)), steps) && Crash !in steps
    ensures Step.Push(|s.callers|) !in steps && Signal(|s.callers|) !in steps
  {
    KindRun(c, Do(c, s, Call(true)), |s.callers|, steps);
  }

  // ----- Recorded before buffered

  /** Every event that is to be pushed, buffered, or in a batch from the buffer has been appended. */
  ghost predicate RecordedFirst(s: State) {
    && (forall i :: 0 <= i < |s.callers| && s.callers[i].Pushing? ==> s.callers[i].event in s.appended)
    && (forall e :: e in s.queue ==> e in s.appended)
    && (s.worker.Delivering? && s.worker.phase.QueuePhase? ==>
          forall e :: e in s.worker.send.batch ==> e in s.appended)
  }

  lemma {:induction false} PushRecorded(c: Config, s: State, i: nat)
    requires Enabled(c, s, Step.Push(i)) && RecordedFirst(s)
    ensures RecordedFirst(DoPush(c, s, i))
  {
    var s1 := DoPush(c, s, i);
    forall e | e in s1.queue
      ensures e in s1.appended
    {
      assert e in s.queue || e == s.callers[i].event;
    }
  }

  lemma {:induction false} AppendRecorded(c: Config, s: State, i: nat)
    requires Enabled(c, s, Append(i, true)) && c.durable && RecordedFirst(s)
    ensures RecordedFirst(DoAppend(c, s, i, true))
  {}

  lemma {:induction false} CallerRecorded(c: Config, s: State, step: Step)
    requires Enabled(c, s, step) && CallerOf(step).Some? && !step.Push? && !step.Append? && RecordedFirst(s)
    ensures RecordedFirst(Do(c, s, step))
  {
    var s1 := Do(c, s, step);
    CallerStepFrame(c, s, step);
    HistoryStep(c, s, step);
    CallerLeavesWorker(c, s, step);
  }

  lemma {:induction false} CallerLeavesWorker(c: Config, s: State, step: Step)
    requires Enabled(c, s, step) && CallerOf(step).Some? && !step.Push? && !step.Append?
    ensures var s1 := Do(c, s, step);
            && s1.worker == s.worker && s1.queue == s.queue
            && !s1.callers[CallerOf(step).value].Pushing?
  {}

  lemma {:induction false} WorkerRecorded(c: Config, s: State, step: Step)
    requires Enabled(c, s, step) && CallerOf(step).None? && RecordedFirst(s)
    ensures RecordedFirst(Do(c, s, step))
  {
    HistoryStep(c, s, step);
    WorkerTakesFromBuffer(c, s, step);
  }

  lemma {:induction false} WorkerTakesFromBuffer(c: Config, s: State, step: Step)
    requires Enabled(c, s, step) && CallerOf(step).None?
    ensures var s1 := Do(c, s, step);
            && (forall e :: e in s1.queue ==> e in s.queue)
            && (forall j :: 0 <= j < |s1.callers| && s1.callers[j].Pushing? ==>
                  j < |s.callers| && s1.callers[j] == s.callers[j])
            && (s1.worker.Delivering? && s1.worker.phase.QueuePhase? ==>
                  || (s.worker.Delivering? && s.worker.phase.QueuePhase? && s1.worker.send.batch == s.worker.send.batch)
                  || (step.Drain? && forall e :: e in s1.worker.send.batch ==> e in s.queue))
  {
    match step {
      case Post(who, reply) =>
      case CountSent(who) =>
      case Remove(who, _) =>
      case CountFailed(who) =>
      case _ =>
    }
  }

  ghost predicate AppendsWork(steps: seq<Step>) {
    forall k :: 0 <= k < |steps| && steps[k].Append? ==> steps[k].works
  }

  /**
    * Recorded before buffered: with an outbox whose appends work, whatever the interleaving and the crashes,
    * everything in the buffer, on its way into it or in a batch taken from it has been appended before -- so by
    * the durability law losing the buffer loses nothing.
    */
  lemma {:induction false} BufferedIsRecorded(c: Config, s: State, steps: seq<Step>)
    requires CanRun(c, s, steps) && c.durable && AppendsWork(steps) && RecordedFirst(s)
    ensures RecordedFirst(After(c, s, steps))
    decreases |steps|
  {
    if steps != [] {
      match steps[0] {
        case Push(i) => PushRecorded(c, s, i);
        case Append(i, works) =>
          assert steps[0].works;
          AppendRecorded(c, s, i);
        case step =>
          if CallerOf(step).Some? {
            CallerRecorded(c, s, step);
          } else {
            WorkerRecorded(c, s, step);
          }
      }
      BufferedIsRecorded(c, Do(c, s, steps[0]), steps[1..]);
    }
  }
}
