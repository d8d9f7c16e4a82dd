/** What Close means for callers and for the worker, over every interleaving. */
module Closing {
  import opened Bytes
  import opened Events
  import opened Pipeline

  // ----- Callers that come too late

  /** The caller a step belongs to. */
  function CallerOf(step: Step): Option<nat> {
    match step
    case CheckClosed(i) => Some(i)
    case Prepare(i, _) => Some(i)
    case CountRefusal(i) => Some(i)
    case Append(i, _) => Some(i)
    case Push(i) => Some(i)
    case CountPush(i) => Some(i)
    case CountQueued(i) => Some(i)
    case Signal(i) => Some(i)
    case Post(ACaller(i), _) => Some(i)
    case CountSent(ACaller(i)) => Some(i)
    case Remove(ACaller(i), _) => Some(i)
    case CountFailed(ACaller(i)) => Some(i)
    case _ => None
  }

  predicate OutOfDoors(caller: Caller) {
    caller.Checking? || caller.Dropping? || caller.Returned?
  }

  /** From the `n`th on, callers are at the door, being turned away or gone. */
  ghost predicate TurnedAway(s: State, n: nat) {
    s.closed && n <= |s.callers| && forall j :: n <= j < |s.callers| ==> OutOfDoors(s.callers[j])
  }

  /** Of a late caller, a step only turns it away: it looks at the flag or counts the refusal. */
  predicate OnlyTurnsAway(step: Step, n: nat) {
    CallerOf(step).Some? && CallerOf(step).value >= n ==> step.CheckClosed? || step.CountRefusal?
  }

  /** Drops a step counts on behalf of the callers before the `n`th. */
  function EarlierDrops(s: State, step: Step, n: nat): int {
    match step
    case CountRefusal(i) => if i < n then 1 else 0
    case CountPush(i) => if i < n && i < |s.callers| && s.callers[i].Counting? && s.callers[i].drop then 1 else 0
    case _ => 0
  }

  ghost function DropsOfEarlier(c: Config, s: State, steps: seq<Step>, n: nat): int
    requires CanRun(c, s, steps)
    decreases |steps|
  {
    if steps == [] then 0
    else EarlierDrops(s, steps[0], n) + DropsOfEarlier(c, Do(c, s, steps[0]), steps[1..], n)
  }

  /** How many callers from the `n`th on have returned. */
  function LateReturns(callers: seq<Caller>, n: nat): nat {
    if |callers| <= n then 0
    else LateReturns(callers[..|callers| - 1], n) + if callers[|callers| - 1].Returned? then 1 else 0
  }

  lemma {:induction false} LateReturnsMove(callers: seq<Caller>, n: nat, i: nat, caller: Caller)
    requires i < |callers|
    ensures LateReturns(callers[i := caller], n) == LateReturns(callers, n)
            + if i < n then 0 else (if caller.Returned? then 1 else 0) - (if callers[i].Returned? then 1 else 0)
  {
    var last := |callers| - 1;
    if last >= n {
      if i < last {
        LateReturnsMove(callers[..last], n, i, caller);
        assert callers[i := caller][..last] == callers[..last][i := caller];
      } else {
        assert callers[i := caller][..last] == callers[..last];
      }
    }
  }

  lemma {:induction false} LateReturnsSnoc(callers: seq<Caller>, n: nat, sync: bool)
    ensures LateReturns(callers + [Checking(sync)], n) == LateReturns(callers, n)
  {
    assert (callers + [Checking(sync)])[..|callers|] == callers;
    assert (callers + [Checking(sync)])[|callers|] == Checking(sync);
  }

  /** What a step does to the late callers and to the count of drops. */
  ghost predicate TurnsAway(s: State, s1: State, step: Step, n: nat) {
    && TurnedAway(s1, n)
    && OnlyTurnsAway(step, n)
    && s1.counters.dropped - s.counters.dropped
       == EarlierDrops(s, step, n) + LateReturns(s1.callers, n) - LateReturns(s.callers, n)
  }

  lemma {:induction false} CallerTurnsAway(c: Config, s: State, step: Step, n: nat)
    requires TurnedAway(s, n) && Enabled(c, s, step) && CallerOf(step).Some?
    ensures TurnsAway(s, Do(c, s, step), step, n)
  {
    var i := CallerOf(step).value;
    var s1 := Do(c, s, step);
    CallerStepFrame(c, s, step);
    LateReturnsMove(s.callers, n, i, s1.callers[i]);
  }

  /** A caller's step moves that caller; only a counted drop moves the counter. */
  lemma {:induction false} CallerStepFrame(c: Config, s: State, step: Step)
    requires Enabled(c, s, step) && CallerOf(step).Some?
    ensures var i, s1 := CallerOf(step).value, Do(c, s, step);
            && i < |s.callers| && |s1.callers| == |s.callers|
            && s1.callers == s.callers[i := s1.callers[i]] && s1.closed == s.closed
            && s1.counters.dropped - s.counters.dropped
               == (if step.CountRefusal? || (step.CountPush? && s.callers[i].drop) then 1 else 0)
  {}

  lemma {:induction false} OtherTurnsAway(c: Config, s: State, step: Step, n: nat)
    requires TurnedAway(s, n) && Enabled(c, s, step) && CallerOf(step).None? && !step.Crash?
    ensures TurnsAway(s, Do(c, s, step), step, n)
  {
    if step.Call? {
      LateReturnsSnoc(s.callers, n, step.sync);
    }
  }

  lemma {:induction false} TurnsAwayRun(c: Config, s: State, steps: seq<Step>, n: nat)
    requires TurnedAway(s, n) && CanRun(c, s, steps) && Crash !in steps
    ensures var s1 := After(c, s, steps);
            && TurnedAway(s1, n)
            && (forall k :: 0 <= k < |steps| ==> OnlyTurnsAway(steps[k], n))
            && s1.counters.dropped - s.counters.dropped
               == DropsOfEarlier(c, s, steps, n) + LateReturns(s1.callers, n) - LateReturns(s.callers, n)
    decreases |steps|
  {
    if steps != [] {
      if CallerOf(steps[0]).Some? {
        CallerTurnsAway(c, s, steps[0], n);
      } else {
        OtherTurnsAway(c, s, steps[0], n);
      }
      TurnsAwayRun(c, Do(c, s, steps[0]), steps[1..], n);
      assert forall k :: 0 <= k < |steps| ==> steps[k] == if k == 0 then steps[0] else steps[1..][k - 1];
    }
  }

  lemma {:induction false} NoLateReturns(callers: seq<Caller>)
    ensures LateReturns(callers, |callers|) == 0
  {}

  /**
    * A closed client takes nothing in. Whoever calls after a Close, in any interleaving without a restart, is
    * turned away: it never prepares, appends, pushes or posts anything, it is only ever at the door, being
    * refused or gone, and each one gone was counted as one drop, beside the drops of the callers that were
    * already inside.
    */
  lemma {:induction false} ClosedTurnsAway(c: Config, s: State, steps: seq<Step>)
    requires CanRun(c, Do(c, s, Close), steps) && Crash !in steps
    ensures var n, s1 := |s.callers|, After(c, Do(c, s, Close), steps);
            && s1.closed
            && (forall j :: n <= j < |s1.callers| ==>
                  s1.callers[j].Checking? || s1.callers[j].Dropping? || s1.callers[j].Returned?)
            && (forall k :: 0 <= k < |steps| ==> OnlyTurnsAway(steps[k], n))
            && s1.counters.dropped
               == s.counters.dropped + DropsOfEarlier(c, Do(c, s, Close), steps, n) + LateReturns(s1.callers, n)
  {
    TurnsAwayRun(c, Do(c, s, Close), steps, |s.callers|);
    NoLateReturns(s.callers);
  }

  /** The buffer is what is left of an earlier one once its front has been taken. */
  ghost predicate LeftOf(q: seq<Event>, was: seq<Event>) {
    |q| <= |was| && q == was[|was| - |q|..]
  }

  lemma {:induction false} LeftOfLeft(q: seq<Event>, between: seq<Event>, was: seq<Event>)
    requires LeftOf(q, between) && LeftOf(between, was)
    ensures LeftOf(q, was)
  {}

  lemma {:induction false} QuietFrame(c: Config, s: State, step: Step)
    requires Enabled(c, s, step) && !step.Crash? && !step.Append? && !step.Push? && !step.Drain? && !step.CountQueued?
    ensures var s1 := Do(c, s, step);
            s1.appended == s.appended && s1.queue == s.queue && s1.counters.queued == s.counters.queued
  {}

  lemma {:induction false} QuietDrain(c: Config, s: State)
    requires Enabled(c, s, Step.Drain)
    ensures var s1 := DoDrain(c, s);
            s1.appended == s.appended && LeftOf(s1.queue, s.queue) && s1.counters.queued == s.counters.queued
  {}

  lemma {:induction false} QuietStep(c: Config, s: State, step: Step)
    requires TurnedAway(s, 0) && Enabled(c, s, step) && !step.Crash?
    ensures var s1 := Do(c, s, step);
            s1.appended == s.appended && LeftOf(s1.queue, s.queue) && s1.counters.queued == s.counters.queued
  {
    if step.Drain? {
      QuietDrain(c, s);
    } else {
      assert !step.Append? && !step.Push? && !step.CountQueued?;
      QuietFrame(c, s, step);
    }
  }

  /** And with nobody inside any more, the buffer only drains and nothing is ever appended again. */
  lemma {:induction false} ClosedAndQuiet(c: Config, s: State, steps: seq<Step>)
    requires s.closed && (forall j :: 0 <= j < |s.callers| ==> OutOfDoors(s.callers[j]))
    requires CanRun(c, s, steps) && Crash !in steps
    ensures var s1 := After(c, s, steps);
            s1.appended == s.appended && LeftOf(s1.queue, s.queue) && s1.counters.queued == s.counters.queued
    decreases |steps|
  {
    if steps != [] {
      QuietStep(c, s, steps[0]);
      if CallerOf(steps[0]).Some? {
        CallerTurnsAway(c, s, steps[0], 0);
      } else {
        OtherTurnsAway(c, s, steps[0], 0);
      }
      var m := Do(c, s, steps[0]);
      ClosedAndQuiet(c, m, steps[1..]);
      LeftOfLeft(After(c, m, steps[1..]).queue, m.queue, s.queue);
    }
  }

  // ----- The worker's passes

  predicate InPass(worker: Worker) {
    worker.Draining? || worker.Delivering? || worker.Peeking?
  }

  predicate IsFinal(worker: Worker) {
    worker.Stopped? || (InPass(worker) && worker.final)
  }

  /** A last pass, and the end of the worker, are only seen once the client is closed. */
  ghost predicate LastAfterClose(s: State) {
    IsFinal(s.worker) ==> s.closed
  }

  /**
    * The worker begins a pass only for a full batch, the timer or a flush, or after Close; within a pass it
    * neither changes the kind of the pass nor leaves it except to rest: for good after the last pass, else to
    * sleep; and once stopped it stays so.
    */
  lemma {:induction false} WorkerPasses(c: Config, s: State, step: Step)
    requires Enabled(c, s, step) && !step.Crash?
    ensures var s1 := Do(c, s, step);
            && (!InPass(s.worker) && InPass(s1.worker) ==>
                  || (step.Look? && |s.queue| >= c.batchSize && !s1.worker.final)
                  || (step.StartPass? && !s1.worker.final)
                  || (step.StartLastPass? && s.closed && s1.worker.final))
            && (InPass(s.worker) && InPass(s1.worker) ==> s1.worker.final == s.worker.final)
            && (InPass(s.worker) && !InPass(s1.worker) ==> s1.worker == if s.worker.final then Stopped else Idle)
            && (s.worker.Stopped? ==> s1.worker.Stopped?)
            && (s.worker.Woken? && step.Look? && |s.queue| < c.batchSize ==> s1.worker.Idle?)
  {
    match step {
      case Post(who, _) =>
      case CountSent(who) =>
      case Remove(who, _) =>
      case CountFailed(who) =>
      case _ =>
    }
  }

  lemma {:induction false} ClosedStays(c: Config, s: State, step: Step)
    requires Enabled(c, s, step) && !step.Crash? && s.closed
    ensures Do(c, s, step).closed
  {}

  lemma {:induction false} LastAfterCloseStep(c: Config, s: State, step: Step)
    requires Enabled(c, s, step) && LastAfterClose(s)
    ensures LastAfterClose(Do(c, s, step))
  {
    if !step.Crash? {
      WorkerPasses(c, s, step);
      if s.closed {
        ClosedStays(c, s, step);
      } else {
        StaysOrRests(c, s, step);
      }
    }
  }

  lemma {:induction false} StaysOrRests(c: Config, s: State, step: Step)
    requires Enabled(c, s, step) && !step.Crash?
    ensures !InPass(s.worker) && !s.worker.Stopped? ==> !Do(c, s, step).worker.Stopped?
  {}

  /** In every reachable state, crashes included, the worker has stopped only if the client is closed. */
  lemma {:induction false} StopsOnlyAfterClose(c: Config, init: State, steps: seq<Step>)
    requires LastAfterClose(init) && CanRun(c, init, steps)
    ensures LastAfterClose(After(c, init, steps))
    decreases |steps|
  {
    if steps != [] {
      LastAfterCloseStep(c, init, steps[0]);
      StopsOnlyAfterClose(c, Do(c, init, steps[0]), steps[1..]);
    }
  }
}
