/**
  * The worker's sequential loops are one of the interleavings: a flush computed by Delivery is a run of the
  * pipeline in which only the worker moves, so what holds over all runs holds for it.
  */
module Refinement {
  import opened Events
  import opened EventQueues
  import opened Outboxes
  import D = Delivery
  import P = Pipeline

  /** The same buffer, outbox, settings and counts; `sent0` and `failed0` are counts from before. */
  ghost predicate Match(c: P.Config, config: D.Config, s: P.State, w: D.World, sent0: int, failed0: int) {
    && c.batchSize == config.batchSize
    && c.retries == config.retryAttempts
    && c.configured == D.Configured(config)
    && c.durable == w.outbox.Some?
    && s.queue == w.queue
    && s.outbox == D.Backlog(w)
    && s.counters.sent == sent0 + w.stats.sentEvents
    && s.counters.failed == failed0 + w.stats.failedEvents
  }

  /** A step of the worker's own. */
  predicate IsWorkers(step: P.Step) {
    match step
    case TakeToken => true
    case Look => true
    case StartPass => true
    case StartLastPass => true
    case Drain => true
    case Peek(_) => true
    case Post(who, _) => who.TheWorker?
    case CountSent(who) => who.TheWorker?
    case Remove(who, _) => who.TheWorker?
    case CountFailed(who) => who.TheWorker?
    case _ => false
  }

  ghost predicate AllWorkers(steps: seq<P.Step>) {
    forall i :: 0 <= i < |steps| ==> IsWorkers(steps[i])
  }

  /** The worker moved from one state to the other by these steps, all of them its own, and nobody else did. */
  ghost predicate WorkerRan(c: P.Config, s: P.State, steps: seq<P.Step>, s1: P.State) {
    && P.CanRun(c, s, steps)
    && P.After(c, s, steps) == s1
    && AllWorkers(steps)
    && s1.callers == s.callers && s1.notify == s.notify && s1.closed == s.closed
  }

  lemma {:induction false} WorkerRanThen(
    c: P.Config, s: P.State, a: seq<P.Step>, m: P.State, b: seq<P.Step>, s1: P.State)
    requires WorkerRan(c, s, a, m) && WorkerRan(c, m, b, s1)
    ensures WorkerRan(c, s, a + b, s1)
  {
    P.RunConcat(c, s, a, b);
  }

  function Answer(reply: D.Reply): P.Reply {
    if reply.Accepted? then P.Answered(reply.response.rejected > 0) else P.Refused(D.IsRetryable(D.PostFailed(reply)))
  }

  /** The state after the retry loop: acknowledged or about to be counted as failed. */
  ghost predicate Posted(s: P.State, s1: P.State, batch: seq<Event>, reply: D.Reply) {
    && s.worker.Delivering? && s1.worker.Delivering?
    && s1 == s.(worker := s1.worker, answered := s1.answered)
    && s1.worker == s.worker.(send := s1.worker.send)
    && s1.worker.send ==
         (if reply.Accepted? then P.Acked(batch, reply.response.rejected > 0)
          else P.Failing(batch, D.IsRetryable(D.PostFailed(reply))))
  }

  lemma {:induction false} PostLoopRuns(
    c: P.Config, s: P.State, w: D.World, batch: seq<Event>, attempt: nat, posts: seq<D.Reply>)
    returns (steps: seq<P.Step>)
    requires attempt <= c.retries && s.worker.Delivering? && s.worker.send == P.Posting(batch, attempt)
    requires !D.PostLoop(c.retries, w, attempt, posts).2
    ensures var all := D.PostLoop(c.retries, w, attempt, posts).1;
            && all != []
            && P.CanRun(c, s, steps)
            && AllWorkers(steps)
            && Posted(s, P.After(c, s, steps), batch, all[|all| - 1])
    decreases c.retries - attempt
  {
    var reply := w.replies[0];
    var step := P.Post(P.TheWorker, Answer(reply));
    P.OneStep(c, s, step);
    var s1 := P.Do(c, s, step);
    steps := [step];
    if !D.EndsLoop(reply, attempt, c.retries) {
      var w1 := w.(replies := w.replies[1..], sleptMs := w.sleptMs + (attempt + 1) * 50);
      var rest := PostLoopRuns(c, s1, w1, batch, attempt + 1, posts + [reply]);
      P.RunConcat(c, s, [step], rest);
      steps := [step] + rest;
    }
  }

  /** The worker after its batch. */
  function WorkerAfter(worker: P.Worker, acked: bool): P.Worker
    requires worker.Delivering?
  {
    match worker.phase
    case QueuePhase(failed) => P.Draining(worker.final, failed || !acked)
    case OutboxPhase => if acked then P.Peeking(worker.final) else P.Resting(worker.final)
  }

  lemma {:induction false} FailRuns(c: P.Config, s: P.State, batch: seq<Event>, retryable: bool)
    returns (steps: seq<P.Step>)
    requires s.worker.Delivering? && s.worker.send == P.Failing(batch, retryable)
    ensures WorkerRan(c, s, steps, FailedState(s, batch))
  {
    steps := [P.CountFailed(P.TheWorker)];
    P.OneStep(c, s, steps[0]);
  }

  lemma {:induction false} AckRuns(c: P.Config, s: P.State, batch: seq<Event>, rejected: bool, works: bool)
    returns (steps: seq<P.Step>)
    requires s.worker.Delivering? && s.worker.send == P.Acked(batch, rejected)
    ensures WorkerRan(c, s, steps, AckedState(c, s, batch, works))
  {
    var count, remove := P.CountSent(P.TheWorker), P.Remove(P.TheWorker, works);
    P.OneStep(c, s, count);
    P.OneStep(c, P.Do(c, s, count), remove);
    P.RunConcat(c, s, [count], [remove]);
    steps := [count] + [remove];
  }

  function AckedState(c: P.Config, s: P.State, batch: seq<Event>, works: bool): P.State
    requires s.worker.Delivering?
  {
    s.(worker := WorkerAfter(s.worker, true),
       counters := s.counters.(sent := s.counters.sent + |batch|),
       outbox := if c.durable && works then Without(s.outbox, RemovableIds(batch)) else s.outbox)
  }

  function FailedState(s: P.State, batch: seq<Event>): P.State
    requires s.worker.Delivering?
  {
    s.(worker := WorkerAfter(s.worker, false), counters := s.counters.(failed := s.counters.failed + |batch|))
  }

  lemma {:induction false} AckMatches(
    c: P.Config, config: D.Config, s: P.State, w: D.World, batch: seq<Event>, posts: seq<D.Reply>,
    sent0: int, failed0: int)
    requires Match(c, config, s, w, sent0, failed0) && s.worker.Delivering?
    requires posts != [] && posts[|posts| - 1].Accepted?
    ensures Match(c, config, AckedState(c, s, batch, !D.DiskFails(w)), D.Concluded(w, batch, posts, false).0,
                  sent0, failed0)
  {
    WithoutNone(s.outbox);
  }

  lemma {:induction false} FailMatches(
    c: P.Config, config: D.Config, s: P.State, w: D.World, batch: seq<Event>, posts: seq<D.Reply>,
    sent0: int, failed0: int)
    requires Match(c, config, s, w, sent0, failed0) && s.worker.Delivering?
    ensures Match(c, config, FailedState(s, batch), D.BatchFailed(w, batch, posts), sent0, failed0)
  {}

  /** What follows the retry loop: counting and removing, or counting alone. */
  lemma {:induction false} ConclusionRuns(
    c: P.Config, config: D.Config, m: P.State, w: D.World, batch: seq<Event>, posts: seq<D.Reply>,
    sent0: int, failed0: int)
    returns (steps: seq<P.Step>, s1: P.State)
    requires Match(c, config, m, w, sent0, failed0) && posts != [] && Posted(m, m, batch, posts[|posts| - 1])
    ensures var (w1, outcome) := D.Concluded(w, batch, posts, false);
            && WorkerRan(c, m, steps, s1)
            && Match(c, config, s1, w1, sent0, failed0)
            && s1.worker == WorkerAfter(m.worker, outcome.Done?)
  {
    var reply := posts[|posts| - 1];
    if reply.Accepted? {
      steps := AckRuns(c, m, batch, reply.response.rejected > 0, !D.DiskFails(w));
      s1 := AckedState(c, m, batch, !D.DiskFails(w));
      AckMatches(c, config, m, w, batch, posts, sent0, failed0);
    } else {
      steps := FailRuns(c, m, batch, D.IsRetryable(D.PostFailed(reply)));
      s1 := FailedState(m, batch);
      FailMatches(c, config, m, w, batch, posts, sent0, failed0);
    }
  }

  lemma {:induction false} PostedBatchRuns(
    c: P.Config, config: D.Config, s: P.State, w: D.World, batch: seq<Event>, sent0: int, failed0: int)
    returns (steps: seq<P.Step>, s1: P.State)
    requires Match(c, config, s, w, sent0, failed0)
    requires s.worker.Delivering? && s.worker.send == P.Posting(batch, 0)
    requires !D.PostLoop(config.retryAttempts, w, 0, []).2
    ensures var (w0, posts, _) := D.PostLoop(config.retryAttempts, w, 0, []);
            && posts != []
            && var (w1, outcome) := D.Concluded(w0, batch, posts, false);
               && WorkerRan(c, s, steps, s1)
               && Match(c, config, s1, w1, sent0, failed0)
               && s1.worker == WorkerAfter(s.worker, outcome.Done?)
  {
    D.PostLoopFrame(config.retryAttempts, w, 0, []);
    var (w0, posts, cut) := D.PostLoop(config.retryAttempts, w, 0, []);
    var posting := PostLoopRuns(c, s, w, batch, 0, []);
    var m := P.After(c, s, posting);
    assert Match(c, config, m, w0, sent0, failed0);
    var rest;
    rest, s1 := ConclusionRuns(c, config, m, w0, batch, posts, sent0, failed0);
    WorkerRanThen(c, s, posting, m, rest, s1);
    steps := posting + rest;
  }

  /** A batch sent by Delivery is a stretch of worker steps with the same result. */
  lemma {:induction false} BatchRuns(
    c: P.Config, config: D.Config, s: P.State, w: D.World, batch: seq<Event>, sent0: int, failed0: int)
    returns (steps: seq<P.Step>, s1: P.State)
    requires Match(c, config, s, w, sent0, failed0) && batch != []
    requires s.worker.Delivering? && s.worker.send == P.Started(c, batch)
    requires !D.SendBatch(config, w, batch, false).1.Cut?
    ensures var (w1, outcome) := D.SendBatch(config, w, batch, false);
            && WorkerRan(c, s, steps, s1)
            && Match(c, config, s1, w1, sent0, failed0)
            && s1.worker == WorkerAfter(s.worker, outcome.Done?)
  {
    if c.configured {
      steps, s1 := PostedBatchRuns(c, config, s, w, batch, sent0, failed0);
    } else {
      steps := FailRuns(c, s, batch, true);
      s1 := FailedState(s, batch);
      FailMatches(c, config, s, w, batch, [], sent0, failed0);
    }
  }

  /** One round of the first loop: a drain and the batch it takes. */
  lemma {:induction false} DrainRoundRuns(
    c: P.Config, config: D.Config, s: P.State, w: D.World, sent0: int, failed0: int)
    returns (steps: seq<P.Step>, s1: P.State)
    requires Match(c, config, s, w, sent0, failed0) && s.worker.Draining? && w.queue != []
    requires var n := Taken(w.queue, config.batchSize);
             !D.SendBatch(config, w.(queue := w.queue[n..]), w.queue[..n], false).1.Cut?
    ensures var n := Taken(w.queue, config.batchSize);
            var (w1, outcome) := D.SendBatch(config, w.(queue := w.queue[n..]), w.queue[..n], false);
            && WorkerRan(c, s, steps, s1)
            && Match(c, config, s1, w1, sent0, failed0)
            && s1.worker == P.Draining(s.worker.final, s.worker.failed || !outcome.Done?)
  {
    P.OneStep(c, s, P.Step.Drain);
    var m := P.Do(c, s, P.Step.Drain);
    var n := Taken(w.queue, config.batchSize);
    var batch;
    batch, s1 := BatchRuns(c, config, m, w.(queue := w.queue[n..]), w.queue[..n], sent0, failed0);
    WorkerRanThen(c, s, [P.Step.Drain], m, batch, s1);
    steps := [P.Step.Drain] + batch;
  }

  lemma {:induction false} DrainQueueRuns(
    c: P.Config, config: D.Config, s: P.State, w: D.World, first: D.Outcome, sent0: int, failed0: int)
    returns (steps: seq<P.Step>, s1: P.State)
    requires Match(c, config, s, w, sent0, failed0) && !first.Cut?
    requires s.worker.Draining? && s.worker.failed == !first.Done?
    requires !D.DrainQueue(config, w, first).1.Cut?
    ensures var (w1, outcome) := D.DrainQueue(config, w, first);
            && WorkerRan(c, s, steps, s1)
            && Match(c, config, s1, w1, sent0, failed0)
            && s1.worker == if outcome.Done? then P.Peeking(s.worker.final) else P.Resting(s.worker.final)
    decreases |w.queue|
  {
    if w.queue == [] {
      P.OneStep(c, s, P.Step.Drain);
      steps, s1 := [P.Step.Drain], P.Do(c, s, P.Step.Drain);
    } else {
      var n := Taken(w.queue, config.batchSize);
      var w0 := w.(queue := w.queue[n..]);
      D.SendBatchFrame(config, w0, w.queue[..n], false);
      var (w1, outcome) := D.SendBatch(config, w0, w.queue[..n], false);
      var round, m := DrainRoundRuns(c, config, s, w, sent0, failed0);
      var rest;
      rest, s1 := DrainQueueRuns(c, config, m, w1, if first.Done? then outcome else first, sent0, failed0);
      WorkerRanThen(c, s, round, m, rest, s1);
      steps := round + rest;
    }
  }

  lemma {:induction false} DrainOutboxRuns(
    c: P.Config, config: D.Config, s: P.State, w: D.World, sent0: int, failed0: int)
    returns (steps: seq<P.Step>, s1: P.State)
    requires Match(c, config, s, w, sent0, failed0) && s.worker.Peeking?
    requires !D.DrainOutbox(config, w).1.Cut?
    ensures && WorkerRan(c, s, steps, s1)
            && Match(c, config, s1, D.DrainOutbox(config, w).0, sent0, failed0)
            && s1.worker == P.Resting(s.worker.final)
    decreases |w.replies|
  {
    var peek := P.Peek(!D.DiskFails(w));
    P.OneStep(c, s, peek);
    var m := P.Do(c, s, peek);
    var events := Peeked(s.outbox, c.batchSize);
    if w.outbox.None? || D.DiskFails(w) || events == [] {
      steps, s1 := [peek], m;
    } else {
      var w0 := D.DiskUsed(w);
      D.SendBatchFrame(config, w0, events, false);
      var (w1, outcome) := D.SendBatch(config, w0, events, false);
      var batch, m1 := BatchRuns(c, config, m, w0, events, sent0, failed0);
      WorkerRanThen(c, s, [peek], m, batch, m1);
      if outcome.Done? {
        var rest, last := DrainOutboxRuns(c, config, m1, w1, sent0, failed0);
        WorkerRanThen(c, s, [peek] + batch, m1, rest, last);
        steps, s1 := [peek] + batch + rest, last;
      } else {
        steps, s1 := [peek] + batch, m1;
      }
    }
  }

  /**
    * A whole flush: if the sequential `sendQueued` runs to its end, the pipeline's worker, starting a pass in
    * a matching state, can reach a state with the same buffer, outbox and counters and rest there, while no
    * other goroutine moves.
    */
  lemma {:induction false} FlushIsARun(
    c: P.Config, config: D.Config, s: P.State, w: D.World, sent0: int, failed0: int)
    requires Match(c, config, s, w, sent0, failed0) && s.worker.Idle?
    requires !D.SendQueued(config, w).1.Cut?
    ensures exists steps, s1 ::
              && WorkerRan(c, s, steps, s1)
              && Match(c, config, s1, D.SendQueued(config, w).0, sent0, failed0)
              && s1.worker.Idle?
  {
    P.OneStep(c, s, P.StartPass);
    var m := P.Do(c, s, P.StartPass);
    var queue, m1 := DrainQueueRuns(c, config, m, w, D.Done, sent0, failed0);
    WorkerRanThen(c, s, [P.StartPass], m, queue, m1);
    var (w1, outcome) := D.DrainQueue(config, w, D.Done);
    if outcome.Done? {
      var rest, last := DrainOutboxRuns(c, config, m1, w1, sent0, failed0);
      WorkerRanThen(c, s, [P.StartPass] + queue, m1, rest, last);
    }
  }
}
