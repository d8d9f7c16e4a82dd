/** Safety of the pipeline over every interleaving. */
module PipelineLaws {
  import opened Bytes
  import opened Events
  import opened Outboxes
  import opened Pipeline

  // ----- Durability

  /** The IDs of the events in batches the server answered with a 2xx. */
  function AnsweredIds(s: State): set<Text> {
    set e | e in s.answered :: e.eventId
  }

  /** Past its answer, a batch is on record as answered. */
  ghost predicate AnswersRecorded(s: State) {
    forall who :: InFlight(s, who).Some? && (InFlight(s, who).value.Acked? || InFlight(s, who).value.Removing?) ==>
      forall e :: e in InFlight(s, who).value.batch ==> e in s.answered
  }

  /** None of the IDs is gone from the outbox without having been answered. */
  ghost predicate NothingLost(ids: set<Text>, s: State) {
    forall id :: id in ids ==> id in StoredIds(s.outbox) || id in AnsweredIds(s)
  }

  lemma {:induction false} WithSendSenders(s: State, mover: Who, send: Sending, who: Who)
    requires InFlight(s, mover).Some?
    ensures InFlight(WithSend(s, mover, send), who) == if who == mover then Some(send) else InFlight(s, who)
  {}

  lemma {:induction false} ConcludedSenders(s: State, mover: Who, acked: bool, persist: bool, who: Who)
    requires InFlight(s, mover).Some?
    ensures InFlight(Concluded(s, mover, acked, persist), who) == if who == mover then None else InFlight(s, who)
  {}

  /** A sender after a step: it was there before, or it is at the start of a batch. */
  lemma {:induction false} SendersStep(c: Config, s: State, step: Step, who: Who)
    requires Enabled(c, s, step) && !step.Post? && !step.CountSent? && !step.Remove? && !step.CountFailed?
    ensures var after := InFlight(Do(c, s, step), who);
            after == InFlight(s, who) || after.None? || after.value.Posting? || after.value.Failing?
  {
    if step.Prepare? || step.Append? || step.Push? || step.CountPush? || step.CheckClosed? || step.CountRefusal?
       || step.CountQueued? || step.Signal? {
      CallerSteps(c, s, step, who);
    } else {
      match who {
        case TheWorker =>
        case ACaller(i) =>
      }
    }
  }

  lemma {:induction false} CallerSteps(c: Config, s: State, step: Step, who: Who)
    requires Enabled(c, s, step)
    requires step.Prepare? || step.Append? || step.Push? || step.CountPush? || step.CheckClosed? || step.CountRefusal?
             || step.CountQueued? || step.Signal?
    ensures var after := InFlight(Do(c, s, step), who);
            after == InFlight(s, who) || after.None? || after.value.Posting? || after.value.Failing?
  {
    var i := step.i;
    var s1 := Do(c, s, step);
    if who == ACaller(i) {
      assert s1.callers[i].Sync? ==> step.Prepare?;
    } else {
      assert s1.worker == s.worker && |s1.callers| == |s.callers|;
      assert forall j :: 0 <= j < |s.callers| && j != i ==> s1.callers[j] == s.callers[j];
    }
  }

  /** Only an append or a removal touches the outbox, and answers are never forgotten. */
  lemma {:induction false} HistoryStep(c: Config, s: State, step: Step)
    requires Enabled(c, s, step)
    ensures var s1 := Do(c, s, step);
            && s.appended <= s1.appended && s.answered <= s1.answered
            && (!step.Append? && !step.Remove? ==> s1.outbox == s.outbox && s1.appended == s.appended)
            && (!step.Post? ==> s1.answered == s.answered)
  {}

  ghost predicate OnRecord(s: State, send: Sending) {
    send.Acked? || send.Removing? ==> forall e :: e in send.batch ==> e in s.answered
  }

  lemma {:induction false} WithSendRecorded(s: State, mover: Who, send: Sending)
    requires InFlight(s, mover).Some? && OnRecord(s, send)
    requires forall who :: who != mover && InFlight(s, who).Some? ==> OnRecord(s, InFlight(s, who).value)
    ensures AnswersRecorded(WithSend(s, mover, send))
  {
    var s1 := WithSend(s, mover, send);
    assert s1.answered == s.answered;
    forall who | InFlight(s1, who).Some?
      ensures OnRecord(s1, InFlight(s1, who).value)
    {
      WithSendSenders(s, mover, send, who);
    }
  }

  lemma {:induction false} ConcludedRecorded(s: State, mover: Who, acked: bool, persist: bool)
    requires InFlight(s, mover).Some? && AnswersRecorded(s)
    ensures AnswersRecorded(Concluded(s, mover, acked, persist))
  {
    var s1 := Concluded(s, mover, acked, persist);
    ConcludedFrame(s, mover, acked, persist);
    forall who | InFlight(s1, who).Some?
      ensures OnRecord(s1, InFlight(s1, who).value)
    {
      ConcludedSenders(s, mover, acked, persist, who);
    }
  }

  /** Answers and counters may grow and the outbox may change without disturbing the record. */
  lemma {:induction false} StillRecorded(s: State, s1: State)
    requires AnswersRecorded(s) && s1.worker == s.worker && s1.callers == s.callers && s.answered <= s1.answered
    ensures forall who :: InFlight(s1, who).Some? ==> OnRecord(s1, InFlight(s1, who).value)
    ensures AnswersRecorded(s1)
  {
    forall who | InFlight(s1, who).Some?
      ensures OnRecord(s1, InFlight(s1, who).value)
    {
      assert InFlight(s1, who) == InFlight(s, who);
    }
  }

  lemma {:induction false} AnswersRecordedSend(c: Config, s: State, step: Step)
    requires Enabled(c, s, step) && AnswersRecorded(s)
    requires step.Post? || step.CountSent? || step.Remove? || step.CountFailed?
    ensures AnswersRecorded(Do(c, s, step))
  {
    var send := InFlight(s, step.who).value;
    match step {
      case Post(who, Answered(rejected)) =>
        var s0 := s.(answered := s.answered + set e | e in send.batch);
        StillRecorded(s, s0);
        WithSendRecorded(s0, who, Acked(send.batch, rejected));
      case Post(who, Refused(retryable)) =>
        StillRecorded(s, s);
        WithSendRecorded(s, who, if retryable && send.attempt < c.retries
                                 then Posting(send.batch, send.attempt + 1)
                                 else Failing(send.batch, retryable));
      case CountSent(who) =>
        var s0 := s.(counters := s.counters.(sent := s.counters.sent + |send.batch|));
        StillRecorded(s, s0);
        WithSendRecorded(s0, who, Removing(send.batch, send.rejected));
      case Remove(who, works) =>
        var s0 := if c.durable && works then s.(outbox := Without(s.outbox, RemovableIds(send.batch))) else s;
        StillRecorded(s, s0);
        ConcludedRecorded(s0, who, true, send.rejected);
      case CountFailed(who) =>
        var s0 := s.(counters := s.counters.(failed := s.counters.failed + |send.batch|));
        StillRecorded(s, s0);
        ConcludedRecorded(s0, who, false, send.retryable);
    }
  }

  lemma {:induction false} AnswersRecordedStep(c: Config, s: State, step: Step)
    requires Enabled(c, s, step) && AnswersRecorded(s)
    ensures AnswersRecorded(Do(c, s, step))
  {
    if step.Post? || step.CountSent? || step.Remove? || step.CountFailed? {
      AnswersRecordedSend(c, s, step);
    } else {
      var s1 := Do(c, s, step);
      HistoryStep(c, s, step);
      forall who | InFlight(s1, who).Some? && (InFlight(s1, who).value.Acked? || InFlight(s1, who).value.Removing?)
        ensures forall e :: e in InFlight(s1, who).value.batch ==> e in s1.answered
      {
        SendersStep(c, s, step, who);
      }
    }
  }

  lemma {:induction false} AppendStores(c: Config, s: State, i: nat, works: bool)
    requires Enabled(c, s, Append(i, works))
    ensures StoredIds(DoAppend(c, s, i, works).outbox)
         == StoredIds(s.outbox) + if c.durable && works then {s.callers[i].event.eventId} else {}
  {
    var line := Record(s.callers[i].event);
    assert StoredIds(s.outbox + [line]) == StoredIds(s.outbox) + {line.event.eventId} by {
      assert line in s.outbox + [line];
    }
  }

  lemma {:induction false} ConcludedFrame(s: State, who: Who, acked: bool, persist: bool)
    requires InFlight(s, who).Some?
    ensures var s1 := Concluded(s, who, acked, persist);
            && s1.outbox == s.outbox && s1.appended == s.appended && s1.answered == s.answered
            && s1.queue == s.queue && s1.notify == s.notify && s1.counters == s.counters
            && (who.TheWorker? ==> s1.callers == s.callers && (WillLook(s.worker) ==> WillLook(s1.worker)))
            && (who.ACaller? ==> s1.worker == s.worker && s1.callers == s.callers[who.i := s1.callers[who.i]]
                                 && (s1.callers[who.i].SyncPersisting? || s1.callers[who.i].Returned?))
  {}

  lemma {:induction false} RemoveLosesNothing(c: Config, ids: set<Text>, s: State, who: Who, works: bool)
    requires Enabled(c, s, Remove(who, works)) && NothingLost(ids, s) && AnswersRecorded(s)
    ensures NothingLost(ids, DoRemove(c, s, who, works))
  {
    var send := InFlight(s, who).value;
    var gone := RemovableIds(send.batch);
    WithoutRemoves(s.outbox, gone);
    assert gone <= AnsweredIds(s);
    var left := if c.durable && works then s.(outbox := Without(s.outbox, gone)) else s;
    assert StoredIds(left.outbox) >= StoredIds(s.outbox) - gone;
    assert AnsweredIds(left) == AnsweredIds(s);
    assert NothingLost(ids, left);
    ConcludedFrame(left, who, true, send.rejected);
  }

  lemma {:induction false} NothingLostStep(c: Config, ids: set<Text>, s: State, step: Step)
    requires Enabled(c, s, step) && AnswersRecorded(s) && NothingLost(ids, s)
    ensures NothingLost(ids, Do(c, s, step))
  {
    HistoryStep(c, s, step);
    assert AnsweredIds(s) <= AnsweredIds(Do(c, s, step));
    match step {
      case Append(i, works) => AppendStores(c, s, i, works);
      case Remove(who, works) => RemoveLosesNothing(c, ids, s, who, works);
      case _ =>
    }
  }

  lemma {:induction false} AnswersRecordedRun(c: Config, s: State, steps: seq<Step>)
    requires CanRun(c, s, steps) && AnswersRecorded(s)
    ensures AnswersRecorded(After(c, s, steps))
    decreases |steps|
  {
    if steps != [] {
      AnswersRecordedStep(c, s, steps[0]);
      AnswersRecordedRun(c, Do(c, s, steps[0]), steps[1..]);
    }
  }

  lemma {:induction false} NothingLostRun(c: Config, ids: set<Text>, s: State, steps: seq<Step>)
    requires CanRun(c, s, steps) && AnswersRecorded(s) && NothingLost(ids, s)
    ensures NothingLost(ids, After(c, s, steps))
    decreases |steps|
  {
    if steps != [] {
      AnswersRecordedStep(c, s, steps[0]);
      NothingLostStep(c, ids, s, steps[0]);
      NothingLostRun(c, ids, Do(c, s, steps[0]), steps[1..]);
    }
  }

  /**
    * Durability. Take any run, any ID a record of the outbox has at some point of it, and whatever happens
    * afterwards -- evictions, full buffers, failed batches, removals by other goroutines, crashes and
    * restarts: the ID is still in the outbox, or it was in a batch the server answered with a 2xx.
    */
  lemma {:induction false} RecordsSurvive(c: Config, init: State, before: seq<Step>, afterwards: seq<Step>, id: Text)
    requires Init(c, init) && CanRun(c, init, before) && CanRun(c, After(c, init, before), afterwards)
    requires id in StoredIds(After(c, init, before).outbox)
    ensures var s := After(c, After(c, init, before), afterwards);
            id in StoredIds(s.outbox) || id in AnsweredIds(s)
  {
    AnswersRecordedRun(c, init, before);
    NothingLostRun(c, {id}, After(c, init, before), afterwards);
  }

  /** A sender whose batch holds the ID has its answer and may remove the ID without asking again. */
  ghost predicate PastAnswer(s: State, id: Text) {
    exists who :: HoldsAnswered(s, who, id)
  }

  ghost predicate HoldsAnswered(s: State, who: Who, id: Text) {
    InFlight(s, who).Some? && !InFlight(s, who).value.Posting? && !InFlight(s, who).value.Failing?
    && id in Ids(InFlight(s, who).value.batch)
  }

  /** The IDs of the batches a step has the server answer with a 2xx. */
  function AnsweredBy(c: Config, s: State, step: Step): set<Text>
    requires Enabled(c, s, step)
  {
    if step.Post? && step.reply.Answered? then Ids(InFlight(s, step.who).value.batch) else {}
  }

  /** The IDs of the batches the server answers with a 2xx during the steps, and not before. */
  ghost function AnsweredDuring(c: Config, s: State, steps: seq<Step>): set<Text>
    requires CanRun(c, s, steps)
    decreases |steps|
  {
    if steps == [] then {} else AnsweredBy(c, s, steps[0]) + AnsweredDuring(c, Do(c, s, steps[0]), steps[1..])
  }

  lemma {:induction false} PostStaysUnanswered(c: Config, s: State, mover: Who, reply: Reply, id: Text, who: Who)
    requires Enabled(c, s, Post(mover, reply)) && !HoldsAnswered(s, who, id)
    requires id !in AnsweredBy(c, s, Post(mover, reply))
    ensures !HoldsAnswered(DoPost(c, s, mover, reply), who, id)
  {
    var send := InFlight(s, mover).value;
    match reply {
      case Answered(rejected) =>
        WithSendSenders(s.(answered := s.answered + set e | e in send.batch), mover, Acked(send.batch, rejected), who);
      case Refused(retryable) =>
        WithSendSenders(s, mover, if retryable && send.attempt < c.retries
                                  then Posting(send.batch, send.attempt + 1)
                                  else Failing(send.batch, retryable), who);
    }
  }

  lemma {:induction false} CountStaysUnanswered(c: Config, s: State, mover: Who, id: Text, who: Who)
    requires Enabled(c, s, CountSent(mover)) && !HoldsAnswered(s, mover, id) && !HoldsAnswered(s, who, id)
    ensures !HoldsAnswered(DoCountSent(c, s, mover), who, id)
  {
    var send := InFlight(s, mover).value;
    WithSendSenders(s.(counters := s.counters.(sent := s.counters.sent + |send.batch|)),
                    mover, Removing(send.batch, send.rejected), who);
  }

  lemma {:induction false} EndStaysUnanswered(c: Config, s: State, step: Step, id: Text, who: Who)
    requires Enabled(c, s, step) && (step.Remove? || step.CountFailed?) && !HoldsAnswered(s, who, id)
    ensures !HoldsAnswered(Do(c, s, step), who, id)
  {
    var send := InFlight(s, step.who).value;
    match step {
      case Remove(mover, works) =>
        ConcludedSenders(if c.durable && works then s.(outbox := Without(s.outbox, RemovableIds(send.batch))) else s,
                         mover, true, send.rejected, who);
      case CountFailed(mover) =>
        ConcludedSenders(s.(counters := s.counters.(failed := s.counters.failed + |send.batch|)),
                         mover, false, send.retryable, who);
    }
  }

  lemma {:induction false} StaysUnanswered(c: Config, s: State, step: Step, id: Text)
    requires Enabled(c, s, step) && !PastAnswer(s, id) && id !in AnsweredBy(c, s, step)
    ensures !PastAnswer(Do(c, s, step), id)
  {
    forall who
      ensures !HoldsAnswered(Do(c, s, step), who, id)
    {
      assert !HoldsAnswered(s, who, id);
      if step.Post? {
        PostStaysUnanswered(c, s, step.who, step.reply, id, who);
      } else if step.CountSent? {
        assert !HoldsAnswered(s, step.who, id);
        CountStaysUnanswered(c, s, step.who, id, who);
      } else if step.Remove? || step.CountFailed? {
        EndStaysUnanswered(c, s, step, id, who);
      } else {
        SendersStep(c, s, step, who);
      }
    }
  }

  /** Until a batch with the ID is answered, no step takes its record away. */
  lemma {:induction false} RecordStays(c: Config, s: State, step: Step, id: Text)
    requires Enabled(c, s, step) && !PastAnswer(s, id) && id in StoredIds(s.outbox)
    ensures id in StoredIds(Do(c, s, step).outbox)
  {
    HistoryStep(c, s, step);
    match step {
      case Append(i, works) => AppendStores(c, s, i, works);
      case Remove(who, works) =>
        var send := InFlight(s, who).value;
        assert !HoldsAnswered(s, who, id);
        WithoutRemoves(s.outbox, RemovableIds(send.batch));
        ConcludedFrame(if c.durable && works then s.(outbox := Without(s.outbox, RemovableIds(send.batch))) else s,
                       who, true, send.rejected);
      case _ =>
    }
  }

  /**
    * Durability, counting only answers from now on: from any state in which no sender is past its answer for
    * the ID, the ID stays in the outbox until a batch with it is answered with a 2xx once more.
    */
  lemma {:induction false} RecordsAwaitAnswer(c: Config, s: State, steps: seq<Step>, id: Text)
    requires CanRun(c, s, steps) && id in StoredIds(s.outbox) && !PastAnswer(s, id)
    ensures id in StoredIds(After(c, s, steps).outbox) || id in AnsweredDuring(c, s, steps)
    decreases |steps|
  {
    if steps != [] && id !in AnsweredBy(c, s, steps[0]) {
      RecordStays(c, s, steps[0], id);
      StaysUnanswered(c, s, steps[0], id);
      RecordsAwaitAnswer(c, Do(c, s, steps[0]), steps[1..], id);
    }
  }

  ghost predicate LostBy(c: Config, s: State, steps: seq<Step>, id: Text) {
    CanRun(c, s, steps) && id !in StoredIds(After(c, s, steps).outbox) && id !in AnsweredDuring(c, s, steps)
  }

  lemma {:induction false} PendingRemovalTakes(c: Config, s: State, who: Who, id: Text)
    requires c.durable && id != [] && InFlight(s, who).Some? && InFlight(s, who).value.Removing?
    requires id in Ids(InFlight(s, who).value.batch)
    ensures LostBy(c, s, [Remove(who, true)], id)
  {
    var step := Remove(who, true);
    var send := InFlight(s, who).value;
    var left := s.(outbox := Without(s.outbox, RemovableIds(send.batch)));
    OneStep(c, s, step);
    WithoutRemoves(s.outbox, RemovableIds(send.batch));
    ConcludedFrame(left, who, true, send.rejected);
    assert [step][1..] == [];
    assert AnsweredDuring(c, s, [step]) == {};
  }

  /**
    * And exactly then: some continuation loses a stored ID without a new answer if and only if a sender is past
    * its answer for it at that moment.
    */
  lemma {:induction false} LossPossibleIff(c: Config, s: State, id: Text)
    requires c.durable && id != [] && id in StoredIds(s.outbox)
    ensures (exists steps :: LostBy(c, s, steps, id)) <==> PastAnswer(s, id)
  {
    if PastAnswer(s, id) {
      var who :| HoldsAnswered(s, who, id);
      if InFlight(s, who).value.Removing? {
        PendingRemovalTakes(c, s, who, id);
      } else {
        AckedRemovalTakes(c, s, who, id);
      }
    } else {
      forall steps | CanRun(c, s, steps)
        ensures !LostBy(c, s, steps, id)
      {
        RecordsAwaitAnswer(c, s, steps, id);
      }
    }
  }

  lemma {:induction false} AckedRemovalTakes(c: Config, s: State, who: Who, id: Text)
    requires c.durable && id != [] && InFlight(s, who).Some? && InFlight(s, who).value.Acked?
    requires id in Ids(InFlight(s, who).value.batch)
    ensures LostBy(c, s, [CountSent(who), Remove(who, true)], id)
  {
    var steps := [CountSent(who), Remove(who, true)];
    var send := InFlight(s, who).value;
    var s1 := Do(c, s, steps[0]);
    WithSendSenders(s.(counters := s.counters.(sent := s.counters.sent + |send.batch|)),
                    who, Removing(send.batch, send.rejected), who);
    PendingRemovalTakes(c, s1, who, id);
    assert steps[1..] == [Remove(who, true)];
  }

  /**
    * In particular an event whose append reached the disk is never lost: its ID is in the outbox or has been
    * answered with a 2xx, and answered since the append unless some sender was already past its answer for it.
    */
  lemma {:induction false} AppendedEventsSurvive(
    c: Config, init: State, before: seq<Step>, i: nat, afterwards: seq<Step>)
    requires Init(c, init) && CanRun(c, init, before) && c.durable
    requires Enabled(c, After(c, init, before), Append(i, true))
    requires CanRun(c, Do(c, After(c, init, before), Append(i, true)), afterwards)
    ensures var s := After(c, init, before);
            var s0 := Do(c, s, Append(i, true));
            var s1 := After(c, s0, afterwards);
            var id := s.callers[i].event.eventId;
            && (id in StoredIds(s1.outbox) || id in AnsweredIds(s1))
            && (!PastAnswer(s, id) ==> id in StoredIds(s1.outbox) || id in AnsweredDuring(c, s0, afterwards))
  {
    var s := After(c, init, before);
    var s0 := Do(c, s, Append(i, true));
    var id := s.callers[i].event.eventId;
    AnswersRecordedRun(c, init, before);
    AnswersRecordedStep(c, s, Append(i, true));
    AppendStores(c, s, i, true);
    NothingLostRun(c, {id}, s0, afterwards);
    if !PastAnswer(s, id) {
      StaysUnanswered(c, s, Append(i, true), id);
      RecordsAwaitAnswer(c, s0, afterwards, id);
    }
  }

  // ----- No lost wake-up

  predicate OwesSignal(caller: Caller) {
    (caller.Counting? && caller.queued) || caller.Bumping? || caller.Signalling?
  }

  ghost predicate SignalOwed(s: State) {
    exists i :: 0 <= i < |s.callers| && OwesSignal(s.callers[i])
  }

  /** The worker will look at the buffer again without being woken. */
  predicate WillLook(worker: Worker) {
    worker.Woken? || worker.Draining? || (worker.Delivering? && worker.phase.QueuePhase?)
  }

  ghost predicate WakeUpSafe(c: Config, s: State) {
    |s.queue| >= c.batchSize ==> WillLook(s.worker) || s.notify || SignalOwed(s)
  }

  lemma {:induction false} OwedAfter(s: State, s1: State, i: nat, caller: Caller)
    requires i < |s.callers| && s1.callers == s.callers[i := caller] && SignalOwed(s)
    ensures SignalOwed(s1) || (OwesSignal(s.callers[i]) && !OwesSignal(caller))
  {
    var j :| 0 <= j < |s.callers| && OwesSignal(s.callers[j]);
    if j != i {
      assert OwesSignal(s1.callers[j]);
    } else if OwesSignal(caller) {
      assert OwesSignal(s1.callers[i]);
    }
  }

  lemma {:induction false} WakeUpSafePush(c: Config, s: State, i: nat)
    requires Enabled(c, s, Step.Push(i)) && WakeUpSafe(c, s)
    ensures WakeUpSafe(c, DoPush(c, s, i))
  {
    var s1 := DoPush(c, s, i);
    if s1.callers[i].queued {
      assert OwesSignal(s1.callers[i]);
    } else {
      assert s1.queue == s.queue;
      if SignalOwed(s) {
        OwedAfter(s, s1, i, s1.callers[i]);
      }
    }
  }

  lemma {:induction false} WakeUpSafeCaller(c: Config, s: State, step: Step)
    requires Enabled(c, s, step) && WakeUpSafe(c, s)
    requires step.CheckClosed? || step.Prepare? || step.CountRefusal? || step.Append? || step.CountPush?
             || step.CountQueued? || step.Signal?
    ensures WakeUpSafe(c, Do(c, s, step))
  {
    var s1 := Do(c, s, step);
    if SignalOwed(s) {
      OwedAfter(s, s1, step.i, s1.callers[step.i]);
    }
  }

  lemma {:induction false} SenderFrame(c: Config, s: State, step: Step)
    requires Enabled(c, s, step) && (step.Post? || step.CountSent? || step.Remove? || step.CountFailed?)
    ensures var s1 := Do(c, s, step);
            var who := step.who;
            && s1.queue == s.queue && s1.notify == s.notify
            && (who.TheWorker? ==> s1.callers == s.callers && (WillLook(s.worker) ==> WillLook(s1.worker)))
            && (who.ACaller? ==> s1.worker == s.worker && s1.callers == s.callers[who.i := s1.callers[who.i]])
  {
    match step {
      case Remove(who, works) =>
        var send := InFlight(s, who).value;
        ConcludedFrame(if c.durable && works then s.(outbox := Without(s.outbox, RemovableIds(send.batch))) else s,
                       who, true, send.rejected);
      case CountFailed(who) =>
        var send := InFlight(s, who).value;
        ConcludedFrame(s.(counters := s.counters.(failed := s.counters.failed + |send.batch|)), who, false,
                       send.retryable);
      case _ =>
    }
  }

  lemma {:induction false} WakeUpSafeSender(c: Config, s: State, step: Step)
    requires Enabled(c, s, step) && WakeUpSafe(c, s)
    requires step.Post? || step.CountSent? || step.Remove? || step.CountFailed?
    ensures WakeUpSafe(c, Do(c, s, step))
  {
    var s1 := Do(c, s, step);
    SenderFrame(c, s, step);
    if step.who.ACaller? && SignalOwed(s) {
      OwedAfter(s, s1, step.who.i, s1.callers[step.who.i]);
    }
  }

  lemma {:induction false} WakeUpSafeWorker(c: Config, s: State, step: Step)
    requires Normalized(c) && Enabled(c, s, step) && WakeUpSafe(c, s)
    requires step.TakeToken? || step.Look? || step.StartPass? || step.StartLastPass? || step.Drain? || step.Peek?
    ensures WakeUpSafe(c, Do(c, s, step))
  {
    var s1 := Do(c, s, step);
    assert s1.callers == s.callers;
    assert |s1.queue| >= c.batchSize ==> WillLook(s1.worker) || (s1.notify == s.notify && s1.queue == s.queue);
  }

  lemma {:induction false} WakeUpSafeStep(c: Config, s: State, step: Step)
    requires Normalized(c) && Enabled(c, s, step) && WakeUpSafe(c, s)
    ensures WakeUpSafe(c, Do(c, s, step))
  {
    match step {
      case Call(_) =>
        if SignalOwed(s) {
          var i :| 0 <= i < |s.callers| && OwesSignal(s.callers[i]);
          assert OwesSignal(Do(c, s, step).callers[i]);
        }
      case Push(i) => WakeUpSafePush(c, s, i);
      case Close =>
      case Crash =>
      case Post(_, _) => WakeUpSafeSender(c, s, step);
      case CountSent(_) => WakeUpSafeSender(c, s, step);
      case Remove(_, _) => WakeUpSafeSender(c, s, step);
      case CountFailed(_) => WakeUpSafeSender(c, s, step);
      case TakeToken => WakeUpSafeWorker(c, s, step);
      case Look => WakeUpSafeWorker(c, s, step);
      case StartPass => WakeUpSafeWorker(c, s, step);
      case StartLastPass => WakeUpSafeWorker(c, s, step);
      case Drain => WakeUpSafeWorker(c, s, step);
      case Peek(_) => WakeUpSafeWorker(c, s, step);
      case _ => WakeUpSafeCaller(c, s, step);
    }
  }

  lemma {:induction false} WakeUpSafeRun(c: Config, s: State, steps: seq<Step>)
    requires Normalized(c) && CanRun(c, s, steps) && WakeUpSafe(c, s)
    ensures WakeUpSafe(c, After(c, s, steps))
    decreases |steps|
  {
    if steps != [] {
      WakeUpSafeStep(c, s, steps[0]);
      WakeUpSafeRun(c, Do(c, s, steps[0]), steps[1..]);
    }
  }

  /**
    * No lost wake-up: in every reachable state in which the worker sleeps although a full batch is waiting,
    * the token is in the channel or some goroutine has pushed and is still going to signal.
    */
  lemma {:induction false} NoLostWakeUp(c: Config, init: State, steps: seq<Step>)
    requires Normalized(c) && Init(c, init) && CanRun(c, init, steps)
    ensures var s := After(c, init, steps);
            s.worker.Idle? && |s.queue| >= c.batchSize ==> s.notify || SignalOwed(s)
  {
    WakeUpSafeRun(c, init, steps);
  }
}
