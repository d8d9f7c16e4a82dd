/** How often an event can be delivered, over every interleaving, crashes and failing disks included. */
module Duplicates {
  import opened Bytes
  import opened Events
  import opened Seqs
  import opened EventQueues
  import opened Outboxes
  import opened Pipeline
  import opened PipelineLaws

  // ----- What a run does with an ID

  function One(yes: bool): int {
    if yes then 1 else 0
  }

  /** The batches with the ID that the server answers with a 2xx during the steps. */
  ghost function Deliveries(c: Config, s: State, steps: seq<Step>, id: Text): int
    requires CanRun(c, s, steps)
    decreases |steps|
  {
    if steps == [] then 0
    else One(id in AnsweredBy(c, s, steps[0])) + Deliveries(c, Do(c, s, steps[0]), steps[1..], id)
  }

  predicate Prepares(step: Step, id: Text) {
    step.Prepare? && step.result.Some? && step.result.value.eventId == id
  }

  /** The calls that prepare an event with the ID. */
  function CallsWith(steps: seq<Step>, id: Text): int {
    if steps == [] then 0 else One(Prepares(steps[0], id)) + CallsWith(steps[1..], id)
  }

  /** A crash, or a removal by the worker that the disk fails. */
  predicate IsMishap(step: Step) {
    step.Crash? || (step.Remove? && step.who.TheWorker? && !step.works)
  }

  function Mishaps(steps: seq<Step>): int {
    if steps == [] then 0 else One(IsMishap(steps[0])) + Mishaps(steps[1..])
  }

  // ----- What may still be delivered

  function Has(id: Text): Event -> int {
    (e: Event) => One(e.eventId == id)
  }

  function SendOwes(send: Sending, id: Text): int {
    One(send.Posting? && id in Ids(send.batch))
  }

  /** A caller on its way into buffer and outbox, or sending and perhaps persisting afterwards. */
  function CallerOwes(caller: Caller, id: Text): int {
    match caller
    case Persisting(e) => 2 * Has(id)(e)
    case Pushing(e) => Has(id)(e)
    case Sync(e, send) => SendOwes(send, id) + Has(id)(e)
    case SyncPersisting(e) => Has(id)(e)
    case _ => 0
  }

  function Owes(id: Text): Caller -> int {
    (caller: Caller) => CallerOwes(caller, id)
  }

  /** The batch the worker took from the buffer. */
  function BatchOwes(worker: Worker, id: Text): int {
    if worker.Delivering? && worker.phase.QueuePhase? then SendOwes(worker.send, id) else 0
  }

  predicate FromOutbox(worker: Worker, id: Text) {
    worker.Delivering? && worker.phase.OutboxPhase? && id in Ids(worker.send.batch)
  }

  /** The record, stored or not, together with the batch the worker read it into. */
  function RecordOwes(worker: Worker, stored: bool, id: Text): int {
    if FromOutbox(worker, id) then One(worker.send.Posting? || worker.send.Failing?) else One(stored)
  }

  predicate Stored(c: Config, s: State, id: Text) {
    c.durable && id in StoredIds(s.outbox)
  }

  function Owed(c: Config, s: State, id: Text): int {
    SumOf(s.queue, Has(id))
    + SumOf(s.callers, Owes(id))
    + BatchOwes(s.worker, id)
    + RecordOwes(s.worker, Stored(c, s, id), id)
  }

  /** What a step may add. */
  function Grant(step: Step, id: Text): int {
    2 * One(Prepares(step, id)) + One(IsMishap(step))
  }

  /** The step delivers at most what it takes off what is owed, and adds at most its grant. */
  ghost predicate Covered(c: Config, s: State, step: Step, id: Text)
    requires Enabled(c, s, step)
  {
    Spends(c, s, Do(c, s, step), id, One(id in AnsweredBy(c, s, step)), Grant(step, id))
  }

  ghost predicate Spends(c: Config, s: State, s1: State, id: Text, delivered: int, granted: int) {
    Owed(c, s1, id) + delivered <= Owed(c, s, id) + granted
  }

  lemma {:induction false} QueueOwesNatural(q: seq<Event>, id: Text)
    ensures SumOf(q, Has(id)) >= One(id in Ids(q))
  {
    if q != [] {
      QueueOwesNatural(q[..|q| - 1], id);
      assert q == q[..|q| - 1] + [q[|q| - 1]];
    }
  }

  lemma {:induction false} CallersOweNatural(callers: seq<Caller>, id: Text)
    ensures SumOf(callers, Owes(id)) >= 0
  {
    if callers != [] {
      CallersOweNatural(callers[..|callers| - 1], id);
    }
  }

  lemma {:induction false} PushOwes(q: seq<Event>, capacity: nat, e: Event, id: Text)
    ensures SumOf(Pushed(q, capacity, e).0, Has(id)) <= SumOf(q, Has(id)) + Has(id)(e)
  {
    if |q| < capacity {
      SumSnoc(q, e, Has(id));
    } else if Victim(q) >= 0 {
      SumReplaced(q, Victim(q), e, Has(id));
    }
  }

  // ----- Step by step

  /** Only one caller has moved, and perhaps a record has come or gone. */
  lemma {:induction false} CallerMoved(c: Config, s: State, s1: State, i: nat, caller: Caller, id: Text)
    requires i < |s.callers| && s1.callers == s.callers[i := caller] && s1.worker == s.worker && s1.queue == s.queue
    ensures Owed(c, s1, id) - Owed(c, s, id)
         == CallerOwes(caller, id) - CallerOwes(s.callers[i], id)
          + RecordOwes(s.worker, Stored(c, s1, id), id) - RecordOwes(s.worker, Stored(c, s, id), id)
  {
    SumReplaced(s.callers, i, caller, Owes(id));
  }

  /** Only the worker has moved, and perhaps a record has gone. */
  lemma {:induction false} WorkerMoved(c: Config, s: State, s1: State, id: Text)
    requires s1.callers == s.callers && s1.queue == s.queue
    ensures Owed(c, s1, id) - Owed(c, s, id)
         == BatchOwes(s1.worker, id) - BatchOwes(s.worker, id)
          + RecordOwes(s1.worker, Stored(c, s1, id), id) - RecordOwes(s.worker, Stored(c, s, id), id)
  {}

  lemma {:induction false} CallerCovered(c: Config, s: State, step: Step, id: Text)
    requires Enabled(c, s, step)
    requires step.CheckClosed? || step.CountRefusal? || step.CountPush? || step.CountQueued? || step.Signal?
    ensures Covered(c, s, step, id)
  {
    var s1 := Do(c, s, step);
    CallerMoved(c, s, s1, step.i, s1.callers[step.i], id);
  }

  lemma {:induction false} StartOwes(c: Config, e: Event, id: Text)
    ensures CallerOwes(Sync(e, Started(c, [e])), id) <= 2 * Has(id)(e) == CallerOwes(Persisting(e), id)
  {
    assert Ids([e]) == {e.eventId};
  }

  lemma {:induction false} PrepareCovered(c: Config, s: State, i: nat, result: Option<Event>, id: Text)
    requires Enabled(c, s, Prepare(i, result))
    ensures Spends(c, s, DoPrepare(c, s, i, result), id, 0, 2 * One(Prepares(Prepare(i, result), id)))
  {
    var s1 := DoPrepare(c, s, i, result);
    if result.Some? {
      StartOwes(c, result.value, id);
    }
    CallerMoved(c, s, s1, i, s1.callers[i], id);
  }

  lemma {:induction false} AppendCovered(c: Config, s: State, i: nat, works: bool, id: Text)
    requires Enabled(c, s, Append(i, works))
    ensures Spends(c, s, DoAppend(c, s, i, works), id, 0, 0)
  {
    var s1 := DoAppend(c, s, i, works);
    AppendStores(c, s, i, works);
    assert Stored(c, s1, id) <==> Stored(c, s, id) || (c.durable && works && id == s.callers[i].event.eventId);
    CallerMoved(c, s, s1, i, s1.callers[i], id);
  }

  lemma {:induction false} PushCovered(c: Config, s: State, i: nat, id: Text)
    requires Enabled(c, s, Step.Push(i))
    ensures Spends(c, s, DoPush(c, s, i), id, 0, 0)
  {
    PushOwes(s.queue, c.capacity, s.callers[i].event, id);
    SumReplaced(s.callers, i, DoPush(c, s, i).callers[i], Owes(id));
  }

  lemma {:induction false} TakenOwes(q: seq<Event>, n: nat, id: Text)
    requires n <= |q|
    ensures SumOf(q[n..], Has(id)) + One(id in Ids(q[..n])) <= SumOf(q, Has(id))
  {
    SumConcat(q[..n], q[n..], Has(id));
    assert q == q[..n] + q[n..];
    QueueOwesNatural(q[..n], id);
  }

  lemma {:induction false} DrainCovered(c: Config, s: State, id: Text)
    requires Enabled(c, s, Step.Drain)
    ensures Spends(c, s, DoDrain(c, s), id, 0, 0)
  {
    var s1 := DoDrain(c, s);
    var n := Taken(s.queue, c.batchSize);
    TakenOwes(s.queue, n, id);
    assert BatchOwes(s1.worker, id) <= One(s.queue != [] && id in Ids(s.queue[..n]));
    assert s1.callers == s.callers && Stored(c, s1, id) == Stored(c, s, id);
  }

  lemma {:induction false} PeekCovered(c: Config, s: State, works: bool, id: Text)
    requires Enabled(c, s, Peek(works))
    ensures Spends(c, s, DoPeek(c, s, works), id, 0, 0)
  {
    StoredIdsDecoded(s.outbox);
    assert Ids(Peeked(s.outbox, c.batchSize)) <= StoredIds(s.outbox);
    WorkerMoved(c, s, DoPeek(c, s, works), id);
  }

  lemma {:induction false} CallerPostCovered(c: Config, s: State, i: nat, reply: Reply, id: Text)
    requires Enabled(c, s, Post(ACaller(i), reply))
    ensures Spends(c, s, DoPost(c, s, ACaller(i), reply), id,
                   One(reply.Answered? && id in Ids(s.callers[i].send.batch)), 0)
  {
    var s1 := DoPost(c, s, ACaller(i), reply);
    assert s1.outbox == s.outbox && s1.callers[i].event == s.callers[i].event;
    CallerMoved(c, s, s1, i, s1.callers[i], id);
  }

  lemma {:induction false} WorkerPostCovered(c: Config, s: State, reply: Reply, id: Text)
    requires Enabled(c, s, Post(TheWorker, reply))
    ensures Spends(c, s, DoPost(c, s, TheWorker, reply), id,
                   One(reply.Answered? && id in Ids(s.worker.send.batch)), 0)
  {
    var s1 := DoPost(c, s, TheWorker, reply);
    assert s1.outbox == s.outbox && s1.worker.send.batch == s.worker.send.batch;
    WorkerMoved(c, s, s1, id);
  }

  lemma {:induction false} CallerCountSentCovered(c: Config, s: State, i: nat, id: Text)
    requires Enabled(c, s, CountSent(ACaller(i)))
    ensures Spends(c, s, DoCountSent(c, s, ACaller(i)), id, 0, 0)
  {
    var s1 := DoCountSent(c, s, ACaller(i));
    assert s1.outbox == s.outbox;
    CallerMoved(c, s, s1, i, s1.callers[i], id);
  }

  lemma {:induction false} WorkerCountSentCovered(c: Config, s: State, id: Text)
    requires Enabled(c, s, CountSent(TheWorker))
    ensures Spends(c, s, DoCountSent(c, s, TheWorker), id, 0, 0)
  {
    var s1 := DoCountSent(c, s, TheWorker);
    assert s1.outbox == s.outbox;
    WorkerMoved(c, s, s1, id);
  }

  lemma {:induction false} CallerCountFailedCovered(c: Config, s: State, i: nat, id: Text)
    requires Enabled(c, s, CountFailed(ACaller(i)))
    ensures Spends(c, s, DoCountFailed(c, s, ACaller(i)), id, 0, 0)
  {
    var s1 := DoCountFailed(c, s, ACaller(i));
    assert s1.outbox == s.outbox;
    CallerMoved(c, s, s1, i, s1.callers[i], id);
  }

  lemma {:induction false} WorkerCountFailedCovered(c: Config, s: State, id: Text)
    requires Enabled(c, s, CountFailed(TheWorker))
    ensures Spends(c, s, DoCountFailed(c, s, TheWorker), id, 0, 0)
  {
    var s1 := DoCountFailed(c, s, TheWorker);
    assert s1.outbox == s.outbox;
    WorkerMoved(c, s, s1, id);
  }

  /** What a removal leaves of a stored ID. */
  lemma {:induction false} RemovalStores(c: Config, s: State, who: Who, works: bool, id: Text)
    requires Enabled(c, s, Remove(who, works)) && id != []
    ensures var gone := works && id in Ids(InFlight(s, who).value.batch);
            Stored(c, DoRemove(c, s, who, works), id) <==> Stored(c, s, id) && !gone
  {
    var send := InFlight(s, who).value;
    var left := if c.durable && works then s.(outbox := Without(s.outbox, RemovableIds(send.batch))) else s;
    WithoutRemoves(s.outbox, RemovableIds(send.batch));
    ConcludedFrame(left, who, true, send.rejected);
  }

  lemma {:induction false} CallerRemoveCovered(c: Config, s: State, i: nat, works: bool, id: Text)
    requires Enabled(c, s, Remove(ACaller(i), works)) && id != []
    ensures Spends(c, s, DoRemove(c, s, ACaller(i), works), id, 0, 0)
  {
    var s1 := DoRemove(c, s, ACaller(i), works);
    RemovalStores(c, s, ACaller(i), works, id);
    CallerMoved(c, s, s1, i, s1.callers[i], id);
  }

  lemma {:induction false} WorkerRemoveCovered(c: Config, s: State, works: bool, id: Text)
    requires Enabled(c, s, Remove(TheWorker, works)) && id != []
    ensures Spends(c, s, DoRemove(c, s, TheWorker, works), id, 0, One(!works))
  {
    var s1 := DoRemove(c, s, TheWorker, works);
    RemovalStores(c, s, TheWorker, works, id);
    assert !s1.worker.Delivering?;
    WorkerMoved(c, s, s1, id);
  }

  lemma {:induction false} PostCovered(c: Config, s: State, who: Who, reply: Reply, id: Text)
    requires Enabled(c, s, Post(who, reply))
    ensures Covered(c, s, Post(who, reply), id)
  {
    match who {
      case TheWorker => WorkerPostCovered(c, s, reply, id);
      case ACaller(i) => CallerPostCovered(c, s, i, reply, id);
    }
  }

  lemma {:induction false} CountCovered(c: Config, s: State, step: Step, id: Text)
    requires Enabled(c, s, step) && (step.CountSent? || step.CountFailed?)
    ensures Covered(c, s, step, id)
  {
    match step {
      case CountSent(TheWorker) => WorkerCountSentCovered(c, s, id);
      case CountSent(ACaller(i)) => CallerCountSentCovered(c, s, i, id);
      case CountFailed(TheWorker) => WorkerCountFailedCovered(c, s, id);
      case CountFailed(ACaller(i)) => CallerCountFailedCovered(c, s, i, id);
    }
  }

  lemma {:induction false} RemoveCovered(c: Config, s: State, who: Who, works: bool, id: Text)
    requires Enabled(c, s, Remove(who, works)) && id != []
    ensures Covered(c, s, Remove(who, works), id)
  {
    match who {
      case TheWorker => WorkerRemoveCovered(c, s, works, id);
      case ACaller(i) => CallerRemoveCovered(c, s, i, works, id);
    }
  }

  lemma {:induction false} CrashCovered(c: Config, s: State, id: Text)
    ensures Covered(c, s, Crash, id)
  {
    QueueOwesNatural(s.queue, id);
    CallersOweNatural(s.callers, id);
  }

  /** Steps that deliver nothing and put nothing anywhere. */
  lemma {:induction false} IdleCovered(c: Config, s: State, step: Step, id: Text)
    requires Enabled(c, s, step)
    requires step.TakeToken? || step.Look? || step.StartPass? || step.StartLastPass? || step.Close?
    ensures Covered(c, s, step, id)
  {
    var s1 := Do(c, s, step);
    assert s1.outbox == s.outbox;
    WorkerMoved(c, s, s1, id);
  }

  lemma {:induction false} CallCovered(c: Config, s: State, sync: bool, id: Text)
    ensures Covered(c, s, Call(sync), id)
  {
    SumSnoc(s.callers, Checking(sync), Owes(id));
  }

  /** The steps of a caller up to its push. */
  lemma {:induction false} EntryCovered(c: Config, s: State, step: Step, id: Text)
    requires Enabled(c, s, step) && (step.Call? || step.Prepare? || step.Append? || step.Push?)
    ensures Covered(c, s, step, id)
  {
    match step {
      case Call(sync) => CallCovered(c, s, sync, id);
      case Prepare(i, result) => PrepareCovered(c, s, i, result, id);
      case Append(i, works) => AppendCovered(c, s, i, works, id);
      case Push(i) => PushCovered(c, s, i, id);
    }
  }

  /** The steps with which the worker takes a batch. */
  lemma {:induction false} TakeCovered(c: Config, s: State, step: Step, id: Text)
    requires Enabled(c, s, step) && (step.Drain? || step.Peek?)
    ensures Covered(c, s, step, id)
  {
    match step {
      case Drain => DrainCovered(c, s, id);
      case Peek(works) => PeekCovered(c, s, works, id);
    }
  }

  /** Every step is covered. */
  lemma {:induction false} StepCovered(c: Config, s: State, step: Step, id: Text)
    requires Enabled(c, s, step) && id != []
    ensures Covered(c, s, step, id)
  {
    if step.Call? || step.Prepare? || step.Append? || step.Push? {
      EntryCovered(c, s, step, id);
    } else if step.Drain? || step.Peek? {
      TakeCovered(c, s, step, id);
    } else if step.CountSent? || step.CountFailed? {
      CountCovered(c, s, step, id);
    } else if step.TakeToken? || step.Look? || step.StartPass? || step.StartLastPass? || step.Close? {
      IdleCovered(c, s, step, id);
    } else {
      match step {
        case Post(who, reply) => PostCovered(c, s, who, reply, id);
        case Remove(who, works) => RemoveCovered(c, s, who, works, id);
        case Crash => CrashCovered(c, s, id);
        case _ => CallerCovered(c, s, step, id);
      }
    }
  }

  lemma {:induction false} RunCovered(c: Config, s: State, steps: seq<Step>, id: Text)
    requires CanRun(c, s, steps) && id != []
    ensures Owed(c, After(c, s, steps), id) + Deliveries(c, s, steps, id)
         <= Owed(c, s, id) + 2 * CallsWith(steps, id) + Mishaps(steps)
    decreases |steps|
  {
    if steps != [] {
      StepCovered(c, s, steps[0], id);
      RunCovered(c, Do(c, s, steps[0]), steps[1..], id);
    }
  }

  lemma {:induction false} OwedNatural(c: Config, s: State, id: Text)
    ensures Owed(c, s, id) >= 0
  {
    QueueOwesNatural(s.queue, id);
    CallersOweNatural(s.callers, id);
  }

  /**
    * Duplication is bounded. In every run from the start, whatever the interleaving, the batches with an ID
    * that the server answers with a 2xx are at most two for each call with the ID, one for a record found in the
    * file at the start, and one for each crash and each failed removal.
    */
  lemma {:induction false} DeliveriesBounded(c: Config, init: State, steps: seq<Step>, id: Text)
    requires Init(c, init) && CanRun(c, init, steps) && id != []
    ensures Deliveries(c, init, steps, id)
         <= One(Stored(c, init, id)) + 2 * CallsWith(steps, id) + Mishaps(steps)
  {
    RunCovered(c, init, steps, id);
    OwedNatural(c, After(c, init, steps), id);
  }

  /** So an event with an ID of its own is delivered at most twice without crashes and with removals that work. */
  lemma {:induction false} AtMostTwice(c: Config, init: State, steps: seq<Step>, id: Text)
    requires Init(c, init) && CanRun(c, init, steps) && id != []
    requires id !in StoredIds(init.outbox) && CallsWith(steps, id) <= 1 && Mishaps(steps) == 0
    ensures Deliveries(c, init, steps, id) <= 2
  {
    DeliveriesBounded(c, init, steps, id);
  }

  // ----- Twice does happen

  lemma {:induction false} CountsConcat(c: Config, s: State, a: seq<Step>, b: seq<Step>, id: Text)
    requires CanRun(c, s, a) && CanRun(c, After(c, s, a), b) && CanRun(c, s, a + b)
    ensures Deliveries(c, s, a + b, id) == Deliveries(c, s, a, id) + Deliveries(c, After(c, s, a), b, id)
    ensures CallsWith(a + b, id) == CallsWith(a, id) + CallsWith(b, id)
    ensures Mishaps(a + b) == Mishaps(a) + Mishaps(b)
    decreases |a|
  {
    if a == [] {
      assert a + b == b;
    } else {
      assert (a + b)[1..] == a[1..] + b;
      CountsConcat(c, Do(c, s, a[0]), a[1..], b, id);
    }
  }

  /** A run without mishaps, with its deliveries of the ID and its calls with it. */
  ghost predicate Smooth(c: Config, s: State, steps: seq<Step>, s1: State, id: Text, deliveries: int, calls: int) {
    && CanRun(c, s, steps) && After(c, s, steps) == s1
    && Deliveries(c, s, steps, id) == deliveries && CallsWith(steps, id) == calls && Mishaps(steps) == 0
  }

  lemma {:induction false} Further(
    c: Config, s: State, steps: seq<Step>, m: State, id: Text, deliveries: int, calls: int, step: Step)
    returns (more: seq<Step>, s1: State)
    requires Smooth(c, s, steps, m, id, deliveries, calls) && Enabled(c, m, step) && !IsMishap(step)
    ensures s1 == Do(c, m, step)
    ensures Smooth(c, s, more, s1, id,
                   deliveries + One(id in AnsweredBy(c, m, step)), calls + One(Prepares(step, id)))
  {
    more, s1 := steps + [step], Do(c, m, step);
    OneStep(c, m, step);
    RunConcat(c, s, steps, [step]);
    CountsConcat(c, s, steps, [step], id);
    assert [step][1..] == [];
  }

  /** A caller that has written its record and not yet pushed its event. */
  lemma {:induction false} RecordWritten(c: Config, init: State, e: Event) returns (steps: seq<Step>, m: State)
    requires Init(c, init) && init.outbox == [] && c.durable && c.admits(e)
    ensures Smooth(c, init, steps, m, e.eventId, 0, 1)
    ensures m.callers == [Pushing(e)] && m.queue == [] && m.outbox == [Record(e)] && m.worker.Idle?
  {
    var id := e.eventId;
    steps, m := [], init;
    steps, m := Further(c, init, steps, m, id, 0, 0, Call(false));
    steps, m := Further(c, init, steps, m, id, 0, 0, CheckClosed(0));
    steps, m := Further(c, init, steps, m, id, 0, 0, Prepare(0, Some(e)));
    steps, m := Further(c, init, steps, m, id, 0, 1, Append(0, true));
  }

  lemma {:induction false} OneRecord(c: Config, e: Event)
    ensures Peeked([Record(e)], c.batchSize) == [e] && Peeked([], c.batchSize) == []
    ensures e.eventId != [] ==> Without([Record(e)], RemovableIds([e])) == []
    ensures Ids([e]) == {e.eventId}
  {
    var lines := [Record(e)];
    assert lines[..0] == [];
    assert Decoded(lines) == [e];
    assert e in [e];
  }

  /** The worker finds the record. */
  lemma {:induction false} RecordRead(c: Config, init: State, before: seq<Step>, s: State, e: Event)
    returns (steps: seq<Step>, m: State)
    requires Smooth(c, init, before, s, e.eventId, 0, 1) && c.durable && c.configured
    requires s.callers == [Pushing(e)] && s.queue == [] && s.outbox == [Record(e)] && s.worker.Idle?
    ensures Smooth(c, init, steps, m, e.eventId, 0, 1)
    ensures m.callers == s.callers && m.queue == [] && m.outbox == s.outbox
    ensures m.worker == Delivering(Posting([e], 0), false, OutboxPhase)
  {
    OneRecord(c, e);
    steps, m := Further(c, init, before, s, e.eventId, 0, 1, StartPass);
    steps, m := Further(c, init, steps, m, e.eventId, 0, 1, Step.Drain);
    steps, m := Further(c, init, steps, m, e.eventId, 0, 1, Peek(true));
  }

  /** It delivers the event and removes the record. */
  lemma {:induction false} RecordDelivered(c: Config, init: State, before: seq<Step>, s: State, e: Event)
    returns (steps: seq<Step>, m: State)
    requires Smooth(c, init, before, s, e.eventId, 0, 1) && c.durable && e.eventId != []
    requires s.callers == [Pushing(e)] && s.queue == [] && s.outbox == [Record(e)]
    requires s.worker == Delivering(Posting([e], 0), false, OutboxPhase)
    ensures Smooth(c, init, steps, m, e.eventId, 1, 1)
    ensures m.callers == s.callers && m.queue == [] && m.outbox == [] && m.worker == Peeking(false)
  {
    OneRecord(c, e);
    steps, m := Further(c, init, before, s, e.eventId, 0, 1, Post(TheWorker, Answered(false)));
    steps, m := Further(c, init, steps, m, e.eventId, 1, 1, CountSent(TheWorker));
    steps, m := Further(c, init, steps, m, e.eventId, 1, 1, Remove(TheWorker, true));
  }

  /** Finding nothing more, the worker rests, and the caller pushes the event after all. */
  lemma {:induction false} CopyPushed(c: Config, init: State, before: seq<Step>, s: State, e: Event)
    returns (steps: seq<Step>, m: State)
    requires Smooth(c, init, before, s, e.eventId, 1, 1) && c.capacity > 0
    requires s.callers == [Pushing(e)] && s.queue == [] && s.outbox == [] && s.worker == Peeking(false)
    ensures Smooth(c, init, steps, m, e.eventId, 1, 1)
    ensures m.queue == [e] && m.worker.Idle?
  {
    OneRecord(c, e);
    steps, m := Further(c, init, before, s, e.eventId, 1, 1, Peek(true));
    steps, m := Further(c, init, steps, m, e.eventId, 1, 1, Step.Push(0));
  }

  /** The worker delivers the event again. */
  lemma {:induction false} CopyDelivered(c: Config, init: State, before: seq<Step>, s: State, e: Event)
    returns (steps: seq<Step>, m: State)
    requires Smooth(c, init, before, s, e.eventId, 1, 1) && c.configured
    requires s.queue == [e] && s.worker.Idle?
    ensures Smooth(c, init, steps, m, e.eventId, 2, 1)
  {
    OneRecord(c, e);
    steps, m := Further(c, init, before, s, e.eventId, 1, 1, StartPass);
    assert m.queue[..Taken(m.queue, c.batchSize)] == [e];
    steps, m := Further(c, init, steps, m, e.eventId, 1, 1, Step.Drain);
    assert m.worker.Delivering? && m.worker.send == Posting([e], 0);
    steps, m := Further(c, init, steps, m, e.eventId, 1, 1, Post(TheWorker, Answered(false)));
  }

  /**
    * The bound is reached, so delivery is not exactly once: with a working disk, a server that accepts, no
    * crash and one call, an event is delivered from its record before it is even pushed, and again from the
    * buffer.
    */
  lemma {:induction false} TwiceHappens(c: Config, init: State, e: Event)
    requires Init(c, init) && init.outbox == [] && c.durable && c.configured && c.capacity > 0
    requires c.admits(e) && e.eventId != []
    ensures exists steps, s :: Smooth(c, init, steps, s, e.eventId, 2, 1)
  {
    var steps, s := RecordWritten(c, init, e);
    steps, s := RecordRead(c, init, steps, s, e);
    steps, s := RecordDelivered(c, init, steps, s, e);
    steps, s := CopyPushed(c, init, steps, s, e);
    steps, s := CopyDelivered(c, init, steps, s, e);
  }
}
