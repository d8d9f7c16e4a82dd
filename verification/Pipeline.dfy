/**
  * The delivery pipeline of logcenter/client.go as a concurrent protocol: any number of goroutines inside
  * `enqueue` or `SendEventSync`, one worker goroutine in `run`, and between them the buffer, the outbox
  * file, the one-slot wake-up channel and the counters. A step is one access to that shared state; steps
  * of different goroutines interleave freely, the server and the disk answer as they like, and the process
  * may crash between any two steps and start again on the same outbox file.
  */
module Pipeline {
  import opened Bytes
  import opened Events
  import opened EventQueues
  import opened Outboxes

  /** `admits` is the validation that ends `prepareEvent`; `durable` says an outbox is configured. */
  datatype Config = Config(
    capacity: nat,
    batchSize: nat,
    retries: nat,
    durable: bool,
    configured: bool,
    admits: Event -> bool)

  ghost predicate Normalized(c: Config) {
    1 <= c.batchSize <= c.capacity
  }

  /** A batch inside `sendBatchInternal`. */
  datatype Sending =
    | Posting(batch: seq<Event>, attempt: nat)
    | Acked(batch: seq<Event>, rejected: bool)
    | Removing(batch: seq<Event>, rejected: bool)
    | Failing(batch: seq<Event>, retryable: bool)

  /** Where a goroutine inside `enqueue` or (`sync`) `SendEventSync` stands. */
  datatype Caller =
    | Checking(sync: bool)
    | Preparing(sync: bool)
    | Dropping
    | Persisting(event: Event)
    | Pushing(event: Event)
    | Counting(drop: bool, queued: bool)
    | Bumping
    | Signalling
    | Sync(event: Event, send: Sending)
    | SyncPersisting(event: Event)
    | Returned

  /** Which loop of `sendQueued` a batch belongs to, and whether a batch of the first has failed. */
  datatype Phase = QueuePhase(failed: bool) | OutboxPhase

  /** Where the worker stands; `final` marks the pass that follows Close. */
  datatype Worker =
    | Idle
    | Woken
    | Draining(final: bool, failed: bool)
    | Delivering(send: Sending, final: bool, phase: Phase)
    | Peeking(final: bool)
    | Stopped

  /** The client's counters, and what the accounting is about: calls, events re-read, taken and replaced. */
  datatype Counters = Counters(
    queued: int,
    sent: int,
    failed: int,
    dropped: int,
    offered: int,
    reread: int,
    taken: int,
    replaced: int)

  /** The last two components are history: the events ever appended, and those of batches answered 2xx. */
  datatype State = State(
    queue: seq<Event>,
    outbox: seq<Line>,
    notify: bool,
    closed: bool,
    worker: Worker,
    callers: seq<Caller>,
    counters: Counters,
    appended: set<Event>,
    answered: set<Event>)

  const ZERO := Counters(0, 0, 0, 0, 0, 0, 0, 0)

  ghost predicate Init(c: Config, s: State) {
    s == State([], s.outbox, false, false, Idle, [], ZERO, {}, {})
  }

  datatype Who = TheWorker | ACaller(i: nat)

  /** What a post is answered with: a 2xx, or a failure that may or may not be retried. */
  datatype Reply = Answered(rejected: bool) | Refused(retryable: bool)

  datatype Step =
    | Call(sync: bool)
    | CheckClosed(i: nat)
    | Prepare(i: nat, result: Option<Event>)
    | CountRefusal(i: nat)
    | Append(i: nat, works: bool)
    | Push(i: nat)
    | CountPush(i: nat)
    | CountQueued(i: nat)
    | Signal(i: nat)
    | TakeToken
    | Look
    | StartPass
    | StartLastPass
    | Drain
    | Peek(works: bool)
    | Post(who: Who, reply: Reply)
    | CountSent(who: Who)
    | Remove(who: Who, works: bool)
    | CountFailed(who: Who)
    | Close
    | Crash

  function InFlight(s: State, who: Who): Option<Sending> {
    match who
    case TheWorker => if s.worker.Delivering? then Some(s.worker.send) else None
    case ACaller(i) => if i < |s.callers| && s.callers[i].Sync? then Some(s.callers[i].send) else None
  }

  predicate Enabled(c: Config, s: State, step: Step) {
    match step
    case Call(_) => true
    case CheckClosed(i) => i < |s.callers| && s.callers[i].Checking?
    case Prepare(i, result) =>
      i < |s.callers| && s.callers[i].Preparing? && (result.Some? ==> c.admits(result.value))
    case CountRefusal(i) => i < |s.callers| && s.callers[i].Dropping?
    case Append(i, _) => i < |s.callers| && (s.callers[i].Persisting? || s.callers[i].SyncPersisting?)
    case Push(i) => i < |s.callers| && s.callers[i].Pushing?
    case CountPush(i) => i < |s.callers| && s.callers[i].Counting?
    case CountQueued(i) => i < |s.callers| && s.callers[i].Bumping?
    case Signal(i) => i < |s.callers| && s.callers[i].Signalling?
    case TakeToken => s.worker.Idle? && s.notify
    case Look => s.worker.Woken?
    case StartPass => s.worker.Idle?
    case StartLastPass => s.worker.Idle? && s.closed
    case Drain => s.worker.Draining?
    case Peek(_) => s.worker.Peeking?
    case Post(who, _) => InFlight(s, who).Some? && InFlight(s, who).value.Posting?
    case CountSent(who) => InFlight(s, who).Some? && InFlight(s, who).value.Acked?
    case Remove(who, _) => InFlight(s, who).Some? && InFlight(s, who).value.Removing?
    case CountFailed(who) => InFlight(s, who).Some? && InFlight(s, who).value.Failing?
    case Close => true
    case Crash => true
  }

  function Started(c: Config, batch: seq<Event>): Sending {
    if c.configured then Posting(batch, 0) else Failing(batch, true)
  }

  function Resting(final: bool): Worker {
    if final then Stopped else Idle
  }

  function WithCaller(s: State, i: nat, caller: Caller): State
    requires i < |s.callers|
  {
    s.(callers := s.callers[i := caller])
  }

  function WithSend(s: State, who: Who, send: Sending): State
    requires InFlight(s, who).Some?
  {
    match who
    case TheWorker => s.(worker := s.worker.(send := send))
    case ACaller(i) => WithCaller(s, i, s.callers[i].(send := send))
  }

  /** The sender goes on after its batch; a caller whose error is retryable persists its event. */
  function Concluded(s: State, who: Who, acked: bool, persist: bool): State
    requires InFlight(s, who).Some?
  {
    match who
    case ACaller(i) => WithCaller(s, i, if persist then SyncPersisting(s.callers[i].event) else Returned)
    case TheWorker =>
      match s.worker.phase
      case QueuePhase(failed) => s.(worker := Draining(s.worker.final, failed || !acked))
      case OutboxPhase => s.(worker := if acked then Peeking(s.worker.final) else Resting(s.worker.final))
  }

  // ----- Steps of a caller

  function DoPrepare(c: Config, s: State, i: nat, result: Option<Event>): State
    requires Enabled(c, s, Prepare(i, result))
  {
    match result
    case None => WithCaller(s, i, Dropping)
    case Some(e) => WithCaller(s, i, if s.callers[i].sync then Sync(e, Started(c, [e])) else Persisting(e))
  }

  function DoAppend(c: Config, s: State, i: nat, works: bool): State
    requires Enabled(c, s, Append(i, works))
  {
    var e := s.callers[i].event;
    var s1 := WithCaller(s, i, if s.callers[i].Persisting? then Pushing(e) else Returned);
    if c.durable && works then s1.(outbox := s.outbox + [Record(e)], appended := s.appended + {e}) else s1
  }

  function DoPush(c: Config, s: State, i: nat): State
    requires Enabled(c, s, Step.Push(i))
  {
    var (held, r) := Pushed(s.queue, c.capacity, s.callers[i].event);
    var replaced := if r.queued && r.dropped.Some? then 1 else 0;
    WithCaller(s.(queue := held, counters := s.counters.(replaced := s.counters.replaced + replaced)),
               i, Counting(r.dropped.Some?, r.queued))
  }

  function DoCountPush(c: Config, s: State, i: nat): State
    requires Enabled(c, s, CountPush(i))
  {
    var drops := if s.callers[i].drop then 1 else 0;
    WithCaller(s.(counters := s.counters.(dropped := s.counters.dropped + drops)),
               i, if s.callers[i].queued then Bumping else Returned)
  }

  // ----- Steps of the worker

  function DoDrain(c: Config, s: State): State
    requires Enabled(c, s, Step.Drain)
  {
    var n := Taken(s.queue, c.batchSize);
    if s.queue == [] then
      s.(worker := if s.worker.failed then Resting(s.worker.final) else Peeking(s.worker.final))
    else
      s.(queue := s.queue[n..], counters := s.counters.(taken := s.counters.taken + n),
         worker := Delivering(Started(c, s.queue[..n]), s.worker.final, QueuePhase(s.worker.failed)))
  }

  function DoPeek(c: Config, s: State, works: bool): State
    requires Enabled(c, s, Peek(works))
  {
    var events := Peeked(s.outbox, c.batchSize);
    if !c.durable || !works || events == [] then s.(worker := Resting(s.worker.final))
    else
      s.(worker := Delivering(Started(c, events), s.worker.final, OutboxPhase),
         counters := s.counters.(reread := s.counters.reread + |events|))
  }

  // ----- Steps of a sender, worker or caller

  function DoPost(c: Config, s: State, who: Who, reply: Reply): State
    requires Enabled(c, s, Post(who, reply))
  {
    var send := InFlight(s, who).value;
    match reply
    case Answered(rejected) =>
      WithSend(s.(answered := s.answered + set e | e in send.batch), who, Acked(send.batch, rejected))
    case Refused(retryable) =>
      WithSend(s, who, if retryable && send.attempt < c.retries
                       then Posting(send.batch, send.attempt + 1)
                       else Failing(send.batch, retryable))
  }

  function DoCountSent(c: Config, s: State, who: Who): State
    requires Enabled(c, s, CountSent(who))
  {
    var send := InFlight(s, who).value;
    WithSend(s.(counters := s.counters.(sent := s.counters.sent + |send.batch|)),
             who, Removing(send.batch, send.rejected))
  }

  function DoRemove(c: Config, s: State, who: Who, works: bool): State
    requires Enabled(c, s, Remove(who, works))
  {
    var send := InFlight(s, who).value;
    Concluded(if c.durable && works then s.(outbox := Without(s.outbox, RemovableIds(send.batch))) else s,
              who, true, send.rejected)
  }

  function DoCountFailed(c: Config, s: State, who: Who): State
    requires Enabled(c, s, CountFailed(who))
  {
    var send := InFlight(s, who).value;
    Concluded(s.(counters := s.counters.(failed := s.counters.failed + |send.batch|)), who, false, send.retryable)
  }

  function Do(c: Config, s: State, step: Step): State
    requires Enabled(c, s, step)
  {
    match step
    case Call(sync) =>
      s.(callers := s.callers + [Checking(sync)], counters := s.counters.(offered := s.counters.offered + 1))
    case CheckClosed(i) => WithCaller(s, i, if s.closed then Dropping else Preparing(s.callers[i].sync))
    case Prepare(i, result) => DoPrepare(c, s, i, result)
    case CountRefusal(i) => WithCaller(s.(counters := s.counters.(dropped := s.counters.dropped + 1)), i, Returned)
    case Append(i, works) => DoAppend(c, s, i, works)
    case Push(i) => DoPush(c, s, i)
    case CountPush(i) => DoCountPush(c, s, i)
    case CountQueued(i) => WithCaller(s.(counters := s.counters.(queued := s.counters.queued + 1)), i, Signalling)
    case Signal(i) => WithCaller(s.(notify := true), i, Returned)
    case TakeToken => s.(notify := false, worker := Woken)
    case Look => s.(worker := if |s.queue| >= c.batchSize then Draining(false, false) else Idle)
    case StartPass => s.(worker := Draining(false, false))
    case StartLastPass => s.(worker := Draining(true, false))
    case Drain => DoDrain(c, s)
    case Peek(works) => DoPeek(c, s, works)
    case Post(who, reply) => DoPost(c, s, who, reply)
    case CountSent(who) => DoCountSent(c, s, who)
    case Remove(who, works) => DoRemove(c, s, who, works)
    case CountFailed(who) => DoCountFailed(c, s, who)
    case Close => s.(closed := true)
    case Crash => State([], s.outbox, false, false, Idle, [], ZERO, s.appended, s.answered)
  }

  ghost predicate CanRun(c: Config, s: State, steps: seq<Step>)
    decreases |steps|
  {
    steps != [] ==> Enabled(c, s, steps[0]) && CanRun(c, Do(c, s, steps[0]), steps[1..])
  }

  ghost function After(c: Config, s: State, steps: seq<Step>): State
    requires CanRun(c, s, steps)
    decreases |steps|
  {
    if steps == [] then s else After(c, Do(c, s, steps[0]), steps[1..])
  }

  lemma {:induction false} RunConcat(c: Config, s: State, a: seq<Step>, b: seq<Step>)
    requires CanRun(c, s, a) && CanRun(c, After(c, s, a), b)
    ensures CanRun(c, s, a + b) && After(c, s, a + b) == After(c, After(c, s, a), b)
    decreases |a|
  {
    if a == [] {
      assert a + b == b;
    } else {
      RunConcat(c, Do(c, s, a[0]), a[1..], b);
      assert (a + b)[1..] == a[1..] + b;
    }
  }

  lemma {:induction false} OneStep(c: Config, s: State, step: Step)
    requires Enabled(c, s, step)
    ensures CanRun(c, s, [step]) && After(c, s, [step]) == Do(c, s, step)
  {
    assert [step][1..] == [];
  }
}
