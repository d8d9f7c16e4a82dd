/**
  * The sending half of logcenter/client.go: batches posted with retry, acknowledged IDs removed from the
  * outbox, the buffer drained and then the outbox.
  *
  * The server and the disk are scripts: `replies` are the answers still to come and `disk` says of each
  * outbox access still to come whether it fails (none does once the script is over). A process whose
  * server script is over stops where it stands, which a result reports as `Cut`; so every finite run of a
  * loop that need not terminate is covered.
  */
module Delivery {
  import opened Bytes
  import opened Events
  import opened EventQueues
  import opened Outboxes

  /** The settings sending depends on; an endpoint or key counts when it is not blank. */
  datatype Config = Config(hasEndpoint: bool, hasApiKey: bool, batchSize: int, retryAttempts: nat)

  datatype BatchResponse = BatchResponse(accepted: int, duplicated: int, rejected: int)

  /** One answered post: a 2xx status with a readable body, another status, or any other error. */
  datatype Reply = Accepted(response: BatchResponse) | HttpFailure(status: int) | OtherFailure

  datatype SendError =
    | EndpointEmpty
    | ApiKeyEmpty
    | PostFailed(reply: Reply)
    | RejectedEvents(count: int)
    | OutboxUnreadable

  datatype Outcome = Done | Failed(error: SendError) | Cut

  /** 429 (section 4 of RFC 6585), 500 and above, and everything that is not an HTTP status. */
  predicate IsRetryable(error: SendError) {
    error.PostFailed? && error.reply.HttpFailure? ==> error.reply.status == 429 || error.reply.status >= 500
  }

  datatype Stats = Stats(
    sentBatches: nat,
    sentEvents: nat,
    accepted: int,
    duplicated: int,
    rejected: int,
    failedBatches: nat,
    failedEvents: nat)

  /** A batch that was tried: its events, the answers to its posts, and whether it was acknowledged. */
  datatype Send = Send(events: seq<Event>, posts: seq<Reply>, acked: bool)

  datatype World = World(
    queue: seq<Event>,
    outbox: Option<seq<Line>>,
    stats: Stats,
    sends: seq<Send>,
    sleptMs: nat,
    replies: seq<Reply>,
    disk: seq<bool>)

  function Backlog(w: World): seq<Line> {
    if w.outbox.Some? then w.outbox.value else []
  }

  predicate Healthy(w: World) {
    true !in w.disk
  }

  function DiskFails(w: World): bool {
    w.disk != [] && w.disk[0]
  }

  function DiskUsed(w: World): (r: World) {
    if w.disk == [] then w else w.(disk := w.disk[1..])
  }

  // ----- One batch

  predicate EndsLoop(reply: Reply, attempt: nat, retries: nat) {
    reply.Accepted? || !IsRetryable(PostFailed(reply)) || attempt == retries
  }

  /** The retry loop from the attempt on: the world after it, the answers so far, and whether it was cut. */
  function PostLoop(retries: nat, w: World, attempt: nat, posts: seq<Reply>): (World, seq<Reply>, bool)
    requires attempt <= retries
    decreases retries - attempt
  {
    if w.replies == [] then (w, posts, true)
    else
      var reply := w.replies[0];
      var w1 := w.(replies := w.replies[1..]);
      if EndsLoop(reply, attempt, retries) then (w1, posts + [reply], false)
      else PostLoop(retries, w1.(sleptMs := w.sleptMs + (attempt + 1) * 50), attempt + 1, posts + [reply])
  }

  function BatchFailed(w: World, events: seq<Event>, posts: seq<Reply>): World {
    w.(stats := w.stats.(failedBatches := w.stats.failedBatches + 1,
                         failedEvents := w.stats.failedEvents + |events|),
       sends := w.sends + [Send(events, posts, false)])
  }

  function BatchSent(w: World, events: seq<Event>, posts: seq<Reply>, response: BatchResponse): World {
    w.(stats := Stats(w.stats.sentBatches + 1, w.stats.sentEvents + |events|,
                      w.stats.accepted + response.accepted, w.stats.duplicated + response.duplicated,
                      w.stats.rejected + response.rejected, w.stats.failedBatches, w.stats.failedEvents),
       sends := w.sends + [Send(events, posts, true)])
  }

  /** `removeOutbox`: a failing disk leaves the file as it was. */
  function OutboxTrimmed(w: World, events: seq<Event>): World {
    if w.outbox.None? || RemovableIds(events) == {} then w
    else if DiskFails(w) then DiskUsed(w)
    else DiskUsed(w).(outbox := Some(Without(w.outbox.value, RemovableIds(events))))
  }

  function Concluded(w: World, events: seq<Event>, posts: seq<Reply>, rejectAsError: bool): (World, Outcome)
    requires posts != []
  {
    match posts[|posts| - 1]
    case Accepted(response) =>
      (OutboxTrimmed(BatchSent(w, events, posts, response), events),
       if rejectAsError && response.rejected > 0 then Failed(RejectedEvents(response.rejected)) else Done)
    case reply =>
      (BatchFailed(w, events, posts), Failed(PostFailed(reply)))
  }

  predicate Configured(config: Config) {
    config.hasEndpoint && config.hasApiKey
  }

  /** `sendBatchInternal`. */
  function SendBatch(config: Config, w: World, events: seq<Event>, rejectAsError: bool): (World, Outcome) {
    if events == [] then (w, Done)
    else if !config.hasEndpoint then (BatchFailed(w, events, []), Failed(EndpointEmpty))
    else if !config.hasApiKey then (BatchFailed(w, events, []), Failed(ApiKeyEmpty))
    else
      var (w1, posts, cut) := PostLoop(config.retryAttempts, w, 0, []);
      if cut || posts == [] then (w1, Cut) else Concluded(w1, events, posts, rejectAsError)
  }

  // ----- The worker's loops

  /** The first loop of `sendQueued`: drain and send until the buffer is empty, remembering the first error. */
  function DrainQueue(config: Config, w: World, first: Outcome): (World, Outcome)
    decreases |w.queue|
  {
    if w.queue == [] then (w, first)
    else
      var n := Taken(w.queue, config.batchSize);
      var (w1, outcome) := SendBatch(config, w.(queue := w.queue[n..]), w.queue[..n], false);
      SendBatchFrame(config, w.(queue := w.queue[n..]), w.queue[..n], false);
      if outcome.Cut? then (w1, Cut)
      else DrainQueue(config, w1, if first.Done? then outcome else first)
  }

  /** `sendOutbox`: peek, send, repeat until nothing decodable is left or a batch fails. */
  function DrainOutbox(config: Config, w: World): (World, Outcome)
    decreases |w.replies|
  {
    if w.outbox.None? then (w, Done)
    else if DiskFails(w) then (DiskUsed(w), Failed(OutboxUnreadable))
    else
      var events := Peeked(w.outbox.value, config.batchSize);
      if events == [] then (DiskUsed(w), Done)
      else
        var (w1, outcome) := SendBatch(config, DiskUsed(w), events, false);
        SendBatchFrame(config, DiskUsed(w), events, false);
        if outcome.Done? then DrainOutbox(config, w1) else (w1, outcome)
  }

  /** `sendQueued`. */
  function SendQueued(config: Config, w: World): (World, Outcome) {
    var (w1, outcome) := DrainQueue(config, w, Done);
    if outcome.Done? then DrainOutbox(config, w1) else (w1, outcome)
  }

  /** `persistOutbox`: a failing disk leaves the file as it was. */
  function OutboxAppended(w: World, e: Event): World {
    if w.outbox.None? then w
    else if DiskFails(w) then DiskUsed(w)
    else DiskUsed(w).(outbox := Some(w.outbox.value + [Record(e)]))
  }

  /** `SendEventSync` from the prepared event on. */
  function SendSync(config: Config, w: World, e: Event): (World, Outcome) {
    var (w1, outcome) := SendBatch(config, w, [e], true);
    (if outcome.Failed? && IsRetryable(outcome.error) then OutboxAppended(w1, e) else w1, outcome)
  }

  lemma {:induction false} PostLoopFrame(retries: nat, w: World, attempt: nat, posts: seq<Reply>)
    requires attempt <= retries
    ensures var (w1, all, cut) := PostLoop(retries, w, attempt, posts);
            && w1 == w.(replies := w1.replies, sleptMs := w1.sleptMs)
            && |w1.replies| <= |w.replies|
            && |all| - |posts| == |w.replies| - |w1.replies|
            && (cut ==> w1.replies == [])
            && (!cut ==> |all| > |posts|)
    decreases retries - attempt
  {
    if w.replies != [] && !EndsLoop(w.replies[0], attempt, retries) {
      PostLoopFrame(retries, w.(replies := w.replies[1..], sleptMs := w.sleptMs + (attempt + 1) * 50),
                    attempt + 1, posts + [w.replies[0]]);
    }
  }

  /** Sending a batch never touches the buffer, and a send that succeeds has been answered. */
  lemma {:induction false} SendBatchFrame(config: Config, w: World, events: seq<Event>, rejectAsError: bool)
    ensures var (w1, outcome) := SendBatch(config, w, events, rejectAsError);
            && w1.queue == w.queue
            && w1.outbox.Some? == w.outbox.Some?
            && |w1.replies| <= |w.replies|
            && (outcome.Done? && events != [] ==> |w1.replies| < |w.replies|)
            && (outcome.Cut? ==> w1.replies == [] && w1.sends == w.sends && w1.outbox == w.outbox)
            && (outcome.Failed? && !outcome.error.RejectedEvents? ==> w1.outbox == w.outbox)
  {
    PostLoopFrame(config.retryAttempts, w, 0, []);
  }
}
