/** What the worker's sends guarantee: retry bounds, batching, exactness of a flush, termination. */
module DeliveryLaws {
  import opened Bytes
  import opened Events
  import opened EventQueues
  import opened Outboxes
  import opened Delivery

  // ----- Retries

  /** Milliseconds slept by a batch that took `posts` posts: 50 before the second, 100 before the third, ... */
  function SleepMs(posts: nat): (ms: nat)
    ensures posts >= 1 ==> ms == 25 * posts * (posts - 1)
  {
    if posts <= 1 then 0 else SleepMs(posts - 1) + 50 * (posts - 1)
  }

  lemma {:induction false} PostLoopShape(retries: nat, w: World, attempt: nat, posts: seq<Reply>)
    requires attempt <= retries && |posts| == attempt
    ensures var (w1, all, cut) := PostLoop(retries, w, attempt, posts);
            !cut ==>
              && attempt < |all| <= retries + 1 && posts <= all
              && w.replies == all[attempt..] + w1.replies
              && (forall i :: attempt <= i < |all| - 1 ==> !EndsLoop(all[i], i, retries))
              && EndsLoop(all[|all| - 1], |all| - 1, retries)
              && w1.sleptMs == w.sleptMs + SleepMs(|all|) - SleepMs(attempt + 1)
    decreases retries - attempt
  {
    if w.replies != [] {
      var reply := w.replies[0];
      assert w.replies == [reply] + w.replies[1..];
      if !EndsLoop(reply, attempt, retries) {
        var w1 := w.(replies := w.replies[1..], sleptMs := w.sleptMs + (attempt + 1) * 50);
        PostLoopShape(retries, w1, attempt + 1, posts + [reply]);
        var (w2, all, cut) := PostLoop(retries, w1, attempt + 1, posts + [reply]);
        if !cut {
          assert all[attempt] == (posts + [reply])[attempt];
          assert all[attempt..] == [reply] + all[attempt + 1..];
        }
      }
    }
  }

  /**
    * A batch that runs to its end makes between one and RetryAttempts + 1 posts, answered in the order the
    * server answers; one is followed by another if and only if it is not the last allowed and its answer is 429,
    * 500 or above, or no HTTP status at all. The batch is acknowledged exactly when the last answer is a
    * success; it then fails only if rejected events are to count as an error and there are some. It sleeps for
    * 50 ms, 100 ms and so on between its posts, at most 25 * R * (R + 1) ms in all. The buffer and the log of
    * earlier sends are untouched, and so is the outbox unless the batch is acknowledged.
    */
  lemma {:induction false} RetryBounds(config: Config, w: World, events: seq<Event>, rejectAsError: bool)
    requires events != [] && Configured(config)
    ensures var (w1, outcome) := SendBatch(config, w, events, rejectAsError);
            !outcome.Cut? ==>
              exists posts :: RanItsCourse(config.retryAttempts, w, w1, events, rejectAsError, outcome, posts)
  {
    var r := config.retryAttempts;
    PostLoopShape(r, w, 0, []);
    PostLoopFrame(r, w, 0, []);
    var (w0, posts, cut) := PostLoop(r, w, 0, []);
    if !cut {
      assert posts[0..] == posts;
      SleepGrows(|posts|, r + 1);
      var (w1, outcome) := SendBatch(config, w, events, rejectAsError);
      TransientExactly(posts, r);
      assert RanItsCourse(r, w, w1, events, rejectAsError, outcome, posts);
    }
  }

  /** The posts of a batch that was not cut short, and what they left behind. */
  ghost predicate RanItsCourse(
    r: nat, w: World, w1: World, events: seq<Event>, rejectAsError: bool, outcome: Outcome, posts: seq<Reply>)
  {
    && 1 <= |posts| <= r + 1
    && w.replies == posts + w1.replies
    && (forall i :: 0 <= i < |posts| ==>
          (i + 1 < |posts| <==>
             && i < r
             && !posts[i].Accepted?
             && (posts[i].HttpFailure? ==> posts[i].status == 429 || posts[i].status >= 500)))
    && w1.sends == w.sends + [Send(events, posts, posts[|posts| - 1].Accepted?)]
    && w1.queue == w.queue
    && (!posts[|posts| - 1].Accepted? ==> w1.outbox == w.outbox)
    && w1.sleptMs == w.sleptMs + 25 * |posts| * (|posts| - 1) <= w.sleptMs + 25 * r * (r + 1)
    && outcome ==
         match posts[|posts| - 1]
         case Accepted(response) =>
           if rejectAsError && response.rejected > 0 then Failed(RejectedEvents(response.rejected)) else Done
         case last => Failed(PostFailed(last))
  }

  /** The answers after which a batch is posted again, with their numbers. */
  lemma {:induction false} TransientExactly(posts: seq<Reply>, r: nat)
    requires 1 <= |posts| <= r + 1
    requires forall i :: 0 <= i < |posts| - 1 ==> !EndsLoop(posts[i], i, r)
    requires EndsLoop(posts[|posts| - 1], |posts| - 1, r)
    ensures forall i :: 0 <= i < |posts| ==>
              (i + 1 < |posts| <==>
                 && i < r
                 && !posts[i].Accepted?
                 && (posts[i].HttpFailure? ==> posts[i].status == 429 || posts[i].status >= 500))
  {}

  /** Without an endpoint or a key nothing is posted, slept for or removed: the batch only counts as failed. */
  lemma {:induction false} UnconfiguredFails(config: Config, w: World, events: seq<Event>, rejectAsError: bool)
    requires events != [] && !Configured(config)
    ensures var (w1, outcome) := SendBatch(config, w, events, rejectAsError);
            && outcome == Failed(if config.hasEndpoint then ApiKeyEmpty else EndpointEmpty)
            && w1 == w.(stats := w1.stats, sends := w.sends + [Send(events, [], false)])
            && w1.stats.failedBatches == w.stats.failedBatches + 1
            && w1.stats.failedEvents == w.stats.failedEvents + |events|
  {}

  lemma {:induction false} SleepGrows(k: nat, n: nat)
    requires 1 <= k <= n
    ensures SleepMs(k) <= SleepMs(n) == 25 * (n - 1) * n
    decreases n
  {
    if k < n {
      SleepGrows(k, n - 1);
    }
  }

  // ----- Counters

  /** The counters as the log of sends determines them. */
  function StatsOf(sends: seq<Send>): Stats {
    if sends == [] then Stats(0, 0, 0, 0, 0, 0, 0) else Plus(StatsOf(sends[..|sends| - 1]), sends[|sends| - 1])
  }

  /** One more send on the counters. */
  function Plus(n: Stats, send: Send): Stats {
    if !send.acked then n.(failedBatches := n.failedBatches + 1, failedEvents := n.failedEvents + |send.events|)
    else
      n.(sentBatches := n.sentBatches + 1, sentEvents := n.sentEvents + |send.events|,
         accepted := n.accepted + Answer(send).accepted, duplicated := n.duplicated + Answer(send).duplicated,
         rejected := n.rejected + Answer(send).rejected)
  }

  /** What the server said of an acknowledged batch: its last answer. */
  function Answer(send: Send): BatchResponse {
    if send.posts != [] && send.posts[|send.posts| - 1].Accepted? then send.posts[|send.posts| - 1].response
    else BatchResponse(0, 0, 0)
  }

  ghost predicate CountersTold(w: World) {
    w.stats == StatsOf(w.sends)
  }

  lemma {:induction false} StatsSnoc(sends: seq<Send>, send: Send)
    ensures StatsOf(sends + [send]) == Plus(StatsOf(sends), send)
  {
    assert (sends + [send])[..|sends|] == sends;
  }

  lemma {:induction false} ConcludedCounts(w: World, events: seq<Event>, posts: seq<Reply>, rejectAsError: bool)
    requires CountersTold(w) && posts != []
    ensures CountersTold(Concluded(w, events, posts, rejectAsError).0)
  {
    var w1 := Concluded(w, events, posts, rejectAsError).0;
    var send := Send(events, posts, posts[|posts| - 1].Accepted?);
    StatsSnoc(w.sends, send);
    assert w1.sends == w.sends + [send];
    assert w1.stats == Plus(w.stats, send);
  }

  lemma {:induction false} FailedCounts(w: World, events: seq<Event>)
    requires CountersTold(w)
    ensures CountersTold(BatchFailed(w, events, []))
  {
    StatsSnoc(w.sends, Send(events, [], false));
  }

  lemma {:induction false} SendBatchCounts(config: Config, w: World, events: seq<Event>, rejectAsError: bool)
    requires CountersTold(w)
    ensures CountersTold(SendBatch(config, w, events, rejectAsError).0)
  {
    if !Configured(config) {
      FailedCounts(w, events);
    } else {
      PostLoopFrame(config.retryAttempts, w, 0, []);
      var (w0, posts, cut) := PostLoop(config.retryAttempts, w, 0, []);
      assert w0.stats == w.stats && w0.sends == w.sends;
      if !cut && posts != [] {
        ConcludedCounts(w0, events, posts, rejectAsError);
      }
    }
  }

  lemma {:induction false} DrainQueueCounts(config: Config, w: World, first: Outcome)
    requires CountersTold(w)
    ensures CountersTold(DrainQueue(config, w, first).0)
    decreases |w.queue|
  {
    if w.queue != [] {
      var n := Taken(w.queue, config.batchSize);
      var w0 := w.(queue := w.queue[n..]);
      SendBatchFrame(config, w0, w.queue[..n], false);
      SendBatchCounts(config, w0, w.queue[..n], false);
      var (w1, outcome) := SendBatch(config, w0, w.queue[..n], false);
      DrainQueueCounts(config, w1, if first.Done? then outcome else first);
    }
  }

  lemma {:induction false} DrainOutboxCounts(config: Config, w: World)
    requires CountersTold(w)
    ensures CountersTold(DrainOutbox(config, w).0)
    decreases |w.replies|
  {
    if w.outbox.Some? && !DiskFails(w) {
      var events := Peeked(w.outbox.value, config.batchSize);
      if events != [] {
        SendBatchFrame(config, DiskUsed(w), events, false);
        SendBatchCounts(config, DiskUsed(w), events, false);
        if SendBatch(config, DiskUsed(w), events, false).1.Done? {
          DrainOutboxCounts(config, SendBatch(config, DiskUsed(w), events, false).0);
        }
      }
    }
  }

  /** Through a whole flush the counters say what the log of sends says: nothing is missed or counted twice. */
  lemma {:induction false} CountersFollowSends(config: Config, w: World)
    requires CountersTold(w)
    ensures CountersTold(SendQueued(config, w).0)
  {
    DrainQueueCounts(config, w, Done);
    DrainOutboxCounts(config, DrainQueue(config, w, Done).0);
  }

  // ----- Batching

  /** The buffer cut into batches, oldest first. */
  function Chunks(q: seq<Event>, size: int): seq<seq<Event>>
    decreases |q|
  {
    if q == [] then [] else [q[..Taken(q, size)]] + Chunks(q[Taken(q, size)..], size)
  }

  function Flatten(chunks: seq<seq<Event>>): seq<Event> {
    if chunks == [] then [] else chunks[0] + Flatten(chunks[1..])
  }

  /** The batches are the buffer, in order, none empty and none over the size. */
  lemma {:induction false} ChunksCover(q: seq<Event>, size: int)
    requires size >= 1
    ensures Flatten(Chunks(q, size)) == q
    ensures forall i :: 0 <= i < |Chunks(q, size)| ==> 1 <= |Chunks(q, size)[i]| <= size
    decreases |q|
  {
    if q != [] {
      var n := Taken(q, size);
      var chunks, rest := Chunks(q, size), Chunks(q[n..], size);
      ChunksCover(q[n..], size);
      assert chunks == [q[..n]] + rest;
      assert chunks[1..] == rest;
      assert q == q[..n] + q[n..];
      forall i | 0 <= i < |chunks|
        ensures 1 <= |chunks[i]| <= size
      {
        assert i > 0 ==> chunks[i] == rest[i - 1];
      }
    }
  }

  /** Their number is the buffer's length over the size, rounded up. */
  lemma {:induction false} ChunksCount(q: seq<Event>, size: int)
    requires size >= 1
    ensures |q| <= |Chunks(q, size)| * size < |q| + size
    decreases |q|
  {
    if q != [] {
      var n := Taken(q, size);
      ChunksCount(q[n..], size);
      Distribute(|Chunks(q[n..], size)|, size);
    }
  }

  lemma Distribute(k: nat, size: int)
    ensures (1 + k) * size == size + k * size
  {}

  /** The error a batch that was not acknowledged reported. */
  function ErrorOf(config: Config, send: Send): SendError {
    if send.posts != [] then PostFailed(send.posts[|send.posts| - 1])
    else if !config.hasEndpoint then EndpointEmpty
    else ApiKeyEmpty
  }

  /** Of the outcome so far and the sends that followed: the first failure, if any. */
  function FirstFailure(config: Config, first: Outcome, sends: seq<Send>): Outcome
    decreases |sends|
  {
    if sends == [] then first
    else
      FirstFailure(config, if first.Done? && !sends[0].acked then Failed(ErrorOf(config, sends[0])) else first,
                   sends[1..])
  }

  lemma {:induction false} SendBatchLogs(config: Config, w: World, events: seq<Event>)
    requires events != []
    ensures var (w1, outcome) := SendBatch(config, w, events, false);
            !outcome.Cut? ==>
              && |w1.sends| == |w.sends| + 1 && w1.sends[..|w.sends|] == w.sends
              && var send := w1.sends[|w.sends|];
                 && send.events == events
                 && outcome == if send.acked then Done else Failed(ErrorOf(config, send))
  {
    PostLoopFrame(config.retryAttempts, w, 0, []);
  }

  /** The sends since `w` are of the batches, in order. */
  ghost predicate Tried(w: World, w1: World, chunks: seq<seq<Event>>) {
    && |w1.sends| == |w.sends| + |chunks| && w1.sends[..|w.sends|] == w.sends
    && forall i :: 0 <= i < |chunks| ==> w1.sends[|w.sends| + i].events == chunks[i]
  }

  lemma {:induction false} TriedMore(w: World, w1: World, w2: World, batch: seq<Event>, chunks: seq<seq<Event>>)
    requires Tried(w, w1, [batch]) && Tried(w1, w2, chunks)
    ensures Tried(w, w2, [batch] + chunks)
    ensures w2.sends[|w.sends|..] == [w1.sends[|w.sends|]] + w2.sends[|w1.sends|..]
  {
    var n := |w.sends|;
    assert w2.sends[..n] == w2.sends[..n + 1][..n];
    assert w2.sends[n] == w2.sends[..n + 1][n];
    forall i | 0 <= i < 1 + |chunks|
      ensures w2.sends[n + i].events == ([batch] + chunks)[i]
    {
      if i > 0 {
        assert w2.sends[n + 1 + (i - 1)].events == chunks[i - 1];
      }
    }
  }

  /**
    * `sendQueued` tries every batch of the buffer, in order and whatever happened to the ones before, leaves
    * the buffer empty, and reports the first failure among them.
    */
  lemma {:induction false} DrainSendsEveryBatch(config: Config, w: World, first: Outcome)
    requires !first.Cut?
    ensures var (w1, outcome) := DrainQueue(config, w, first);
            !outcome.Cut? ==>
              && w1.queue == []
              && Tried(w, w1, Chunks(w.queue, config.batchSize))
              && outcome == FirstFailure(config, first, w1.sends[|w.sends|..])
    decreases |w.queue|
  {
    if w.queue != [] {
      var n := Taken(w.queue, config.batchSize);
      var w0 := w.(queue := w.queue[n..]);
      var (w1, outcome) := SendBatch(config, w0, w.queue[..n], false);
      SendBatchFrame(config, w0, w.queue[..n], false);
      SendBatchLogs(config, w0, w.queue[..n]);
      if !outcome.Cut? {
        var next := if first.Done? then outcome else first;
        DrainSendsEveryBatch(config, w1, next);
        var (w2, last) := DrainQueue(config, w1, next);
        if !last.Cut? {
          assert Tried(w, w1, [w.queue[..n]]);
          TriedMore(w, w1, w2, w.queue[..n], Chunks(w.queue[n..], config.batchSize));
          assert w2.sends[|w.sends|..][1..] == w2.sends[|w1.sends|..];
        }
      }
    }
  }

  // ----- A flush without interference

  /** How many acknowledged batches held the ID. */
  function Deliveries(sends: seq<Send>, id: Text): nat {
    if sends == [] then 0
    else
      var last := sends[|sends| - 1];
      Deliveries(sends[..|sends| - 1], id) + if last.acked && id in Ids(last.events) then 1 else 0
  }

  /** How many of the batches hold the ID. */
  function Holding(chunks: seq<seq<Event>>, id: Text): nat {
    if chunks == [] then 0 else (if id in Ids(chunks[0]) then 1 else 0) + Holding(chunks[1..], id)
  }

  lemma {:induction false} DeliveriesSnoc(sends: seq<Send>, send: Send, id: Text)
    ensures Deliveries(sends + [send], id)
         == Deliveries(sends, id) + if send.acked && id in Ids(send.events) then 1 else 0
  {
    assert (sends + [send])[..|sends|] == sends;
  }

  /** With a working disk, an acknowledged batch leaves the outbox without its IDs and nothing else missing. */
  lemma {:induction false} SendBatchDone(config: Config, w: World, events: seq<Event>)
    requires events != [] && Healthy(w)
    requires SendBatch(config, w, events, false).1.Done?
    ensures var w1 := SendBatch(config, w, events, false).0;
            && Healthy(w1)
            && Backlog(w1) == Without(Backlog(w), RemovableIds(events))
  {
    PostLoopFrame(config.retryAttempts, w, 0, []);
    WithoutNone(Backlog(w));
  }

  lemma {:induction false} SendBatchDelivers(config: Config, w: World, events: seq<Event>, id: Text)
    requires events != [] && SendBatch(config, w, events, false).1.Done?
    ensures Deliveries(SendBatch(config, w, events, false).0.sends, id)
         == Deliveries(w.sends, id) + if id in Ids(events) then 1 else 0
  {
    var w1 := SendBatch(config, w, events, false).0;
    SendBatchLogs(config, w, events);
    assert w1.sends == w.sends + [w1.sends[|w.sends|]];
    DeliveriesSnoc(w.sends, w1.sends[|w.sends|], id);
  }

  /** The first batch of a drain that succeeds: it succeeds, and so does the rest. */
  lemma {:induction false} DrainQueueFirst(config: Config, w: World)
    requires w.queue != [] && DrainQueue(config, w, Done).1.Done?
    ensures var n := Taken(w.queue, config.batchSize);
            var (w1, outcome) := SendBatch(config, w.(queue := w.queue[n..]), w.queue[..n], false);
            && outcome.Done?
            && w1.queue == w.queue[n..]
            && DrainQueue(config, w1, Done) == DrainQueue(config, w, Done)
  {
    var n := Taken(w.queue, config.batchSize);
    var w0 := w.(queue := w.queue[n..]);
    SendBatchFrame(config, w0, w.queue[..n], false);
    var (w1, outcome) := SendBatch(config, w0, w.queue[..n], false);
    NotDoneStays(config, w1, outcome);
  }

  /** The same, of a healthy disk: where the first batch leaves the outbox. */
  lemma {:induction false} DrainQueueStep(config: Config, w: World, n: nat) returns (w1: World)
    requires w.queue != [] && Healthy(w) && DrainQueue(config, w, Done).1.Done? && n == Taken(w.queue, config.batchSize)
    ensures Healthy(w1) && w1.queue == w.queue[n..] && DrainQueue(config, w1, Done) == DrainQueue(config, w, Done)
    ensures Backlog(w1) == Without(Backlog(w), RemovableIds(w.queue[..n]))
  {
    DrainQueueFirst(config, w);
    var w0 := w.(queue := w.queue[n..]);
    SendBatchDone(config, w0, w.queue[..n]);
    w1 := SendBatch(config, w0, w.queue[..n], false).0;
  }

  lemma {:induction false} DrainQueueDone(config: Config, w: World)
    requires Healthy(w) && DrainQueue(config, w, Done).1.Done?
    ensures var w1 := DrainQueue(config, w, Done).0;
            && w1.queue == []
            && Healthy(w1)
            && Backlog(w1) == Without(Backlog(w), RemovableIds(w.queue))
    decreases |w.queue|
  {
    if w.queue == [] {
      assert RemovableIds(w.queue) == {};
      WithoutNone(Backlog(w));
    } else {
      var n := Taken(w.queue, config.batchSize);
      var batch, rest := w.queue[..n], w.queue[n..];
      var w1 := DrainQueueStep(config, w, n);
      DrainQueueDone(config, w1);
      WithoutBoth(Backlog(w), batch, rest);
      assert w.queue == batch + rest;
    }
  }

  lemma {:induction false} RemovableIdsConcat(a: seq<Event>, b: seq<Event>)
    ensures RemovableIds(a + b) == RemovableIds(a) + RemovableIds(b)
  {}

  lemma {:induction false} WithoutBoth(lines: seq<Line>, a: seq<Event>, b: seq<Event>)
    ensures Without(Without(lines, RemovableIds(a)), RemovableIds(b)) == Without(lines, RemovableIds(a + b))
  {
    WithoutTwice(lines, RemovableIds(a), RemovableIds(b));
    RemovableIdsConcat(a, b);
  }

  lemma {:induction false} DrainQueueDelivers(config: Config, w: World, id: Text)
    requires Healthy(w) && DrainQueue(config, w, Done).1.Done?
    ensures Deliveries(DrainQueue(config, w, Done).0.sends, id)
         == Deliveries(w.sends, id) + Holding(Chunks(w.queue, config.batchSize), id)
    decreases |w.queue|
  {
    if w.queue != [] {
      var n := Taken(w.queue, config.batchSize);
      var batch, rest := w.queue[..n], w.queue[n..];
      DrainQueueFirst(config, w);
      SendBatchDone(config, w.(queue := rest), batch);
      SendBatchDelivers(config, w.(queue := rest), batch, id);
      DrainQueueDelivers(config, SendBatch(config, w.(queue := rest), batch, false).0, id);
      assert Chunks(w.queue, config.batchSize)[1..] == Chunks(rest, config.batchSize);
    }
  }

  lemma {:induction false} NotDoneStays(config: Config, w: World, first: Outcome)
    ensures DrainQueue(config, w, first).1.Done? ==> first.Done?
    decreases |w.queue|
  {
    if w.queue != [] {
      var n := Taken(w.queue, config.batchSize);
      SendBatchFrame(config, w.(queue := w.queue[n..]), w.queue[..n], false);
      var (w1, outcome) := SendBatch(config, w.(queue := w.queue[n..]), w.queue[..n], false);
      NotDoneStays(config, w1, if first.Done? then outcome else first);
    }
  }

  /** A round of `sendOutbox`: the batch it reads and the world it reads it in. */
  function Round(config: Config, w: World): (World, seq<Event>) {
    (DiskUsed(w), Peeked(Backlog(w), config.batchSize))
  }

  lemma {:induction false} RoundIds(lines: seq<Line>, max: int)
    ensures Ids(Peeked(lines, max)) <= StoredIds(lines)
  {
    StoredIdsDecoded(lines);
  }

  lemma {:induction false} DrainOutboxDone(config: Config, w: World)
    requires Healthy(w) && DrainOutbox(config, w).1.Done?
    ensures var w1 := DrainOutbox(config, w).0;
            && w1.queue == w.queue
            && Decoded(Backlog(w1)) == []
            && JunkOf(Backlog(w1)) == JunkOf(Backlog(w))
            && [] !in StoredIds(Backlog(w))
    decreases |w.replies|
  {
    var lines := Backlog(w);
    StoredIdsDecoded(lines);
    if w.outbox.Some? {
      var (w0, events) := Round(config, w);
      if events != [] {
        SendBatchFrame(config, w0, events, false);
        SendBatchDone(config, w0, events);
        WithoutRemoves(lines, RemovableIds(events));
        DrainOutboxDone(config, SendBatch(config, w0, events, false).0);
      }
    }
  }

  lemma {:induction false} DrainOutboxDelivers(config: Config, w: World, id: Text)
    requires Healthy(w) && DrainOutbox(config, w).1.Done?
    ensures Deliveries(DrainOutbox(config, w).0.sends, id)
         == Deliveries(w.sends, id) + if id in StoredIds(Backlog(w)) then 1 else 0
    decreases |w.replies|
  {
    var lines := Backlog(w);
    StoredIdsDecoded(lines);
    DrainOutboxDone(config, w);
    if w.outbox.Some? {
      var (w0, events) := Round(config, w);
      if events != [] {
        SendBatchFrame(config, w0, events, false);
        SendBatchDone(config, w0, events);
        SendBatchDelivers(config, w0, events, id);
        RoundIds(lines, config.batchSize);
        WithoutRemoves(lines, RemovableIds(events));
        DrainOutboxDelivers(config, SendBatch(config, w0, events, false).0, id);
      }
    }
  }

  lemma {:induction false} HoldingNone(q: seq<Event>, size: int, id: Text)
    ensures Holding(Chunks(q, size), id) > 0 <==> id in Ids(q)
    decreases |q|
  {
    if q != [] {
      var n := Taken(q, size);
      HoldingNone(q[n..], size, id);
      assert q == q[..n] + q[n..];
      assert Ids(q) == Ids(q[..n]) + Ids(q[n..]);
      assert Chunks(q, size)[1..] == Chunks(q[n..], size);
    }
  }

  ghost predicate DistinctIds(events: seq<Event>) {
    forall i, j :: 0 <= i < j < |events| ==> events[i].eventId != events[j].eventId
  }

  lemma {:induction false} DistinctSplit(q: seq<Event>, n: nat, id: Text)
    requires DistinctIds(q) && n <= |q| && id in Ids(q)
    ensures DistinctIds(q[n..])
    ensures id in Ids(q[..n]) <==> id !in Ids(q[n..])
  {
    var k :| 0 <= k < |q| && q[k].eventId == id;
    if k < n {
      assert q[..n][k] == q[k];
      forall j | 0 <= j < |q| - n
        ensures q[n..][j].eventId != id
      {
        assert q[n..][j] == q[n + j];
      }
    } else {
      assert q[n..][k - n] == q[k];
      forall j | 0 <= j < n
        ensures q[..n][j].eventId != id
      {
        assert q[..n][j] == q[j];
      }
    }
  }

  lemma {:induction false} HoldingOnce(q: seq<Event>, size: int, id: Text)
    requires DistinctIds(q) && id in Ids(q)
    ensures Holding(Chunks(q, size), id) == 1
    decreases |q|
  {
    var n := Taken(q, size);
    DistinctSplit(q, n, id);
    HoldingNone(q[n..], size, id);
    assert Chunks(q, size)[1..] == Chunks(q[n..], size);
    if id in Ids(q[n..]) {
      HoldingOnce(q[n..], size, id);
    }
  }

  /**
    * A flush that returns no error while nobody else interferes and the disk works: the buffer is empty, no
    * decodable line is left in the outbox and no junk line is lost, and every ID was acknowledged in exactly
    * as many batches as the buffer held it in, or in exactly one batch when only the outbox held it.
    */
  lemma {:induction false} FlushDelivers(config: Config, w: World)
    requires Healthy(w) && SendQueued(config, w).1.Done?
    ensures var w1 := SendQueued(config, w).0;
            && w1.queue == []
            && Decoded(Backlog(w1)) == []
            && JunkOf(Backlog(w1)) == JunkOf(Backlog(w))
            && forall id :: Deliveries(w1.sends, id) == Deliveries(w.sends, id)
                 + if id in Ids(w.queue) then Holding(Chunks(w.queue, config.batchSize), id)
                   else if id in StoredIds(Backlog(w)) then 1
                   else 0
  {
    DrainQueueDone(config, w);
    var wq := DrainQueue(config, w, Done).0;
    WithoutRemoves(Backlog(w), RemovableIds(w.queue));
    DrainOutboxDone(config, wq);
    var w1 := SendQueued(config, w).0;
    forall id
      ensures Deliveries(w1.sends, id) == Deliveries(w.sends, id)
           + if id in Ids(w.queue) then Holding(Chunks(w.queue, config.batchSize), id)
             else if id in StoredIds(Backlog(w)) then 1
             else 0
    {
      HoldingNone(w.queue, config.batchSize, id);
      DrainQueueDelivers(config, w, id);
      DrainOutboxDelivers(config, wq, id);
    }
  }

  /** With distinct IDs in the buffer, a quiet flush delivers every ID of buffer and outbox exactly once. */
  lemma {:induction false} QuietFlushExact(config: Config, w: World, id: Text)
    requires Healthy(w) && SendQueued(config, w).1.Done? && DistinctIds(w.queue)
    ensures Deliveries(SendQueued(config, w).0.sends, id)
         == Deliveries(w.sends, id) + if id in Ids(w.queue) || id in StoredIds(Backlog(w)) then 1 else 0
  {
    FlushDelivers(config, w);
    if id in Ids(w.queue) {
      HoldingOnce(w.queue, config.batchSize, id);
    }
  }

  // ----- Termination of sendOutbox

  /** Each acknowledged round leaves strictly fewer decodable lines, unless its batch has no ID to remove. */
  lemma {:induction false} RoundShrinks(config: Config, w: World)
    requires Healthy(w)
    requires var (w0, events) := Round(config, w);
             RemovableIds(events) != {} && SendBatch(config, w0, events, false).1.Done?
    ensures var (w0, events) := Round(config, w);
            |Decoded(Backlog(SendBatch(config, w0, events, false).0))| < |Decoded(Backlog(w))|
  {
    var (w0, events) := Round(config, w);
    SendBatchDone(config, w0, events);
    RoundIds(Backlog(w), config.batchSize);
    var id :| id in RemovableIds(events);
    assert id in StoredIds(Backlog(w)) * RemovableIds(events);
    WithoutShrinks(Backlog(w), RemovableIds(events));
  }

  /** The disk accesses to come that fail. */
  function Faults(disk: seq<bool>): (n: nat)
    ensures true !in disk ==> n == 0
  {
    if disk == [] then 0 else (if disk[0] then 1 else 0) + Faults(disk[1..])
  }

  /** What the drain can still spend a round on: a record to remove, or a removal that fails. */
  function Rounds(w: World): nat {
    |Decoded(Backlog(w))| + Faults(w.disk)
  }

  /**
    * If every record has an ID, draining the outbox ends, whatever the disk does: it needs no more answers than
    * the retries of one batch for each record and for each access of the disk that fails.
    */
  lemma {:induction false} OutboxDrainEnds(config: Config, w: World)
    requires [] !in StoredIds(Backlog(w))
    requires |w.replies| >= Rounds(w) * (config.retryAttempts + 1)
    ensures !DrainOutbox(config, w).1.Cut?
    decreases Rounds(w)
  {
    var (w0, events) := Round(config, w);
    if w.outbox.Some? && !DiskFails(w) && events != [] {
      var (w1, outcome) := SendBatch(config, w0, events, false);
      assert Decoded(Backlog(w)) != [];
      BudgetStep(Rounds(w), 0, config.retryAttempts + 1);
      RoundProgress(config, w);
      if outcome.Done? {
        BudgetStep(Rounds(w), Rounds(w1), config.retryAttempts + 1);
        OutboxDrainEnds(config, w1);
      }
    }
  }

  /** An acknowledged batch, whatever the disk: its IDs are gone, or a fault of the disk is. */
  lemma {:induction false} AckedTrims(config: Config, w: World, events: seq<Event>)
    requires RemovableIds(events) != {} && w.outbox.Some? && SendBatch(config, w, events, false).1.Done?
    ensures var w1 := SendBatch(config, w, events, false).0;
            if DiskFails(w) then Backlog(w1) == Backlog(w) && Faults(w1.disk) < Faults(w.disk)
            else Backlog(w1) == Without(Backlog(w), RemovableIds(events)) && Faults(w1.disk) == Faults(w.disk)
  {
    assert events != [];
    PostLoopFrame(config.retryAttempts, w, 0, []);
  }

  lemma {:induction false} RoundSpends(config: Config, w: World)
    requires [] !in StoredIds(Backlog(w)) && w.outbox.Some? && !DiskFails(w) && Round(config, w).1 != []
    requires var (w0, events) := Round(config, w); SendBatch(config, w0, events, false).1.Done?
    ensures var (w0, events) := Round(config, w);
            var w1 := SendBatch(config, w0, events, false).0;
            [] !in StoredIds(Backlog(w1)) && Rounds(w1) < Rounds(w)
  {
    var lines := Backlog(w);
    var (w0, events) := Round(config, w);
    RoundIds(lines, config.batchSize);
    assert events[0].eventId in RemovableIds(events);
    assert events[0].eventId in StoredIds(lines) * RemovableIds(events);
    assert Faults(w0.disk) == Faults(w.disk);
    AckedTrims(config, w0, events);
    WithoutRemoves(lines, RemovableIds(events));
    WithoutShrinks(lines, RemovableIds(events));
  }

  lemma {:induction false} RoundProgress(config: Config, w: World)
    requires [] !in StoredIds(Backlog(w)) && w.outbox.Some? && !DiskFails(w)
    requires Round(config, w).1 != [] && |w.replies| >= config.retryAttempts + 1
    ensures var (w0, events) := Round(config, w);
            var (w1, outcome) := SendBatch(config, w0, events, false);
            && !outcome.Cut?
            && (outcome.Done? ==>
                  && [] !in StoredIds(Backlog(w1))
                  && Rounds(w1) < Rounds(w)
                  && |w1.replies| >= |w.replies| - (config.retryAttempts + 1))
  {
    var (w0, events) := Round(config, w);
    EnoughReplies(config, w0, events);
    if SendBatch(config, w0, events, false).1.Done? {
      RoundSpends(config, w);
    }
  }

  lemma BudgetStep(records: nat, left: nat, cost: nat)
    requires left < records
    ensures left * cost + cost <= records * cost
  {
    var spare := records - left - 1;
    assert records * cost == left * cost + cost + spare * cost;
    assert spare * cost >= 0;
  }

  lemma {:induction false} EnoughReplies(config: Config, w: World, events: seq<Event>)
    requires |w.replies| >= config.retryAttempts + 1
    ensures var (w1, outcome) := SendBatch(config, w, events, false);
            !outcome.Cut? && |w1.replies| >= |w.replies| - (config.retryAttempts + 1)
  {
    PostLoopFrame(config.retryAttempts, w, 0, []);
    PostLoopShape(config.retryAttempts, w, 0, []);
    NotCutYet(config.retryAttempts, w, 0, []);
  }

  lemma {:induction false} NotCutYet(retries: nat, w: World, attempt: nat, posts: seq<Reply>)
    requires attempt <= retries && |w.replies| >= retries + 1 - attempt
    ensures !PostLoop(retries, w, attempt, posts).2
    decreases retries - attempt
  {
    if !EndsLoop(w.replies[0], attempt, retries) {
      NotCutYet(retries, w.(replies := w.replies[1..], sleptMs := w.sleptMs + (attempt + 1) * 50),
                attempt + 1, posts + [w.replies[0]]);
    }
  }

  ghost predicate AllAccepted(replies: seq<Reply>) {
    forall i :: 0 <= i < |replies| ==> replies[i].Accepted?
  }

  lemma {:induction false} AcceptedFirst(config: Config, w: World, events: seq<Event>)
    requires events != [] && Configured(config) && AllAccepted(w.replies)
    ensures var (w1, outcome) := SendBatch(config, w, events, false);
            if w.replies == [] then outcome.Cut? else outcome.Done? && w1.replies == w.replies[1..]
  {}

  /**
    * A server that accepts everything and a disk that works are not enough: one record without an ID is sent
    * again and again, for as long as the server answers.
    */
  lemma {:induction false} NamelessRecordNeverEnds(config: Config, w: World)
    requires Healthy(w) && Configured(config) && AllAccepted(w.replies)
    requires [] in StoredIds(Backlog(w))
    ensures DrainOutbox(config, w).1.Cut?
    decreases |w.replies|
  {
    var lines := Backlog(w);
    var (w0, events) := Round(config, w);
    StoredIdsDecoded(lines);
    SendBatchFrame(config, w0, events, false);
    AcceptedFirst(config, w0, events);
    if w.replies != [] {
      SendBatchDone(config, w0, events);
      WithoutRemoves(lines, RemovableIds(events));
      NamelessRecordNeverEnds(config, SendBatch(config, w0, events, false).0);
    }
  }

  /** Of the disk accesses to come, every first one works and every second one fails. */
  ghost predicate EverySecondFails(disk: seq<bool>) {
    forall k :: 0 <= k < |disk| ==> disk[k] == (k % 2 == 1)
  }

  lemma {:induction false} RemovalFails(config: Config, w: World, events: seq<Event>)
    requires Configured(config) && AllAccepted(w.replies) && w.replies != [] && w.outbox.Some?
    requires RemovableIds(events) != {} && DiskFails(w)
    ensures var (w1, outcome) := SendBatch(config, w, events, false);
            outcome.Done? && w1.replies == w.replies[1..] && w1.outbox == w.outbox && w1.disk == w.disk[1..]
  {
    assert events != [];
    AcceptedFirst(config, w, events);
  }

  /**
    * The other endless loop: the error of a removal is swallowed, so with reads that work and removals that do
    * not, an accepting server gets the same batch for as long as it answers, although every record has an ID.
    */
  lemma {:induction false} SwallowedRemovalNeverEnds(config: Config, w: World)
    requires Configured(config) && AllAccepted(w.replies) && w.outbox.Some?
    requires EverySecondFails(w.disk) && |w.disk| >= 2 * |w.replies|
    requires RemovableIds(Peeked(Backlog(w), config.batchSize)) != {}
    ensures DrainOutbox(config, w).1.Cut?
    decreases |w.replies|
  {
    var (w0, events) := Round(config, w);
    assert events != [];
    SendBatchFrame(config, w0, events, false);
    if w.replies == [] {
      AcceptedFirst(config, w0, events);
    } else {
      RemovalFails(config, w0, events);
      var w1 := SendBatch(config, w0, events, false).0;
      assert w1.disk == w.disk[2..];
      SwallowedRemovalNeverEnds(config, w1);
    }
  }

  /**
    * Exactly when the drain ends, against a server that accepts everything and has an answer for each record,
    * and with a working disk: if and only if every record has an ID. Then it also succeeds.
    */
  lemma {:induction false} OutboxDrainEndsIff(config: Config, w: World)
    requires Healthy(w) && Configured(config) && AllAccepted(w.replies)
    requires |w.replies| >= |Decoded(Backlog(w))|
    ensures DrainOutbox(config, w).1.Done? <==> [] !in StoredIds(Backlog(w))
    ensures DrainOutbox(config, w).1.Cut? <==> [] in StoredIds(Backlog(w))
    decreases |w.replies|
  {
    var lines := Backlog(w);
    if [] in StoredIds(lines) {
      NamelessRecordNeverEnds(config, w);
    } else {
      var (w0, events) := Round(config, w);
      if w.outbox.Some? && events != [] {
        RoundIds(lines, config.batchSize);
        assert events[0].eventId in RemovableIds(events);
        SendBatchFrame(config, w0, events, false);
        AcceptedFirst(config, w0, events);
        SendBatchDone(config, w0, events);
        RoundShrinks(config, w);
        WithoutRemoves(lines, RemovableIds(events));
        OutboxDrainEndsIff(config, SendBatch(config, w0, events, false).0);
      }
    }
  }

  // ----- The sizes of batches, and what a drain's success means on any disk

  /** Every send logged since holds at least one event and no more than the batch size, if that is positive. */
  ghost predicate SizesKept(config: Config, from: nat, sends: seq<Send>) {
    from <= |sends| && forall i :: from <= i < |sends| ==>
      1 <= |sends[i].events| && (config.batchSize > 0 ==> |sends[i].events| <= config.batchSize)
  }

  lemma {:induction false} SendBatchSize(config: Config, w: World, events: seq<Event>, from: nat)
    requires SizesKept(config, from, w.sends)
    requires events != [] && (config.batchSize > 0 ==> |events| <= config.batchSize)
    ensures SizesKept(config, from, SendBatch(config, w, events, false).0.sends)
  {
    SendBatchFrame(config, w, events, false);
    SendBatchLogs(config, w, events);
    var (w1, outcome) := SendBatch(config, w, events, false);
    if !outcome.Cut? {
      assert forall i :: 0 <= i < |w.sends| ==> w1.sends[i] == w1.sends[..|w.sends|][i];
    }
  }

  lemma {:induction false} DrainQueueSizes(config: Config, w: World, first: Outcome, from: nat)
    requires SizesKept(config, from, w.sends)
    ensures SizesKept(config, from, DrainQueue(config, w, first).0.sends)
    decreases |w.queue|
  {
    if w.queue != [] {
      var n := Taken(w.queue, config.batchSize);
      var w0 := w.(queue := w.queue[n..]);
      SendBatchFrame(config, w0, w.queue[..n], false);
      SendBatchSize(config, w0, w.queue[..n], from);
      var (w1, outcome) := SendBatch(config, w0, w.queue[..n], false);
      if !outcome.Cut? {
        DrainQueueSizes(config, w1, if first.Done? then outcome else first, from);
      }
    }
  }

  lemma {:induction false} DrainOutboxSizes(config: Config, w: World, from: nat)
    requires SizesKept(config, from, w.sends)
    ensures SizesKept(config, from, DrainOutbox(config, w).0.sends)
    decreases |w.replies|
  {
    var (w0, events) := Round(config, w);
    if w.outbox.Some? && !DiskFails(w) && events != [] {
      SendBatchFrame(config, w0, events, false);
      SendBatchSize(config, w0, events, from);
      if SendBatch(config, w0, events, false).1.Done? {
        DrainOutboxSizes(config, SendBatch(config, w0, events, false).0, from);
      }
    }
  }

  /** No batch of a flush, from the buffer or from the outbox, is empty or larger than the batch size. */
  lemma {:induction false} BatchesWithinSize(config: Config, w: World)
    ensures SizesKept(config, |w.sends|, SendQueued(config, w).0.sends)
  {
    DrainQueueSizes(config, w, Done, |w.sends|);
    DrainOutboxSizes(config, DrainQueue(config, w, Done).0, |w.sends|);
  }

  /**
    * On any disk: a drain of the outbox that reports success leaves no decodable line, and one that reports an
    * unreadable file has met a failing access.
    */
  lemma {:induction false} DrainOutboxTells(config: Config, w: World)
    ensures var (w1, outcome) := DrainOutbox(config, w);
            && (outcome.Done? ==> Decoded(Backlog(w1)) == [])
            && (outcome == Failed(OutboxUnreadable) ==> true in w.disk)
            && w1.queue == w.queue
    decreases |w.replies|
  {
    var (w0, events) := Round(config, w);
    if w.outbox.Some? && !DiskFails(w) && events != [] {
      var (w1, outcome) := SendBatch(config, w0, events, false);
      SendBatchFrame(config, w0, events, false);
      SendBatchErrors(config, w0, events);
      if outcome.Done? {
        DrainOutboxTells(config, w1);
      }
    }
  }

  lemma {:induction false} SendBatchErrors(config: Config, w: World, events: seq<Event>)
    ensures var (w1, outcome) := SendBatch(config, w, events, false);
            && outcome != Failed(OutboxUnreadable)
            && (true in w1.disk ==> true in w.disk)
  {
    PostLoopFrame(config.retryAttempts, w, 0, []);
  }

  // ----- The synchronous call

  lemma {:induction false} ConcludedSync(w: World, e: Event, posts: seq<Reply>, lines: seq<Line>)
    requires w.outbox == Some(lines) && Healthy(w) && posts != []
    ensures var (w1, outcome) := Concluded(w, [e], posts, true);
            && Healthy(w1) && w1.sends == w.sends + [Send([e], posts, posts[|posts| - 1].Accepted?)]
            && w1.outbox == Some(if posts[|posts| - 1].Accepted? then Without(lines, RemovableIds([e])) else lines)
            && (outcome.Done? <==> posts[|posts| - 1].Accepted? && posts[|posts| - 1].response.rejected <= 0)
            && (outcome.Failed? && IsRetryable(outcome.error) <==> KeepsAfter(Send([e], posts, true)))
            && !outcome.Cut?
  {
    WithoutNone(lines);
  }

  /**
    * What becomes of a synchronous event, on a working disk: it is appended to the outbox if and only if the
    * client is not configured or the last answer to its posts is 429, 500 or above, no HTTP status at all, or a
    * success that rejects it; an older record of its ID is removed exactly on a success; and the call itself
    * succeeds exactly on a success that rejects nothing.
    */
  lemma {:induction false} SyncEventKeptIff(config: Config, w: World, e: Event, lines: seq<Line>)
    requires w.outbox == Some(lines) && Healthy(w)
    ensures var (w1, outcome) := SendSync(config, w, e);
            !outcome.Cut? ==>
              && |w1.sends| == |w.sends| + 1
              && var send := w1.sends[|w.sends|];
                 && send.events == [e]
                 && (outcome.Done? <==> send.acked && Answer(send).rejected <= 0)
                 && w1.outbox == Some((if send.acked then Without(lines, RemovableIds([e])) else lines)
                                      + if KeepsAfter(send) then [Record(e)] else [])
  {
    PostLoopFrame(config.retryAttempts, w, 0, []);
    var (w0, posts, cut) := PostLoop(config.retryAttempts, w, 0, []);
    if Configured(config) && !cut && posts != [] {
      ConcludedSync(w0, e, posts, lines);
    }
    assert lines + [] == lines && Without(lines, RemovableIds([e])) + [] == Without(lines, RemovableIds([e]));
  }

  /** The last answer leaves the event to be sent again. */
  predicate KeepsAfter(send: Send) {
    if send.posts == [] then true
    else
      match send.posts[|send.posts| - 1]
      case Accepted(response) => response.rejected > 0
      case HttpFailure(status) => status == 429 || status >= 500
      case OtherFailure => true
  }
}
