/** The client object whose loops do the sending, each proved against its specification in Delivery. */
module Clients {
  import opened Bytes
  import opened Events
  import opened EventQueues
  import opened Outboxes
  import opened Delivery

  class Client {
    const config: Config
    const queue: EventQueue
    const outbox: DurableOutbox?
    var stats: Stats
    var sends: seq<Send>
    var sleptMs: nat
    var replies: seq<Reply>
    var disk: seq<bool>

    ghost predicate Valid()
      reads this, queue
    {
      queue.Valid()
    }

    ghost function State(): World
      requires Valid()
      reads this, queue, queue.buffer, outbox
    {
      World(queue.Contents(), if outbox == null then None else Some(outbox.Lines()),
            stats, sends, sleptMs, replies, disk)
    }

    constructor (config: Config, queue: EventQueue, outbox: DurableOutbox?, replies: seq<Reply>, disk: seq<bool>)
      requires queue.Valid()
      ensures Valid() && this.config == config && this.queue == queue && this.outbox == outbox
      ensures State() == World(queue.Contents(), if outbox == null then None else Some(outbox.Lines()),
                               Stats(0, 0, 0, 0, 0, 0, 0), [], 0, replies, disk)
    {
      this.config := config;
      this.queue := queue;
      this.outbox := outbox;
      stats := Stats(0, 0, 0, 0, 0, 0, 0);
      sends := [];
      sleptMs := 0;
      this.replies := replies;
      this.disk := disk;
    }

    /** The answer to the next post, if the process lives to see it. */
    method Post() returns (reply: Option<Reply>)
      modifies this`replies
      ensures replies == if old(replies) == [] then [] else old(replies)[1..]
      ensures reply == if old(replies) == [] then None else Some(old(replies)[0])
    {
      if replies == [] {
        return None;
      }
      reply := Some(replies[0]);
      replies := replies[1..];
    }

    method NextDiskAccess() returns (fails: bool)
      modifies this`disk
      ensures fails == (old(disk) != [] && old(disk)[0])
      ensures disk == if old(disk) == [] then [] else old(disk)[1..]
    {
      fails := disk != [] && disk[0];
      disk := if disk == [] then [] else disk[1..];
    }

    method RecordBatchFailure(events: seq<Event>, posts: seq<Reply>)
      requires Valid()
      modifies this`stats, this`sends
      ensures Valid() && State() == BatchFailed(old(State()), events, posts)
    {
      stats := stats.(failedBatches := stats.failedBatches + 1, failedEvents := stats.failedEvents + |events|);
      sends := sends + [Send(events, posts, false)];
    }

    method RemoveOutbox(events: seq<Event>)
      requires Valid()
      modifies this`disk, outbox
      ensures Valid() && State() == OutboxTrimmed(old(State()), events)
    {
      if outbox == null {
        return;
      }
      var eventIds: seq<Text> := [];
      for i := 0 to |events|
        invariant (set id | id in eventIds) == RemovableIds(events[..i])
      {
        if events[i].eventId != [] {
          eventIds := eventIds + [events[i].eventId];
        }
        assert RemovableIds(events[..i + 1]) == RemovableIds(events[..i]) + ({events[i].eventId} - {[]}) by {
          assert events[..i + 1] == events[..i] + [events[i]];
        }
      }
      assert events[..|events|] == events;
      assert (set id | id in eventIds) - {[]} == RemovableIds(events);
      var fault := false;
      if eventIds != [] {
        assert eventIds[0] in RemovableIds(events);
        fault := NextDiskAccess();
      }
      WithoutNone(outbox.Lines());
      var _ := outbox.Remove(eventIds, fault);
    }

    /** The accounting of an acknowledged batch, and the removal of its IDs from the outbox. */
    method RecordBatchSent(events: seq<Event>, posts: seq<Reply>, response: BatchResponse)
      requires Valid()
      modifies this`stats, this`sends, this`disk, outbox
      ensures Valid() && State() == OutboxTrimmed(BatchSent(old(State()), events, posts, response), events)
    {
      stats := Stats(stats.sentBatches + 1, stats.sentEvents + |events|,
                     stats.accepted + response.accepted, stats.duplicated + response.duplicated,
                     stats.rejected + response.rejected, stats.failedBatches, stats.failedEvents);
      sends := sends + [Send(events, posts, true)];
      RemoveOutbox(events);
    }

    method SendBatchInternal(events: seq<Event>, rejectAsError: bool) returns (outcome: Outcome)
      requires Valid()
      modifies this`stats, this`sends, this`sleptMs, this`replies, this`disk, outbox
      ensures Valid() && (State(), outcome) == SendBatch(config, old(State()), events, rejectAsError)
    {
      if |events| == 0 {
        return Done;
      }
      if !config.hasEndpoint {
        RecordBatchFailure(events, []);
        return Failed(EndpointEmpty);
      }
      if !config.hasApiKey {
        RecordBatchFailure(events, []);
        return Failed(ApiKeyEmpty);
      }
      var posts: seq<Reply> := [];
      var last := OtherFailure;
      var attempts := config.retryAttempts + 1;
      for attempt := 0 to attempts
        invariant Valid() && queue.Contents() == old(queue.Contents())
        invariant attempt < attempts ==>
          PostLoop(config.retryAttempts, old(State()), 0, []) == PostLoop(config.retryAttempts, State(), attempt, posts)
        invariant attempt == 0 || attempt < attempts
      {
        ghost var before := State();
        var reply := Post();
        if reply.None? {
          return Cut;
        }
        posts := posts + [reply.value];
        last := reply.value;
        assert State() == before.(replies := before.replies[1..]);
        if last.Accepted? {
          var response := last.response;
          RecordBatchSent(events, posts, response);
          return if rejectAsError && response.rejected > 0 then Failed(RejectedEvents(response.rejected)) else Done;
        }
        if !IsRetryable(PostFailed(last)) || attempt == attempts - 1 {
          break;
        }
        sleptMs := sleptMs + (attempt + 1) * 50;
      }
      RecordBatchFailure(events, posts);
      return Failed(PostFailed(last));
    }

    method PersistOutbox(e: Event)
      requires Valid()
      modifies this`disk, outbox
      ensures Valid() && State() == OutboxAppended(old(State()), e)
    {
      if outbox == null {
        return;
      }
      RecordsSnoc(outbox.Lines(), [], e);
      assert outbox.Lines() + Records([]) == outbox.Lines() && [] + [e] == [e];
      assert [e][..0] == [];
      var fault := NextDiskAccess();
      var _ := outbox.Append([e], if fault then Some(0) else None);
    }

    /** `SendEventSync` from the prepared event on. */
    method SendEventSync(e: Event) returns (outcome: Outcome)
      requires Valid()
      modifies this`stats, this`sends, this`sleptMs, this`replies, this`disk, outbox
      ensures Valid() && (State(), outcome) == SendSync(config, old(State()), e)
    {
      outcome := SendBatchInternal([e], true);
      if outcome.Failed? && IsRetryable(outcome.error) {
        PersistOutbox(e);
      }
    }

    method SendOutbox() returns (outcome: Outcome)
      requires Valid()
      modifies this`stats, this`sends, this`sleptMs, this`replies, this`disk, outbox
      ensures Valid() && (State(), outcome) == DrainOutbox(config, old(State()))
    {
      if outbox == null {
        return Done;
      }
      while true
        invariant Valid() && DrainOutbox(config, State()) == DrainOutbox(config, old(State()))
        decreases |replies|
      {
        var fault := NextDiskAccess();
        var events := outbox.Peek(config.batchSize, fault);
        if events.None? {
          return Failed(OutboxUnreadable);
        }
        if |events.value| == 0 {
          return Done;
        }
        SendBatchFrame(config, State(), events.value, false);
        outcome := SendBatchInternal(events.value, false);
        if outcome != Done {
          return outcome;
        }
      }
    }

    method Flush() returns (outcome: Outcome)
      requires Valid()
      modifies this`stats, this`sends, this`sleptMs, this`replies, this`disk, outbox, queue`len, queue.buffer
      ensures Valid() && (State(), outcome) == SendQueued(config, old(State()))
    {
      var first := Done;
      while true
        invariant Valid() && !first.Cut?
        invariant DrainQueue(config, State(), first) == DrainQueue(config, old(State()), Done)
        decreases |queue.Contents()|
      {
        ghost var before := State();
        var events := queue.Drain(config.batchSize);
        if |events| == 0 {
          assert State() == before;
          break;
        }
        ghost var n := |events|;
        assert before.queue[..n] == events && before.queue[n..] == queue.Contents();
        SendBatchFrame(config, State(), events, false);
        outcome := SendBatchInternal(events, false);
        if outcome.Cut? {
          return Cut;
        }
        if first.Done? {
          first := outcome;
        }
      }
      if first != Done {
        return first;
      }
      outcome := SendOutbox();
    }
  }
}
