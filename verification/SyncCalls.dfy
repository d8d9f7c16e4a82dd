/** What `SendEventSync` guarantees, whatever the worker and the other callers do meanwhile. */
module SyncCalls {
  import opened Events
  import opened Seqs
  import opened Pipeline
  import opened PipelineLaws

  function PostOf(step: Step, i: nat): seq<Reply> {
    if step.Post? && step.who == ACaller(i) then [step.reply] else []
  }

  function AppendOf(step: Step, i: nat): seq<bool> {
    if step.Append? && step.i == i then [step.works] else []
  }

  /** The answers the caller's own posts got, in order. */
  function PostsOf(steps: seq<Step>, i: nat): seq<Reply> {
    if steps == [] then [] else PostOf(steps[0], i) + PostsOf(steps[1..], i)
  }

  /** Whether each of the caller's own outbox appends worked, in order. */
  function AppendsOf(steps: seq<Step>, i: nat): seq<bool> {
    if steps == [] then [] else AppendOf(steps[0], i) + AppendsOf(steps[1..], i)
  }

  /** An answer that makes the call report an error worth retrying: rejected events count among them. */
  predicate WorthRetrying(reply: Reply) {
    match reply
    case Answered(rejected) => rejected
    case Refused(retryable) => retryable
  }

  /** The posts of a call that has run its course. */
  ghost predicate Settled(c: Config, posts: seq<Reply>) {
    if !c.configured then posts == []
    else
      && 1 <= |posts| <= c.retries + 1
      && (forall k :: 0 <= k < |posts| - 1 ==> posts[k] == Refused(true))
      && (posts[|posts| - 1] == Refused(true) ==> |posts| == c.retries + 1)
  }

  /** The event of a settled call belongs in the outbox. */
  predicate BelongsInOutbox(posts: seq<Reply>) {
    posts != [] ==> WorthRetrying(posts[|posts| - 1])
  }

  /** A send under way, against the answers so far. */
  ghost predicate Tells(c: Config, send: Sending, e: Event, posts: seq<Reply>) {
    match send
    case Posting(batch, attempt) =>
      && batch == [e] && c.configured
      && attempt == |posts| <= c.retries
      && forall k :: 0 <= k < |posts| ==> posts[k] == Refused(true)
    case Failing(batch, retryable) =>
      && batch == [e] && Settled(c, posts)
      && (posts == [] ==> retryable)
      && (posts != [] ==> posts[|posts| - 1] == Refused(retryable))
    case Acked(batch, rejected) =>
      batch == [e] && Settled(c, posts) && posts != [] && posts[|posts| - 1] == Answered(rejected)
    case Removing(batch, rejected) =>
      batch == [e] && Settled(c, posts) && posts != [] && posts[|posts| - 1] == Answered(rejected)
  }

  /** Where the call stands, against its answers and its outbox appends so far. */
  ghost predicate Stands(c: Config, s: State, i: nat, e: Event, posts: seq<Reply>, appends: seq<bool>) {
    && i < |s.callers|
    && (c.durable && true in appends ==> e in s.appended)
    && (posts != [] && posts[|posts| - 1].Answered? ==> e in s.answered)
    && match s.callers[i]
       case Sync(x, send) => x == e && Tells(c, send, e, posts) && appends == []
       case SyncPersisting(x) => x == e && Settled(c, posts) && BelongsInOutbox(posts) && appends == []
       case Returned => Settled(c, posts) && |appends| == if BelongsInOutbox(posts) then 1 else 0
       case _ => false
  }

  /** The steps with which the call itself moves on. */
  predicate IsOwn(step: Step, i: nat) {
    match step
    case Post(who, _) => who == ACaller(i)
    case CountSent(who) => who == ACaller(i)
    case Remove(who, _) => who == ACaller(i)
    case CountFailed(who) => who == ACaller(i)
    case Append(j, _) => j == i
    case _ => false
  }

  /** A caller moves only by its own steps. */
  lemma {:induction false} OthersPass(c: Config, s: State, i: nat, step: Step)
    requires Enabled(c, s, step) && !step.Crash? && !IsOwn(step, i) && i < |s.callers|
    requires s.callers[i].Sync? || s.callers[i].SyncPersisting? || s.callers[i].Returned?
    ensures i < |Do(c, s, step).callers| && Do(c, s, step).callers[i] == s.callers[i]
  {
    match step {
      case Post(who, reply) =>
      case CountSent(who) =>
      case Remove(who, _) =>
      case CountFailed(who) =>
      case _ =>
    }
  }

  lemma {:induction false} StandsStill(
    c: Config, s: State, i: nat, e: Event, posts: seq<Reply>, appends: seq<bool>, step: Step)
    requires Stands(c, s, i, e, posts, appends) && Enabled(c, s, step) && !step.Crash? && !IsOwn(step, i)
    ensures Stands(c, Do(c, s, step), i, e, posts, appends)
  {
    OthersPass(c, s, i, step);
    HistoryStep(c, s, step);
  }

  lemma {:induction false} StandsAfterPost(
    c: Config, s: State, i: nat, e: Event, posts: seq<Reply>, appends: seq<bool>, reply: Reply)
    requires Stands(c, s, i, e, posts, appends) && Enabled(c, s, Post(ACaller(i), reply))
    ensures Stands(c, DoPost(c, s, ACaller(i), reply), i, e, posts + [reply], appends)
  {
    var s1 := DoPost(c, s, ACaller(i), reply);
    assert s.callers[i].send.batch == [e];
    assert s1.appended == s.appended;
    if reply.Answered? {
      assert s1.answered == s.answered + set x | x in [e];
    }
  }

  lemma {:induction false} StandsAfterSend(
    c: Config, s: State, i: nat, e: Event, posts: seq<Reply>, appends: seq<bool>, step: Step)
    requires Stands(c, s, i, e, posts, appends) && Enabled(c, s, step) && IsOwn(step, i)
    requires step.CountSent? || step.Remove? || step.CountFailed?
    ensures Stands(c, Do(c, s, step), i, e, posts, appends)
  {
    HistoryStep(c, s, step);
  }

  lemma {:induction false} StandsAfterAppend(
    c: Config, s: State, i: nat, e: Event, posts: seq<Reply>, appends: seq<bool>, works: bool)
    requires Stands(c, s, i, e, posts, appends) && Enabled(c, s, Append(i, works))
    ensures Stands(c, DoAppend(c, s, i, works), i, e, posts, appends + [works])
  {
    assert s.callers[i] == SyncPersisting(e);
  }

  lemma {:induction false} StandsStep(
    c: Config, s: State, i: nat, e: Event, posts: seq<Reply>, appends: seq<bool>, step: Step)
    requires Stands(c, s, i, e, posts, appends) && Enabled(c, s, step) && !step.Crash?
    ensures Stands(c, Do(c, s, step), i, e, posts + PostOf(step, i), appends + AppendOf(step, i))
  {
    assert posts + [] == posts && appends + [] == appends;
    if !IsOwn(step, i) {
      StandsStill(c, s, i, e, posts, appends, step);
    } else if step.Post? {
      StandsAfterPost(c, s, i, e, posts, appends, step.reply);
    } else if step.Append? {
      StandsAfterAppend(c, s, i, e, posts, appends, step.works);
    } else {
      StandsAfterSend(c, s, i, e, posts, appends, step);
    }
  }

  lemma {:induction false} StandsRun(
    c: Config, s: State, i: nat, e: Event, posts: seq<Reply>, appends: seq<bool>, steps: seq<Step>)
    requires Stands(c, s, i, e, posts, appends) && CanRun(c, s, steps) && Crash !in steps
    ensures Stands(c, After(c, s, steps), i, e, posts + PostsOf(steps, i), appends + AppendsOf(steps, i))
    decreases |steps|
  {
    if steps == [] {
      assert posts + [] == posts && appends + [] == appends;
    } else {
      var step, rest := steps[0], steps[1..];
      var s1 := Do(c, s, step);
      StandsStep(c, s, i, e, posts, appends, step);
      StandsRun(c, s1, i, e, posts + PostOf(step, i), appends + AppendOf(step, i), rest);
      OneThenRest(posts, PostOf(step, i), PostsOf(rest, i));
      OneThenRest(appends, AppendOf(step, i), AppendsOf(rest, i));
      assert PostsOf(steps, i) == PostOf(step, i) + PostsOf(rest, i);
      assert AppendsOf(steps, i) == AppendOf(step, i) + AppendsOf(rest, i);
      assert After(c, s, steps) == After(c, s1, rest);
    }
  }

  lemma {:induction false} StandsAtStart(c: Config, s: State, i: nat, e: Event)
    requires i < |s.callers| && s.callers[i] == Sync(e, Started(c, [e]))
    ensures Stands(c, s, i, e, [], [])
  {}

  lemma {:induction false} StandsAtEnd(c: Config, s: State, i: nat, e: Event, posts: seq<Reply>, appends: seq<bool>)
    requires Stands(c, s, i, e, posts, appends) && s.callers[i].Returned?
    ensures Settled(c, posts) && |appends| == if BelongsInOutbox(posts) then 1 else 0
    ensures c.durable && true in appends ==> e in s.appended
    ensures posts != [] && posts[|posts| - 1].Answered? ==> e in s.answered
  {}

  /**
    * A synchronous call, from the moment its event is prepared until it returns, in any interleaving without
    * a crash. It posts at most RetryAttempts + 1 times and again only after a retryable failure; it appends
    * its event to the outbox exactly once if its last answer is worth retrying (a 2xx that rejects the event
    * among them) or it could not post at all, and never otherwise; an append that works makes the event
    * durable, and a 2xx is on record.
    */
  lemma {:induction false} SyncCallSettles(c: Config, s: State, i: nat, e: Event, steps: seq<Step>)
    requires i < |s.callers| && s.callers[i] == Sync(e, Started(c, [e]))
    requires CanRun(c, s, steps) && Crash !in steps
    requires i < |After(c, s, steps).callers| && After(c, s, steps).callers[i].Returned?
    ensures var posts, appends, s1 := PostsOf(steps, i), AppendsOf(steps, i), After(c, s, steps);
            && Settled(c, posts)
            && |appends| == (if BelongsInOutbox(posts) then 1 else 0)
            && (c.durable && true in appends ==> e in s1.appended)
            && (posts != [] && posts[|posts| - 1].Answered? ==> e in s1.answered)
  {
    StandsAtStart(c, s, i, e);
    StandsRun(c, s, i, e, [], [], steps);
    FromNothing(PostsOf(steps, i));
    FromNothing(AppendsOf(steps, i));
    StandsAtEnd(c, After(c, s, steps), i, e, PostsOf(steps, i), AppendsOf(steps, i));
  }
}
