/** Independent schedules for the realtime feeds: one thread submits requests and collects
    finished ones into a bounded queue, another takes results and acknowledges them.

    Each critical section and each queue operation is one atomic step; any thread may run
    between two of them. Times are real numbers. */
module Scheduler {
  import opened Common

  datatype Feed = Feed(name: string)
  datatype Id = Id(hex: string)

  /** What a request came to: a value, or the error its worker raised. */
  datatype Outcome = Value(value: string) | WorkerError(message: string)

  datatype Future = Future(pollId: Id, outcome: Option<Outcome>)

  /** A request as it was submitted. */
  datatype Request = Request(pollId: Id, lagMs: real, missedBefore: nat)

  datatype FeedSchedule = FeedSchedule(
    interval: real,
    nextDeadline: real,
    future: Option<Future>,
    activeLagMs: real,
    activeMissedBefore: nat,
    resultPending: bool,
    pendingPollId: Option<Id>,
    totalSubmitted: nat,
    totalCompleted: nat,
    totalMissed: nat,
    missedSinceLastRequest: nat)

  datatype ScheduledResult = ScheduledResult(feed: Feed, pollId: Id, outcome: Outcome, lagMs: real, missedBefore: nat)

  /** `ready` has been collected under the lock but is not in the queue yet; `held` has been taken
      by the consumer and not acknowledged yet; `delivered` is everything the consumer ever took.
      `submitted` is the history of requests. */
  datatype State = State(
    schedules: map<Feed, FeedSchedule>,
    accepting: bool,
    ready: seq<ScheduledResult>,
    queue: seq<ScheduledResult>,
    held: Option<ScheduledResult>,
    delivered: seq<ScheduledResult>,
    submitted: map<Feed, seq<Request>>)

  /** The feeds in their configured order, and the monotonic time the schedules start at. */
  datatype Setup = Setup(feeds: seq<Feed>, intervals: map<Feed, real>, start: real)

  ghost predicate Good(u: Setup) {
    && (forall i, j :: 0 <= i < j < |u.feeds| ==> u.feeds[i] != u.feeds[j])
    && (forall f :: f in u.feeds ==> f in u.intervals && u.intervals[f] > 0.0)
  }

  function Initial(u: Setup): State
    requires forall f :: f in u.feeds ==> f in u.intervals
  {
    State(map f | f in u.feeds :: FeedSchedule(u.intervals[f], u.start, None, 0.0, 0, false, None, 0, 0, 0, 0),
          true, [], [], None, [], map f | f in u.feeds :: [])
  }

  /******* One feed under the lock *******/

  /** First loop of a step: a finished request becomes a result unless the feed's previous one is unacknowledged. */
  function CollectFeed(s: State, f: Feed): State
    requires f in s.schedules
  {
    var fs := s.schedules[f];
    if fs.future.None? || fs.future.value.outcome.None? || fs.resultPending then s else
    var item := ScheduledResult(f, fs.future.value.pollId, fs.future.value.outcome.value, fs.activeLagMs,
                                fs.activeMissedBefore);
    s.(ready := s.ready + [item],
       schedules := s.schedules[f := fs.(future := None, resultPending := true, pendingPollId := Some(item.pollId),
                                         totalCompleted := fs.totalCompleted + 1)])
  }

  /** `n` deadlines further on. */
  function Span(n: int, interval: real): real { n as real * interval }

  lemma SpanAdd(m: int, n: int, interval: real)
    ensures Span(m + n, interval) == Span(m, interval) + Span(n, interval)
  {
    assert (m + n) as real == m as real + n as real;
  }

  function DueCount(fs: FeedSchedule, now: real): (n: int)
    requires fs.interval > 0.0
  {
    ((now - fs.nextDeadline) / fs.interval).Floor + 1
  }

  /** The due count is the number of deadlines up to `now`, the last of them less than one interval ago. */
  lemma DueCountMeaning(fs: FeedSchedule, now: real)
    requires fs.interval > 0.0 && now >= fs.nextDeadline
    ensures DueCount(fs, now) >= 1
    ensures fs.nextDeadline + Span(DueCount(fs, now) - 1, fs.interval) <= now
            < fs.nextDeadline + Span(DueCount(fs, now), fs.interval)
    ensures now - (fs.nextDeadline + Span(DueCount(fs, now) - 1, fs.interval)) < fs.interval
  {
    var x, d := now - fs.nextDeadline, fs.interval;
    var q := x / d;
    QuotientTimesDivisor(x, d);
    var n := q.Floor;
    assert DueCount(fs, now) == n + 1;
    hide DueCount;
    SpanBounds(q, n, d);
    assert q * d == x;
    SpanAdd(n, 1, d);
    SpanOne(d);
    hide Span;
  }

  lemma SpanBounds(q: real, n: int, d: real)
    requires d > 0.0 && n as real <= q < (n + 1) as real
    ensures Span(n, d) <= q * d < Span(n + 1, d)
  {
    ScaledOrder(n as real, q, d);
    ScaledOrder(q, (n + 1) as real, d);
  }

  lemma SpanOne(d: real)
    ensures Span(1, d) == d
  {
  }

  lemma QuotientTimesDivisor(x: real, d: real)
    requires d > 0.0
    ensures x / d * d == x
    ensures x >= 0.0 ==> x / d >= 0.0
  {
  }

  lemma ScaledOrder(a: real, b: real, d: real)
    requires d > 0.0
    ensures a <= b ==> a * d <= b * d
    ensures a < b ==> a * d < b * d
  {
  }

  /** Second loop of a step: deadlines that passed are missed or become one request. */
  function SubmitFeed(s: State, f: Feed, now: real, pollId: Id): State
    requires f in s.schedules && f in s.submitted && s.schedules[f].interval > 0.0
  {
    var fs := s.schedules[f];
    if !s.accepting || now < fs.nextDeadline then s else
    var due := DueCount(fs, now);
    assert due >= 1 by { DueCountMeaning(fs, now); }
    var latestDue := fs.nextDeadline + Span(due - 1, fs.interval);
    var next := fs.nextDeadline + Span(due, fs.interval);
    if fs.future.Some? then
      s.(schedules := s.schedules[f := fs.(nextDeadline := next, totalMissed := fs.totalMissed + due,
                                           missedSinceLastRequest := fs.missedSinceLastRequest + due)])
    else
      var coalesced := due - 1;
      var lag := now - latestDue;
      var lagMs := (if lag < 0.0 then 0.0 else lag) * 1000.0;
      s.(schedules := s.schedules[f := fs.(nextDeadline := next, totalMissed := fs.totalMissed + coalesced,
                                           missedSinceLastRequest := 0,
                                           activeMissedBefore := fs.missedSinceLastRequest + coalesced,
                                           activeLagMs := lagMs,
                                           totalSubmitted := fs.totalSubmitted + 1,
                                           future := Some(Future(pollId, None)))],
         submitted := s.submitted[f := s.submitted[f] +
                                       [Request(pollId, lagMs, fs.missedSinceLastRequest + coalesced)]])
  }

  /******* The invariant *******/

  /** Everything that has left the futures, in order. */
  function Stream(s: State): seq<ScheduledResult> {
    s.delivered + s.queue + s.ready
  }

  /** Results that were collected and are not acknowledged. */
  function Unacknowledged(s: State): seq<ScheduledResult> {
    (if s.held.Some? then [s.held.value] else []) + s.queue + s.ready
  }

  function RequestOf(item: ScheduledResult): Request {
    Request(item.pollId, item.lagMs, item.missedBefore)
  }

  function RequestsOf(f: Feed, items: seq<ScheduledResult>): seq<Request> {
    if items == [] then [] else
    var last := items[|items| - 1];
    RequestsOf(f, items[..|items| - 1]) + (if last.feed == f then [RequestOf(last)] else [])
  }

  function MissedOf(f: Feed, items: seq<ScheduledResult>): nat {
    if items == [] then 0 else
    var last := items[|items| - 1];
    MissedOf(f, items[..|items| - 1]) + (if last.feed == f then last.missedBefore else 0)
  }

  /** Every deadline is a request or a miss, and the next one is right after them. */
  ghost predicate DeadlineLaw(u: Setup, fs: FeedSchedule) {
    && fs.interval > 0.0
    && fs.nextDeadline == u.start + Span(fs.totalSubmitted + fs.totalMissed, fs.interval)
    && (fs.future.Some? ==> 0.0 <= fs.activeLagMs < fs.interval * 1000.0)
  }

  /** The request of a future. */
  function ActiveRequest(fs: FeedSchedule): Request
    requires fs.future.Some?
  {
    Request(fs.future.value.pollId, fs.activeLagMs, fs.activeMissedBefore)
  }

  /** Every request is in the stream, in order, or running; every miss is attached to a request or still to be. */
  ghost predicate RequestLaw(fs: FeedSchedule, f: Feed, stream: seq<ScheduledResult>, submitted: seq<Request>) {
    && submitted == RequestsOf(f, stream) + (if fs.future.Some? then [ActiveRequest(fs)] else [])
    && fs.totalSubmitted == |submitted| == fs.totalCompleted + (if fs.future.Some? then 1 else 0)
    && fs.totalMissed ==
       MissedOf(f, stream) + (if fs.future.Some? then fs.activeMissedBefore else 0) + fs.missedSinceLastRequest
  }

  /** Every result of the feed reports a lag of less than one interval. */
  ghost predicate LagLaw(interval: real, f: Feed, stream: seq<ScheduledResult>) {
    forall i :: 0 <= i < |stream| && stream[i].feed == f ==> 0.0 <= stream[i].lagMs < interval * 1000.0
  }

  ghost predicate Accounts(u: Setup, s: State, f: Feed)
    requires f in s.schedules && f in s.submitted
  {
    && DeadlineLaw(u, s.schedules[f]) && RequestLaw(s.schedules[f], f, Stream(s), s.submitted[f])
    && LagLaw(s.schedules[f].interval, f, Stream(s))
  }

  ghost predicate OnePerFeed(s: State) {
    var open := Unacknowledged(s);
    && (forall i, j :: 0 <= i < j < |open| ==> open[i].feed != open[j].feed)
    && (forall i :: 0 <= i < |open| ==>
          && open[i].feed in s.schedules
          && s.schedules[open[i].feed].resultPending
          && s.schedules[open[i].feed].pendingPollId == Some(open[i].pollId))
    && (forall f :: f in s.schedules && s.schedules[f].resultPending ==>
          exists i :: 0 <= i < |open| && open[i].feed == f)
  }

  ghost predicate Accounted(u: Setup, s: State) {
    && s.schedules.Keys == s.submitted.Keys == (set f | f in u.feeds)
    && (forall f :: f in s.schedules ==> Accounts(u, s, f))
  }

  ghost predicate Inv(u: Setup, s: State) {
    Accounted(u, s) && OnePerFeed(s)
  }

  lemma StreamSnoc(f: Feed, items: seq<ScheduledResult>, item: ScheduledResult)
    ensures RequestsOf(f, items + [item]) == RequestsOf(f, items) + (if item.feed == f then [RequestOf(item)] else [])
    ensures MissedOf(f, items + [item]) == MissedOf(f, items) + (if item.feed == f then item.missedBefore else 0)
  {
    assert (items + [item])[..|items|] == items;
  }

  lemma CollectKeepsAccounted(u: Setup, s: State, f: Feed)
    requires Accounted(u, s) && f in s.schedules
    ensures Accounted(u, CollectFeed(s, f))
  {
    hide Span, RequestsOf, MissedOf;
    var s' := CollectFeed(s, f);
    if s' != s {
      var item := s'.ready[|s.ready|];
      assert Stream(s') == Stream(s) + [item];
      hide Stream;
      forall g | g in s.schedules
        ensures Accounts(u, s', g)
      {
        assert Accounts(u, s, g);
        StreamSnoc(g, Stream(s), item);
      }
    }
  }

  lemma CollectKeepsOnePerFeed(s: State, f: Feed)
    requires OnePerFeed(s) && f in s.schedules
    ensures OnePerFeed(CollectFeed(s, f))
  {
    var s' := CollectFeed(s, f);
    if s' != s {
      var open, item := Unacknowledged(s), s'.ready[|s.ready|];
      var open' := Unacknowledged(s');
      assert open' == open + [item];
      hide Unacknowledged;
      assert open'[|open|] == item;
      forall g | g in s'.schedules && s'.schedules[g].resultPending
        ensures exists i :: 0 <= i < |open'| && open'[i].feed == g
      {
        if g != f {
          var i :| 0 <= i < |open| && open[i].feed == g;
          assert open'[i].feed == g;
        }
      }
    }
  }

  lemma SubmitKeepsDeadlineLaw(u: Setup, s: State, f: Feed, now: real, pollId: Id)
    requires f in s.schedules && f in s.submitted && DeadlineLaw(u, s.schedules[f])
    ensures DeadlineLaw(u, SubmitFeed(s, f, now, pollId).schedules[f])
    ensures s.accepting ==> now < SubmitFeed(s, f, now, pollId).schedules[f].nextDeadline
  {
    var fs := s.schedules[f];
    if s.accepting && now >= fs.nextDeadline {
      DueCountMeaning(fs, now);
      SpanAdd(fs.totalSubmitted + fs.totalMissed, DueCount(fs, now), fs.interval);
      hide Span, DueCount;
    }
  }

  lemma SubmitKeepsRequestLaw(s: State, f: Feed, now: real, pollId: Id, stream: seq<ScheduledResult>)
    requires f in s.schedules && f in s.submitted && s.schedules[f].interval > 0.0
    requires RequestLaw(s.schedules[f], f, stream, s.submitted[f])
    ensures RequestLaw(SubmitFeed(s, f, now, pollId).schedules[f], f, stream,
                       SubmitFeed(s, f, now, pollId).submitted[f])
  {
    if s.accepting && now >= s.schedules[f].nextDeadline {
      DueCountMeaning(s.schedules[f], now);
      hide Span, DueCount, RequestsOf, MissedOf;
    }
  }

  lemma SubmitTouchesOneFeed(s: State, f: Feed, now: real, pollId: Id)
    requires f in s.schedules && f in s.submitted && s.schedules[f].interval > 0.0
    ensures var s' := SubmitFeed(s, f, now, pollId);
            && f in s'.schedules && f in s'.submitted
            && s' == s.(schedules := s.schedules[f := s'.schedules[f]], submitted := s.submitted[f := s'.submitted[f]])
            && s'.schedules[f].interval == s.schedules[f].interval
            && s'.schedules[f].resultPending == s.schedules[f].resultPending
            && s'.schedules[f].pendingPollId == s.schedules[f].pendingPollId
  {
    hide Span, DueCount;
    if s.accepting && now >= s.schedules[f].nextDeadline {
      DueCountMeaning(s.schedules[f], now);
    }
    assert s.schedules == s.schedules[f := s.schedules[f]] && s.submitted == s.submitted[f := s.submitted[f]];
  }

  lemma SubmitKeepsAccounts(u: Setup, s: State, f: Feed, now: real, pollId: Id)
    requires Accounted(u, s) && f in s.schedules
    ensures s.schedules[f].interval > 0.0
    ensures f in SubmitFeed(s, f, now, pollId).schedules && f in SubmitFeed(s, f, now, pollId).submitted
    ensures Accounts(u, SubmitFeed(s, f, now, pollId), f)
    ensures s.accepting ==> now < SubmitFeed(s, f, now, pollId).schedules[f].nextDeadline
  {
    assert Accounts(u, s, f);
    SubmitTouchesOneFeed(s, f, now, pollId);
    SubmitKeepsDeadlineLaw(u, s, f, now, pollId);
    SubmitKeepsRequestLaw(s, f, now, pollId, Stream(s));
    hide SubmitFeed, DeadlineLaw, RequestLaw, LagLaw;
    assert Stream(SubmitFeed(s, f, now, pollId)) == Stream(s);
  }

  lemma SubmitKeepsOnePerFeed(s: State, f: Feed, now: real, pollId: Id)
    requires f in s.schedules && f in s.submitted && s.schedules[f].interval > 0.0 && OnePerFeed(s)
    ensures OnePerFeed(SubmitFeed(s, f, now, pollId))
  {
    SubmitTouchesOneFeed(s, f, now, pollId);
    hide SubmitFeed;
    assert Unacknowledged(SubmitFeed(s, f, now, pollId)) == Unacknowledged(s);
    hide Unacknowledged;
  }

  lemma SubmitKeepsAccounted(u: Setup, s: State, f: Feed, now: real, pollId: Id)
    requires Accounted(u, s) && f in s.schedules
    ensures s.schedules[f].interval > 0.0
    ensures Accounted(u, SubmitFeed(s, f, now, pollId))
  {
    SubmitKeepsAccounts(u, s, f, now, pollId);
    SubmitTouchesOneFeed(s, f, now, pollId);
    hide SubmitFeed, Accounts;
    var s' := SubmitFeed(s, f, now, pollId);
    assert Stream(s') == Stream(s);
    hide Stream;
    forall g | g in s'.schedules
      ensures Accounts(u, s', g)
    {
      assert Accounts(u, s, g);
      if g != f {
        AccountsElsewhere(u, s, s', g);
      }
    }
  }

  lemma SubmitKeepsInv(u: Setup, s: State, f: Feed, now: real, pollId: Id)
    requires Accounted(u, s) && f in s.schedules
    ensures s.schedules[f].interval > 0.0
    ensures Accounted(u, SubmitFeed(s, f, now, pollId))
    ensures OnePerFeed(s) ==> OnePerFeed(SubmitFeed(s, f, now, pollId))
    ensures s.accepting ==> now < SubmitFeed(s, f, now, pollId).schedules[f].nextDeadline
  {
    assert Accounts(u, s, f);
    SubmitKeepsAccounts(u, s, f, now, pollId);
    SubmitKeepsAccounted(u, s, f, now, pollId);
    hide SubmitFeed, Accounts, Accounted, OnePerFeed;
    if OnePerFeed(s) {
      SubmitKeepsOnePerFeed(s, f, now, pollId);
    }
  }

  lemma AccountsElsewhere(u: Setup, s: State, s': State, g: Feed)
    requires g in s.schedules && g in s.submitted && g in s'.schedules && g in s'.submitted && Accounts(u, s, g)
    requires s'.schedules[g] == s.schedules[g] && s'.submitted[g] == s.submitted[g] && Stream(s') == Stream(s)
    ensures Accounts(u, s', g)
  {
    hide Stream, DeadlineLaw, RequestLaw, LagLaw;
  }

  /******* Steps of the threads *******/

  /** All an operation needs to be defined. */
  ghost predicate Shaped(u: Setup, s: State) {
    forall f :: f in u.feeds ==> f in s.schedules && f in s.submitted && s.schedules[f].interval > 0.0
  }

  lemma AccountedShaped(u: Setup, s: State)
    requires Accounted(u, s)
    ensures Shaped(u, s)
  {
    hide RequestLaw, Stream;
    forall f | f in u.feeds
      ensures f in s.schedules && f in s.submitted && s.schedules[f].interval > 0.0
    {
      assert f in s.schedules.Keys && f in s.submitted.Keys;
      assert Accounts(u, s, f);
    }
  }

  /** The first `n` feeds have been collected. */
  ghost function CollectAll(u: Setup, s: State, n: nat): (s': State)
    requires Shaped(u, s) && n <= |u.feeds|
    ensures Shaped(u, s')
  {
    if n == 0 then s else CollectFeed(CollectAll(u, s, n - 1), u.feeds[n - 1])
  }

  ghost function SubmitAll(u: Setup, s: State, n: nat, now: real, ids: Feed -> Id): (s': State)
    requires Shaped(u, s) && n <= |u.feeds|
    ensures Shaped(u, s')
  {
    if n == 0 then s else
    var s1 := SubmitAll(u, s, n - 1, now, ids);
    SubmitTouchesOneFeed(s1, u.feeds[n - 1], now, ids(u.feeds[n - 1]));
    SubmitFeed(s1, u.feeds[n - 1], now, ids(u.feeds[n - 1]))
  }

  /** The critical section of one step. */
  ghost function Stepped(u: Setup, s: State, now: real, ids: Feed -> Id): State
    requires Shaped(u, s)
  {
    SubmitAll(u, CollectAll(u, s, |u.feeds|), |u.feeds|, now, ids)
  }

  /** A full queue would raise out of the loop and lose what is left to put. */
  function Put(u: Setup, s: State): State
    requires s.ready != []
  {
    if |s.queue| >= |u.feeds| then s.(ready := [])
    else s.(queue := s.queue + [s.ready[0]], ready := s.ready[1..])
  }

  function Taken(s: State): State
    requires s.queue != []
  {
    s.(held := Some(s.queue[0]), delivered := s.delivered + [s.queue[0]], queue := s.queue[1..])
  }

  function Acknowledged(s: State): State
    requires s.held.Some? && s.held.value.feed in s.schedules
  {
    var item := s.held.value;
    var fs := s.schedules[item.feed];
    if fs.resultPending && fs.pendingPollId == Some(item.pollId)
    then s.(held := None, schedules := s.schedules[item.feed := fs.(resultPending := false, pendingPollId := None)])
    else s.(held := None)
  }

  predicate Running(s: State, f: Feed) {
    f in s.schedules && s.schedules[f].future.Some? && s.schedules[f].future.value.outcome.None?
  }

  function Completed(s: State, f: Feed, outcome: Outcome): State
    requires Running(s, f)
  {
    var fs := s.schedules[f];
    s.(schedules := s.schedules[f := fs.(future := Some(fs.future.value.(outcome := Some(outcome))))])
  }

  datatype Action =
    | Step(now: real, ids: Feed -> Id)
    | PutNowait
    | Get
    | Acknowledge
    | Complete(feed: Feed, outcome: Outcome)
    | StopAccepting

  /** The scheduler thread is sequential, the consumer acknowledges what it took before taking more. */
  ghost predicate Possible(s: State, a: Action) {
    match a
    case Step(_, _) => s.ready == []
    case PutNowait => s.ready != []
    case Get => s.queue != [] && s.held.None?
    case Acknowledge => s.held.Some? && s.held.value.feed in s.schedules
    case Complete(f, _) => Running(s, f)
    case StopAccepting => true
  }

  ghost function Next(u: Setup, s: State, a: Action): State
    requires Possible(s, a) && Shaped(u, s)
  {
    match a
    case Step(now, ids) => Stepped(u, s, now, ids)
    case PutNowait => Put(u, s)
    case Get => Taken(s)
    case Acknowledge => Acknowledged(s)
    case Complete(f, outcome) => Completed(s, f, outcome)
    case StopAccepting => s.(accepting := false)
  }

  lemma CollectFeedShape(s: State, f: Feed)
    requires f in s.schedules
    ensures var s' := CollectFeed(s, f);
            && s' == s.(schedules := s'.schedules, ready := s'.ready)
            && |s'.ready| <= |s.ready| + 1
            && (forall g :: g in s.schedules && g != f ==> g in s'.schedules && s'.schedules[g] == s.schedules[g])
            && f in s'.schedules
            && s'.schedules[f].interval == s.schedules[f].interval
            && (s.schedules[f].future.None? ==> s'.schedules[f].future.None?)
            && (!Running(s, f) && !s.schedules[f].resultPending ==> s'.schedules[f].future.None?)
  {
  }

  lemma {:induction false} CollectAllKeeps(u: Setup, s: State, n: nat)
    requires Accounted(u, s) && n <= |u.feeds|
    ensures Shaped(u, s)
    ensures Accounted(u, CollectAll(u, s, n))
    ensures OnePerFeed(s) ==> OnePerFeed(CollectAll(u, s, n))
  {
    hide Accounted, OnePerFeed, CollectFeed;
    AccountedShaped(u, s);
    if n > 0 {
      CollectAllKeeps(u, s, n - 1);
      var s1 := CollectAll(u, s, n - 1);
      assert u.feeds[n - 1] in u.feeds;
      assert u.feeds[n - 1] in s1.schedules;
      assert CollectAll(u, s, n) == CollectFeed(s1, u.feeds[n - 1]);
      hide CollectAll, Shaped;
      CollectKeepsAccounted(u, s1, u.feeds[n - 1]);
      if OnePerFeed(s) {
        CollectKeepsOnePerFeed(s1, u.feeds[n - 1]);
      }
    }
  }

  /** Collecting touches only the schedules and `ready`. */
  lemma {:induction false} CollectAllFrame(u: Setup, s: State, n: nat)
    requires Shaped(u, s) && n <= |u.feeds|
    ensures var s' := CollectAll(u, s, n);
            && s' == s.(schedules := s'.schedules, ready := s'.ready)
            && |s'.ready| <= |s.ready| + n
  {
    if n > 0 {
      CollectAllFrame(u, s, n - 1);
      CollectFeedShape(CollectAll(u, s, n - 1), u.feeds[n - 1]);
      hide CollectFeed, Shaped;
    }
  }

  /** A done future of a feed with nothing pending is collected. */
  ghost predicate Collectable(s: State, f: Feed)
    requires f in s.schedules
  {
    !Running(s, f) && !s.schedules[f].resultPending
  }

  lemma {:induction false} CollectAllLeaves(u: Setup, s: State, n: nat, i: nat)
    requires Good(u) && Shaped(u, s) && n <= i < |u.feeds|
    ensures u.feeds[i] in s.schedules && u.feeds[i] in CollectAll(u, s, n).schedules
    ensures CollectAll(u, s, n).schedules[u.feeds[i]] == s.schedules[u.feeds[i]]
  {
    hide CollectFeed;
    if n > 0 {
      CollectAllLeaves(u, s, n - 1, i);
      assert u.feeds[i] != u.feeds[n - 1];
      hide Good;
      CollectFeedShape(CollectAll(u, s, n - 1), u.feeds[n - 1]);
    }
  }

  lemma {:induction false} CollectAllTakes(u: Setup, s: State, n: nat, i: nat)
    requires Good(u) && Shaped(u, s) && i < n <= |u.feeds|
    requires u.feeds[i] in s.schedules && Collectable(s, u.feeds[i])
    ensures u.feeds[i] in CollectAll(u, s, n).schedules
    ensures CollectAll(u, s, n).schedules[u.feeds[i]].future.None?
  {
    hide CollectFeed;
    var s1, f, g := CollectAll(u, s, n - 1), u.feeds[n - 1], u.feeds[i];
    if i == n - 1 {
      CollectAllLeaves(u, s, n - 1, i);
      assert Collectable(s1, g);
      CollectFeedShape(s1, g);
    } else {
      assert g != f;
      hide Good;
      CollectAllTakes(u, s, n - 1, i);
      hide Running, Collectable;
      CollectFeedShape(s1, f);
    }
  }

  lemma {:induction false} SubmitAllKeeps(u: Setup, s: State, n: nat, now: real, ids: Feed -> Id)
    requires Accounted(u, s) && n <= |u.feeds|
    ensures Shaped(u, s)
    ensures Accounted(u, SubmitAll(u, s, n, now, ids))
    ensures OnePerFeed(s) ==> OnePerFeed(SubmitAll(u, s, n, now, ids))
  {
    AccountedShaped(u, s);
    hide Accounted, OnePerFeed, SubmitFeed;
    if n > 0 {
      SubmitAllKeeps(u, s, n - 1, now, ids);
      var s1, f := SubmitAll(u, s, n - 1, now, ids), u.feeds[n - 1];
      hide SubmitAll;
      SubmitTouchesOneFeed(s1, f, now, ids(f));
      SubmitKeepsInv(u, s1, f, now, ids(f));
    }
  }

  /** Submitting leaves what has been collected alone. */
  lemma {:induction false} SubmitAllFrame(u: Setup, s: State, n: nat, now: real, ids: Feed -> Id)
    requires Shaped(u, s) && n <= |u.feeds|
    ensures var s' := SubmitAll(u, s, n, now, ids);
            s' == s.(schedules := s'.schedules, submitted := s'.submitted)
    ensures !s.accepting ==> SubmitAll(u, s, n, now, ids) == s
  {
    if n > 0 {
      SubmitAllFrame(u, s, n - 1, now, ids);
      var s1, f := SubmitAll(u, s, n - 1, now, ids), u.feeds[n - 1];
      SubmitTouchesOneFeed(s1, f, now, ids(f));
      if !s.accepting {
        assert SubmitFeed(s1, f, now, ids(f)) == s1;
      }
      hide SubmitFeed, Shaped;
    }
  }

  lemma SubmitLastAdvances(u: Setup, s: State, n: nat, now: real, ids: Feed -> Id)
    requires Accounted(u, s) && Shaped(u, s) && 0 < n <= |u.feeds| && s.accepting
    ensures u.feeds[n - 1] in SubmitAll(u, s, n, now, ids).schedules
    ensures now < SubmitAll(u, s, n, now, ids).schedules[u.feeds[n - 1]].nextDeadline
  {
    hide Accounted, SubmitFeed;
    SubmitAllKeeps(u, s, n - 1, now, ids);
    SubmitAllFrame(u, s, n - 1, now, ids);
    var s1, f := SubmitAll(u, s, n - 1, now, ids), u.feeds[n - 1];
    assert f in u.feeds;
    assert f in s1.schedules && f in s1.submitted;
    assert SubmitAll(u, s, n, now, ids) == SubmitFeed(s1, f, now, ids(f));
    hide SubmitAll, Shaped;
    SubmitKeepsInv(u, s1, f, now, ids(f));
    SubmitTouchesOneFeed(s1, f, now, ids(f));
  }

  /** After an accepting step every deadline is in the future. */
  lemma {:induction false} SubmitAllAdvances(u: Setup, s: State, n: nat, now: real, ids: Feed -> Id, i: nat)
    requires Good(u) && Accounted(u, s) && Shaped(u, s) && i < n <= |u.feeds| && s.accepting
    ensures u.feeds[i] in SubmitAll(u, s, n, now, ids).schedules
    ensures now < SubmitAll(u, s, n, now, ids).schedules[u.feeds[i]].nextDeadline
  {
    hide Accounted;
    if i == n - 1 {
      SubmitLastAdvances(u, s, n, now, ids);
    } else {
      SubmitAllAdvances(u, s, n - 1, now, ids, i);
      var s1, f := SubmitAll(u, s, n - 1, now, ids), u.feeds[n - 1];
      assert SubmitAll(u, s, n, now, ids) == SubmitFeed(s1, f, now, ids(f));
      assert u.feeds[i] != f;
      SubmitTouchesOneFeed(s1, f, now, ids(f));
      hide SubmitFeed, Good, SubmitAll, Shaped;
    }
  }

  /******* Every interleaving *******/

  /** Moving a result from one place to the next leaves the stream as it is. */
  lemma PutMovesOne(u: Setup, s: State)
    requires s.ready != [] && |s.queue| < |u.feeds|
    ensures Stream(Put(u, s)) == Stream(s) && Unacknowledged(Put(u, s)) == Unacknowledged(s)
  {
  }

  lemma TakeMovesOne(s: State)
    requires s.queue != [] && s.held.None?
    ensures Stream(Taken(s)) == Stream(s) && Unacknowledged(Taken(s)) == Unacknowledged(s)
  {
  }

  /** Distinct elements of a set are no more than the set has. */
  lemma {:induction false} Pigeonhole<T>(items: seq<T>, pool: set<T>)
    requires forall i, j :: 0 <= i < j < |items| ==> items[i] != items[j]
    requires forall i :: 0 <= i < |items| ==> items[i] in pool
    ensures |items| <= |pool|
  {
    if items != [] {
      var last := items[|items| - 1];
      Pigeonhole(items[..|items| - 1], pool - {last});
    }
  }

  lemma {:induction false} ElementsBound<T>(items: seq<T>)
    ensures |set x | x in items| <= |items|
  {
    if items != [] {
      var front, last := items[..|items| - 1], items[|items| - 1];
      ElementsBound(front);
      assert (set x | x in items) == (set x | x in front) + {last} by {
        assert items == front + [last];
      }
    }
  }

  /** `put_nowait` never meets a full queue: there is room for everything collected. */
  lemma RoomForAll(u: Setup, s: State)
    requires Inv(u, s)
    ensures |s.queue| + |s.ready| + (if s.held.Some? then 1 else 0) <= |u.feeds|
  {
    var items := Unacknowledged(s);
    var feeds := seq(|items|, i requires 0 <= i < |items| => items[i].feed);
    hide Accounts;
    Pigeonhole(feeds, s.schedules.Keys);
    ElementsBound(u.feeds);
  }

  lemma AcknowledgeKeepsOnePerFeed(s: State)
    requires OnePerFeed(s) && Possible(s, Acknowledge)
    ensures OnePerFeed(Acknowledged(s))
  {
    var all, rest := Unacknowledged(s), Unacknowledged(Acknowledged(s));
    assert all == [s.held.value] + rest;
    assert all[0] == s.held.value;
    assert rest == all[1..];
    hide Unacknowledged;
    forall f | f in s.schedules && s.schedules[f].resultPending && f != s.held.value.feed
      ensures exists i :: 0 <= i < |rest| && rest[i].feed == f
    {
      var i :| 0 <= i < |all| && all[i].feed == f;
      assert rest[i - 1].feed == f;
    }
  }

  lemma AcknowledgeKeepsAccounted(u: Setup, s: State)
    requires Accounted(u, s) && Possible(s, Acknowledge)
    ensures Accounted(u, Acknowledged(s))
  {
    var s' := Acknowledged(s);
    assert Stream(s') == Stream(s);
    hide Stream, Span, RequestsOf, MissedOf;
    forall g | g in s'.schedules
      ensures Accounts(u, s', g)
    {
      assert Accounts(u, s, g);
    }
  }

  lemma CompleteKeepsInv(u: Setup, s: State, f: Feed, outcome: Outcome)
    requires Running(s, f)
    ensures Accounted(u, s) ==> Accounted(u, Completed(s, f, outcome))
    ensures OnePerFeed(s) ==> OnePerFeed(Completed(s, f, outcome))
  {
    var s' := Completed(s, f, outcome);
    assert Stream(s') == Stream(s) && Unacknowledged(s') == Unacknowledged(s);
    hide Stream, Unacknowledged, Span, RequestsOf, MissedOf;
    if Accounted(u, s) {
      forall g | g in s'.schedules
        ensures Accounts(u, s', g)
      {
        assert Accounts(u, s, g);
      }
    }
  }

  lemma MovedKeepsInv(u: Setup, s: State, s': State)
    requires Inv(u, s) && s'.schedules == s.schedules && s'.submitted == s.submitted
    requires Stream(s') == Stream(s) && Unacknowledged(s') == Unacknowledged(s)
    ensures Inv(u, s')
  {
    hide Stream, Unacknowledged, DeadlineLaw, RequestLaw;
    forall g | g in s'.schedules
      ensures Accounts(u, s', g)
    {
      assert Accounts(u, s, g);
    }
  }

  lemma NextKeepsInv(u: Setup, s: State, a: Action)
    requires Inv(u, s) && Possible(s, a)
    ensures Shaped(u, s)
    ensures Inv(u, Next(u, s, a))
  {
    AccountedShaped(u, s);
    hide Accounted, OnePerFeed, Shaped;
    match a
    case Step(now, ids) =>
      CollectAllKeeps(u, s, |u.feeds|);
      SubmitAllKeeps(u, CollectAll(u, s, |u.feeds|), |u.feeds|, now, ids);
    case PutNowait =>
      RoomForAll(u, s);
      PutMovesOne(u, s);
      MovedKeepsInv(u, s, Put(u, s));
    case Get =>
      TakeMovesOne(s);
      MovedKeepsInv(u, s, Taken(s));
    case Acknowledge =>
      AcknowledgeKeepsOnePerFeed(s);
      AcknowledgeKeepsAccounted(u, s);
    case Complete(f, outcome) =>
      CompleteKeepsInv(u, s, f, outcome);
    case StopAccepting =>
      MovedKeepsInv(u, s, s.(accepting := false));
  }

  lemma InitialInv(u: Setup)
    requires Good(u)
    ensures Inv(u, Initial(u))
  {
    var s := Initial(u);
    assert s.schedules.Keys == s.submitted.Keys == (set f | f in u.feeds);
    assert Unacknowledged(s) == [] && Stream(s) == [];
    forall f | f in s.schedules
      ensures Accounts(u, s, f)
    {
      assert s.submitted[f] == [];
    }
  }

  /** The state after some of the possible interleavings, each step possible where it is taken. */
  ghost predicate Reaches(u: Setup, s: State, actions: seq<Action>, end: State)
    decreases |actions|
  {
    if actions == [] then s == end else
    && Possible(s, actions[0])
    && Shaped(u, s)
    && Reaches(u, Next(u, s, actions[0]), actions[1..], end)
  }

  lemma {:induction false} ReachesKeepsInv(u: Setup, s: State, actions: seq<Action>, end: State)
    requires Inv(u, s) && Reaches(u, s, actions, end)
    ensures Inv(u, end)
    decreases |actions|
  {
    hide Inv, Shaped, Next;
    if actions != [] {
      NextKeepsInv(u, s, actions[0]);
      ReachesKeepsInv(u, Next(u, s, actions[0]), actions[1..], end);
    }
  }

  lemma AccountsOf(u: Setup, s: State, f: Feed)
    requires Accounted(u, s) && f in u.feeds
    ensures f in s.schedules && f in s.submitted && Accounts(u, s, f)
  {
    hide Accounts;
    assert f in s.schedules.Keys && f in s.submitted.Keys;
  }

  /** For every interleaving of the scheduler, the workers and the consumer: requests leave in the
      order they were submitted, each once; a feed has at most one unacknowledged result and one
      future; there is room in the queue; and every deadline and every miss is accounted for. */
  lemma EveryInterleaving(u: Setup, actions: seq<Action>, s: State, f: Feed)
    requires Good(u) && Reaches(u, Initial(u), actions, s) && f in u.feeds
    ensures f in s.schedules && f in s.submitted
    ensures |s.queue| + |s.ready| + (if s.held.Some? then 1 else 0) <= |u.feeds|
    ensures OnePerFeed(s)
    ensures var fs := s.schedules[f];
            var outstanding := if fs.future.Some? then 1 else 0;
            && s.submitted[f] == RequestsOf(f, Stream(s)) + (if fs.future.Some? then [ActiveRequest(fs)] else [])
            && fs.totalSubmitted == |s.submitted[f]| == fs.totalCompleted + outstanding
            && fs.totalMissed == MissedOf(f, Stream(s)) + fs.missedSinceLastRequest
                                 + (if fs.future.Some? then fs.activeMissedBefore else 0)
            && fs.nextDeadline == u.start + Span(fs.totalSubmitted + fs.totalMissed, fs.interval)
            && (fs.future.Some? ==> 0.0 <= fs.activeLagMs < fs.interval * 1000.0)
            && LagLaw(fs.interval, f, Stream(s))
  {
    InitialInv(u);
    var s0 := Initial(u);
    hide Initial, Next, Good, Accounted, OnePerFeed;
    ReachesKeepsInv(u, s0, actions, s);
    hide Reaches;
    RoomForAll(u, s);
    AccountsOf(u, s, f);
    hide RequestsOf, MissedOf, Span, Stream;
  }

  /******* When a feed's request is submitted *******/

  /** Nothing happens before the deadline or when submissions have stopped. Otherwise the deadline moves on
      by the least number of intervals that puts it in the future; a running request makes all of them
      misses; without one the last of them becomes a request, late by the time since it was due, and the
      others are its misses. */
  lemma SubmitMeaning(s: State, f: Feed, now: real, pollId: Id)
    requires f in s.schedules && f in s.submitted && s.schedules[f].interval > 0.0
    ensures f in SubmitFeed(s, f, now, pollId).schedules && f in SubmitFeed(s, f, now, pollId).submitted
    ensures !s.accepting || now < s.schedules[f].nextDeadline ==> SubmitFeed(s, f, now, pollId) == s
    ensures s.accepting && now >= s.schedules[f].nextDeadline ==>
              var s' := SubmitFeed(s, f, now, pollId);
              var fs, fs' := s.schedules[f], s'.schedules[f];
              && fs'.nextDeadline - fs.interval <= now < fs'.nextDeadline
              && (exists n: nat ::
                    && Advanced(fs, fs', n)
                    && (fs.future.Some? ==>
                          && fs'.future == fs.future && s'.submitted[f] == s.submitted[f]
                          && fs'.totalMissed == fs.totalMissed + n
                          && fs'.missedSinceLastRequest == fs.missedSinceLastRequest + n)
                    && (fs.future.None? ==>
                          && fs'.future == Some(Future(pollId, None)) && fs'.totalMissed == fs.totalMissed + n - 1
                          && fs'.missedSinceLastRequest == 0
                          && s'.submitted[f] == s.submitted[f] +
                             [Request(pollId, (now - (fs'.nextDeadline - fs.interval)) * 1000.0,
                                      fs.missedSinceLastRequest + n - 1)]))
  {
    var fs, s' := s.schedules[f], SubmitFeed(s, f, now, pollId);
    if s.accepting && now >= fs.nextDeadline {
      DueCountMeaning(fs, now);
      var n: nat := DueCount(fs, now);
      SpanAdd(n - 1, 1, fs.interval);
      SpanOne(fs.interval);
      assert Advanced(fs, s'.schedules[f], n);
      hide Span, DueCount, Advanced;
    }
  }

  /** At least one interval on. */
  ghost predicate Advanced(fs: FeedSchedule, fs': FeedSchedule, n: nat) {
    n >= 1 && fs'.nextDeadline == fs.nextDeadline + n as real * fs.interval
  }

  lemma {:induction false} CollectAllDeadline(u: Setup, s: State, n: nat, f: Feed)
    requires Shaped(u, s) && n <= |u.feeds| && f in s.schedules
    ensures f in CollectAll(u, s, n).schedules
    ensures CollectAll(u, s, n).schedules[f].nextDeadline == s.schedules[f].nextDeadline
    ensures CollectAll(u, s, n).accepting == s.accepting
    ensures s.schedules[f].future.None? ==> CollectAll(u, s, n).schedules[f].future.None?
  {
    if n > 0 {
      CollectAllDeadline(u, s, n - 1, f);
      hide CollectAll, Shaped;
    }
  }

  /** The feed is due and has no request. */
  ghost predicate Waits(s: State, f: Feed, now: real) {
    && f in s.schedules && f in s.submitted && s.schedules[f].interval > 0.0 && s.accepting
    && now >= s.schedules[f].nextDeadline && s.schedules[f].future.None?
  }

  ghost predicate Requested(s: State, f: Feed, pollId: Id) {
    f in s.schedules && s.schedules[f].future == Some(Future(pollId, None))
  }

  lemma SubmitsNow(s: State, f: Feed, now: real, pollId: Id)
    requires Waits(s, f, now)
    ensures Requested(SubmitFeed(s, f, now, pollId), f, pollId)
  {
    SubmitMeaning(s, f, now, pollId);
    hide SubmitFeed, Advanced;
  }

  lemma SubmitElsewhere(s: State, g: Feed, now: real, other: Id, f: Feed, pollId: Id)
    requires g in s.schedules && g in s.submitted && s.schedules[g].interval > 0.0 && g != f
    ensures Requested(s, f, pollId) ==> Requested(SubmitFeed(s, g, now, other), f, pollId)
    ensures Waits(s, f, now) ==> Waits(SubmitFeed(s, g, now, other), f, now)
  {
    SubmitTouchesOneFeed(s, g, now, other);
    hide SubmitFeed;
  }

  lemma SubmitAllLast(u: Setup, s: State, n: nat, now: real, ids: Feed -> Id)
    requires Shaped(u, s) && 0 < n <= |u.feeds|
    ensures var s1, f := SubmitAll(u, s, n - 1, now, ids), u.feeds[n - 1];
            && f in s1.schedules && f in s1.submitted && s1.schedules[f].interval > 0.0
            && SubmitAll(u, s, n, now, ids) == SubmitFeed(s1, f, now, ids(f))
  {
    hide SubmitFeed;
  }

  lemma SubmitAllNone(u: Setup, s: State, now: real, ids: Feed -> Id)
    requires Shaped(u, s)
    ensures SubmitAll(u, s, 0, now, ids) == s
  {
  }

  lemma FeedsDiffer(u: Setup, i: nat, j: nat)
    requires Good(u) && i < |u.feeds| && j < |u.feeds|
    ensures i != j ==> u.feeds[i] != u.feeds[j]
  {
  }

  /** A waiting feed waits until its turn, and has its request from then on. */
  lemma {:induction false} SubmitAllSubmits(u: Setup, s: State, n: nat, now: real, ids: Feed -> Id, i: nat)
    requires Good(u) && Shaped(u, s) && n <= |u.feeds| && i < |u.feeds| && Waits(s, u.feeds[i], now)
    ensures if i < n then Requested(SubmitAll(u, s, n, now, ids), u.feeds[i], ids(u.feeds[i]))
            else Waits(SubmitAll(u, s, n, now, ids), u.feeds[i], now)
  {
    hide *;
    if n == 0 {
      SubmitAllNone(u, s, now, ids);
    } else {
      FeedsDiffer(u, i, n - 1);
      var s1, f := SubmitAll(u, s, n - 1, now, ids), u.feeds[n - 1];
      SubmitAllLast(u, s, n, now, ids);
      SubmitAllSubmits(u, s, n - 1, now, ids, i);
      if i == n - 1 {
        SubmitsNow(s1, f, now, ids(f));
      } else {
        SubmitElsewhere(s1, f, now, ids(f), u.feeds[i], ids(u.feeds[i]));
      }
    }
  }

  lemma CollectedShape(u: Setup, s: State, f: Feed)
    requires Shaped(u, s) && f in u.feeds
    ensures var s1 := CollectAll(u, s, |u.feeds|);
            f in s1.schedules && f in s1.submitted && s1.schedules[f].interval > 0.0
  {
    hide CollectAll;
  }

  /** An accepting step leaves every due feed with a new request under its id, if it had none or its last
      one is finished and the result before that is acknowledged. */
  lemma StepSubmitsDue(u: Setup, s: State, now: real, ids: Feed -> Id, i: nat)
    requires Good(u) && Inv(u, s) && s.accepting && i < |u.feeds|
    ensures Shaped(u, s) && u.feeds[i] in s.schedules && u.feeds[i] in Stepped(u, s, now, ids).schedules
    ensures var f, fs := u.feeds[i], s.schedules[u.feeds[i]];
            now >= fs.nextDeadline
            && (fs.future.None? || (fs.future.value.outcome.Some? && !fs.resultPending)) ==>
              Stepped(u, s, now, ids).schedules[f].future == Some(Future(ids(f), None))
  {
    AccountedShaped(u, s);
    var f, s1 := u.feeds[i], CollectAll(u, s, |u.feeds|);
    assert f in u.feeds;
    var fs := s.schedules[f];
    StepAdvances(u, s, now, ids, i);
    hide Accounted, OnePerFeed, CollectAll, SubmitAll, Shaped;
    CollectAllDeadline(u, s, |u.feeds|, f);
    if now >= fs.nextDeadline && (fs.future.None? || (fs.future.value.outcome.Some? && !fs.resultPending)) {
      if fs.future.Some? {
        CollectAllTakes(u, s, |u.feeds|, i);
      }
      assert s1.schedules[f].interval > 0.0 && f in s1.submitted by {
        CollectedShape(u, s, f);
      }
      SubmitAllSubmits(u, s1, |u.feeds|, now, ids, i);
    }
  }

  /******* What requests came to *******/

  ghost function OutcomesOf(f: Feed, items: seq<ScheduledResult>): seq<Outcome> {
    if items == [] then [] else
    var last := items[|items| - 1];
    OutcomesOf(f, items[..|items| - 1]) + (if last.feed == f then [last.outcome] else [])
  }

  /** What the workers of a feed came to, in order, read off the run itself. */
  ghost function CompletedBy(actions: seq<Action>, f: Feed): seq<Outcome> {
    if actions == [] then [] else
    (if actions[0].Complete? && actions[0].feed == f then [actions[0].outcome] else []) + CompletedBy(actions[1..], f)
  }

  ghost function Uncollected(fs: FeedSchedule): seq<Outcome> {
    if fs.future.Some? && fs.future.value.outcome.Some? then [fs.future.value.outcome.value] else []
  }

  /** `history` is what a feed's results hold, with the finished request that is not collected yet. */
  ghost predicate OutcomeLaw(s: State, f: Feed, history: seq<Outcome>) {
    f in s.schedules && history == OutcomesOf(f, Stream(s)) + Uncollected(s.schedules[f])
  }

  lemma OutcomesSnoc(f: Feed, items: seq<ScheduledResult>, item: ScheduledResult)
    ensures OutcomesOf(f, items + [item]) == OutcomesOf(f, items) + (if item.feed == f then [item.outcome] else [])
  {
    assert (items + [item])[..|items|] == items;
  }

  /** A finished request becomes a result. */
  lemma OutcomeMoves(s: State, s': State, item: ScheduledResult, f: Feed, history: seq<Outcome>)
    requires OutcomeLaw(s, f, history) && f in s'.schedules && Stream(s') == Stream(s) + [item]
    requires item.feed == f ==>
               Uncollected(s.schedules[f]) == [item.outcome] && Uncollected(s'.schedules[f]) == []
    requires item.feed != f ==> Uncollected(s'.schedules[f]) == Uncollected(s.schedules[f])
    ensures OutcomeLaw(s', f, history)
  {
    OutcomesSnoc(f, Stream(s), item);
    hide Stream, OutcomesOf, Uncollected;
    var before, rest := OutcomesOf(f, Stream(s)), Uncollected(s'.schedules[f]);
    if item.feed == f {
      assert (before + [item.outcome]) + [] == before + [item.outcome];
    } else {
      assert before + [] == before;
    }
  }

  lemma CollectKeepsOutcomes(s: State, g: Feed, f: Feed, history: seq<Outcome>)
    requires g in s.schedules && OutcomeLaw(s, f, history)
    ensures OutcomeLaw(CollectFeed(s, g), f, history)
  {
    assert f in s.schedules;
    var s', fs := CollectFeed(s, g), s.schedules[g];
    if fs.future.Some? && fs.future.value.outcome.Some? && !fs.resultPending {
      var item := s'.ready[|s.ready|];
      assert item.feed == g && item.outcome == fs.future.value.outcome.value;
      assert Stream(s') == Stream(s) + [item];
      hide Stream, OutcomesOf, OutcomeLaw;
      OutcomeMoves(s, s', item, f, history);
    }
  }

  lemma SubmitKeepsOutcomes(s: State, g: Feed, now: real, pollId: Id, f: Feed, history: seq<Outcome>)
    requires g in s.schedules && g in s.submitted && s.schedules[g].interval > 0.0 && OutcomeLaw(s, f, history)
    ensures OutcomeLaw(SubmitFeed(s, g, now, pollId), f, history)
  {
    if s.accepting && now >= s.schedules[g].nextDeadline {
      DueCountMeaning(s.schedules[g], now);
    }
    hide Span, DueCount, OutcomesOf;
  }

  lemma {:induction false} CollectAllOutcomes(u: Setup, s: State, n: nat, f: Feed, history: seq<Outcome>)
    requires Shaped(u, s) && n <= |u.feeds| && OutcomeLaw(s, f, history)
    ensures OutcomeLaw(CollectAll(u, s, n), f, history)
  {
    hide OutcomeLaw, CollectFeed;
    if n > 0 {
      CollectAllOutcomes(u, s, n - 1, f, history);
      CollectKeepsOutcomes(CollectAll(u, s, n - 1), u.feeds[n - 1], f, history);
    }
  }

  lemma {:induction false} SubmitAllOutcomes(u: Setup, s: State, n: nat, now: real, ids: Feed -> Id, f: Feed,
                                             history: seq<Outcome>)
    requires Shaped(u, s) && n <= |u.feeds| && OutcomeLaw(s, f, history)
    ensures OutcomeLaw(SubmitAll(u, s, n, now, ids), f, history)
  {
    hide OutcomeLaw, SubmitFeed;
    if n > 0 {
      SubmitAllOutcomes(u, s, n - 1, now, ids, f, history);
      SubmitKeepsOutcomes(SubmitAll(u, s, n - 1, now, ids), u.feeds[n - 1], now, ids(u.feeds[n - 1]), f, history);
    }
  }

  /** Moving a result on changes neither what is in the stream nor what is uncollected. */
  lemma OutcomesStay(s: State, s': State, f: Feed, history: seq<Outcome>)
    requires OutcomeLaw(s, f, history) && Stream(s') == Stream(s)
    requires f in s'.schedules && s'.schedules[f].future == s.schedules[f].future
    ensures OutcomeLaw(s', f, history)
  {
    hide Stream, OutcomesOf;
  }

  lemma AcknowledgeKeepsOutcomes(s: State, f: Feed, history: seq<Outcome>)
    requires Possible(s, Acknowledge) && OutcomeLaw(s, f, history)
    ensures OutcomeLaw(Acknowledged(s), f, history)
  {
    hide OutcomesOf;
    OutcomesStay(s, Acknowledged(s), f, history);
  }

  lemma CompleteAddsOutcome(s: State, g: Feed, outcome: Outcome, f: Feed, history: seq<Outcome>)
    requires Running(s, g) && OutcomeLaw(s, f, history)
    ensures OutcomeLaw(Completed(s, g, outcome), f, history + (if g == f then [outcome] else []))
  {
    var s' := Completed(s, g, outcome);
    assert Stream(s') == Stream(s);
    hide Stream, OutcomesOf;
    var before := OutcomesOf(f, Stream(s));
    if g == f {
      assert before + [] == before;
      assert Uncollected(s'.schedules[f]) == [outcome];
    } else {
      assert history + [] == history;
    }
  }

  lemma StepKeepsOutcomes(u: Setup, s: State, now: real, ids: Feed -> Id, f: Feed, history: seq<Outcome>)
    requires Shaped(u, s) && OutcomeLaw(s, f, history)
    ensures OutcomeLaw(Stepped(u, s, now, ids), f, history)
  {
    hide OutcomeLaw, CollectAll, SubmitAll;
    CollectAllOutcomes(u, s, |u.feeds|, f, history);
    SubmitAllOutcomes(u, CollectAll(u, s, |u.feeds|), |u.feeds|, now, ids, f, history);
  }

  lemma NextKeepsOutcomes(u: Setup, s: State, a: Action, f: Feed, history: seq<Outcome>)
    requires Shaped(u, s) && Possible(s, a) && OutcomeLaw(s, f, history)
    requires a.PutNowait? ==> |s.queue| < |u.feeds|
    ensures OutcomeLaw(Next(u, s, a), f, history + (if a.Complete? && a.feed == f then [a.outcome] else []))
  {
    assert history + [] == history;
    assert f in s.schedules;
    hide OutcomeLaw, Shaped, Stepped, Acknowledged, Completed;
    match a
    case Step(now, ids) => StepKeepsOutcomes(u, s, now, ids, f, history);
    case PutNowait =>
      PutMovesOne(u, s);
      PutKeepsSchedules(u, s);
      hide Stream, Put;
      OutcomesStay(s, Put(u, s), f, history);
    case Get =>
      TakeMovesOne(s);
      hide Stream;
      OutcomesStay(s, Taken(s), f, history);
    case Acknowledge => AcknowledgeKeepsOutcomes(s, f, history);
    case Complete(g, outcome) => CompleteAddsOutcome(s, g, outcome, f, history);
    case StopAccepting => OutcomesStay(s, s.(accepting := false), f, history);
  }

  lemma PutKeepsSchedules(u: Setup, s: State)
    requires s.ready != []
    ensures Put(u, s).schedules == s.schedules
  {
  }

  lemma {:induction false} ReachesOutcomes(u: Setup, s: State, actions: seq<Action>, end: State, f: Feed,
                                           history: seq<Outcome>)
    requires Inv(u, s) && Reaches(u, s, actions, end) && OutcomeLaw(s, f, history)
    ensures OutcomeLaw(end, f, history + CompletedBy(actions, f))
    decreases |actions|
  {
    hide Inv, Shaped, Next, OutcomeLaw;
    if actions == [] {
      assert history + [] == history;
    } else {
      var a := actions[0];
      RoomForAll(u, s);
      NextKeepsInv(u, s, a);
      NextKeepsOutcomes(u, s, a, f, history);
      var more := if a.Complete? && a.feed == f then [a.outcome] else [];
      ReachesOutcomes(u, Next(u, s, a), actions[1..], end, f, history + more);
      assert history + more + CompletedBy(actions[1..], f) == history + CompletedBy(actions, f);
    }
  }

  lemma InitialOutcomes(u: Setup, f: Feed)
    requires Good(u) && f in u.feeds
    ensures OutcomeLaw(Initial(u), f, [])
  {
    assert OutcomesOf(f, Stream(Initial(u))) == [];
  }

  /** For every interleaving: the results of a feed hold exactly what its workers came to, in order, each
      once, but for a finished request that has not been collected yet. */
  lemma EveryOutcomeIsItsOwn(u: Setup, actions: seq<Action>, s: State, f: Feed)
    requires Good(u) && Reaches(u, Initial(u), actions, s) && f in u.feeds
    ensures f in s.schedules
    ensures var fs := s.schedules[f];
            CompletedBy(actions, f) ==
            OutcomesOf(f, Stream(s)) +
            if fs.future.Some? && fs.future.value.outcome.Some? then [fs.future.value.outcome.value] else []
  {
    InitialInv(u);
    InitialOutcomes(u, f);
    hide Initial, Reaches, Good, Inv, OutcomesOf, Stream;
    ReachesOutcomes(u, Initial(u), actions, s, f, []);
    assert [] + CompletedBy(actions, f) == CompletedBy(actions, f);
  }

  lemma StepAdvances(u: Setup, s: State, now: real, ids: Feed -> Id, i: nat)
    requires Good(u) && Inv(u, s) && s.accepting && i < |u.feeds|
    ensures Shaped(u, s) && u.feeds[i] in Stepped(u, s, now, ids).schedules
    ensures now < Stepped(u, s, now, ids).schedules[u.feeds[i]].nextDeadline
  {
    CollectAllKeeps(u, s, |u.feeds|);
    CollectAllFrame(u, s, |u.feeds|);
    hide Accounted, OnePerFeed;
    AccountedShaped(u, s);
    SubmitAllAdvances(u, CollectAll(u, s, |u.feeds|), |u.feeds|, now, ids, i);
  }

  /******* Draining *******/

  /** What `executor.shutdown(wait=True)` leaves: every running request has its outcome. */
  function Finished(fs: FeedSchedule, outcome: Outcome): FeedSchedule {
    if fs.future.Some? && fs.future.value.outcome.None?
    then fs.(future := Some(fs.future.value.(outcome := Some(outcome))))
    else fs
  }

  function Cleared(fs: FeedSchedule): FeedSchedule {
    fs.(resultPending := false, pendingPollId := None)
  }

  /** Submissions stopped, every future terminal, the queue handed over and the pending flags cleared. */
  ghost function Quiesced(s: State, outcomes: Feed -> Outcome): State {
    s.(accepting := false, delivered := s.delivered + s.queue, queue := [],
       schedules := map f | f in s.schedules :: Cleared(Finished(s.schedules[f], outcomes(f))))
  }

  ghost function PutAll(u: Setup, s: State): State
    decreases |s.ready|
  {
    if s.ready == [] then s else PutAll(u, Put(u, s))
  }

  function HandedOver(s: State): State {
    s.(delivered := s.delivered + s.queue, queue := [])
  }

  /** The state `stop_and_drain` leaves. */
  ghost function StoppedAndDrained(u: Setup, s: State, now: real, ids: Feed -> Id, outcomes: Feed -> Outcome): State
    requires Shaped(u, s)
  {
    HandedOver(PutAll(u, Stepped(u, Quiesced(s, outcomes), now, ids)))
  }

  lemma QuiescedAccounts(u: Setup, s: State, outcomes: Feed -> Outcome)
    requires Accounted(u, s) && s.ready == []
    ensures Accounted(u, Quiesced(s, outcomes))
  {
    var s' := Quiesced(s, outcomes);
    assert s'.schedules.Keys == s.schedules.Keys;
    assert Stream(s') == Stream(s);
    hide Stream, Span, RequestsOf, MissedOf;
    forall g | g in s'.schedules
      ensures Accounts(u, s', g)
    {
      assert Accounts(u, s, g);
    }
  }

  /** With room for everything, putting moves `ready` behind the queue. */
  lemma {:induction false} PutAllFits(u: Setup, s: State)
    requires |s.queue| + |s.ready| <= |u.feeds|
    ensures PutAll(u, s) == s.(queue := s.queue + s.ready, ready := [])
    decreases |s.ready|
  {
    if s.ready == [] {
      assert s.queue + s.ready == s.queue;
    } else {
      PutAllFits(u, Put(u, s));
      assert s.queue + [s.ready[0]] + s.ready[1..] == s.queue + s.ready;
    }
  }

  /** The second step collects every future that is left and submits nothing. */
  lemma DrainingStep(u: Setup, s: State, now: real, ids: Feed -> Id)
    requires Good(u) && Accounted(u, s) && !s.accepting && s.ready == []
    requires forall f :: f in s.schedules ==> Collectable(s, f)
    ensures Shaped(u, s)
    ensures var s' := Stepped(u, s, now, ids);
            && Accounted(u, s')
            && s' == s.(schedules := s'.schedules, ready := s'.ready)
            && |s'.ready| <= |u.feeds|
            && forall f :: f in u.feeds ==> f in s'.schedules && s'.schedules[f].future.None?
  {
    CollectAllKeeps(u, s, |u.feeds|);
    CollectAllFrame(u, s, |u.feeds|);
    var s' := CollectAll(u, s, |u.feeds|);
    SubmitAllFrame(u, s', |u.feeds|, now, ids);
    assert Stepped(u, s, now, ids) == s';
    hide Accounted, CollectAll, SubmitAll, Stepped;
    forall f | f in u.feeds
      ensures f in s'.schedules && s'.schedules[f].future.None?
    {
      var i :| 0 <= i < |u.feeds| && u.feeds[i] == f;
      hide Shaped, Collectable, Good;
      DrainTakes(u, s, i);
    }
  }

  lemma DrainTakes(u: Setup, s: State, i: nat)
    requires Good(u) && Shaped(u, s) && i < |u.feeds|
    requires forall f :: f in s.schedules ==> Collectable(s, f)
    ensures u.feeds[i] in CollectAll(u, s, |u.feeds|).schedules
    ensures CollectAll(u, s, |u.feeds|).schedules[u.feeds[i]].future.None?
  {
    assert u.feeds[i] in u.feeds;
    hide Good, Collectable;
    CollectAllTakes(u, s, |u.feeds|, i);
  }

  /** The draining step meets an empty queue, so everything it collects is handed over. */
  lemma DrainEnds(u: Setup, s: State, now: real, ids: Feed -> Id, outcomes: Feed -> Outcome)
    requires Good(u) && Accounted(u, s) && s.ready == []
    ensures Shaped(u, s) && Shaped(u, Quiesced(s, outcomes))
    ensures var t := Stepped(u, Quiesced(s, outcomes), now, ids);
            && Accounted(u, t) && t.queue == [] && t.submitted == s.submitted && s.delivered <= t.delivered
            && StoppedAndDrained(u, s, now, ids, outcomes) == t.(delivered := t.delivered + t.ready, ready := [])
            && forall f :: f in u.feeds ==> f in t.schedules && t.schedules[f].future.None?
  {
    AccountedShaped(u, s);
    var q := Quiesced(s, outcomes);
    QuiescedAccounts(u, s, outcomes);
    assert forall g :: g in q.schedules ==> Collectable(q, g);
    assert q.ready == [] && q.queue == [] && !q.accepting && s.delivered <= q.delivered && q.submitted == s.submitted;
    AccountedShaped(u, q);
    assert Stepped(u, q, now, ids) == Stepped(u, Quiesced(s, outcomes), now, ids);
    hide Collectable, Accounted, Good, Quiesced, Shaped;
    DrainingStep(u, q, now, ids);
    var t := Stepped(u, q, now, ids);
    hide Stepped;
    PutAllFits(u, t);
    assert t.queue == [] && t.queue + t.ready == t.ready;
    hide PutAll;
  }

  /** Stopping in any reachable state between two steps hands over every result that was ever
      submitted and not taken before: what the consumer got is, feed by feed, what was submitted. */
  lemma DrainDeliversEverything(u: Setup, s: State, now: real, ids: Feed -> Id, outcomes: Feed -> Outcome, f: Feed)
    requires Good(u) && Inv(u, s) && s.ready == [] && f in u.feeds
    ensures Shaped(u, s) && f in s.submitted
    ensures var end := StoppedAndDrained(u, s, now, ids, outcomes);
            && end.queue == [] && end.ready == [] && end.submitted == s.submitted
            && s.delivered <= end.delivered
            && RequestsOf(f, end.delivered) == s.submitted[f]
            && f in end.schedules && end.schedules[f].future.None?
            && end.schedules[f].totalSubmitted == end.schedules[f].totalCompleted == |s.submitted[f]|
  {
    DrainEnds(u, s, now, ids, outcomes);
    var t := Stepped(u, Quiesced(s, outcomes), now, ids);
    var end := StoppedAndDrained(u, s, now, ids, outcomes);
    hide Stepped, Quiesced, StoppedAndDrained, Good, Inv, Accounted, Shaped, RequestsOf;
    EmptyAccounts(u, t, f);
  }

  /** With no future left, the stream of a feed is all that was submitted for it. */
  lemma EmptyAccounts(u: Setup, t: State, f: Feed)
    requires Accounted(u, t) && f in u.feeds && t.queue == []
    requires f in t.schedules && t.schedules[f].future.None?
    ensures f in t.submitted
    ensures RequestsOf(f, t.delivered + t.ready) == t.submitted[f]
    ensures t.schedules[f].totalSubmitted == t.schedules[f].totalCompleted == |t.submitted[f]|
  {
    assert f in t.schedules.Keys && f in t.submitted.Keys;
    assert Stream(t) == t.delivered + t.ready;
    hide RequestsOf, MissedOf, DeadlineLaw, Stream;
    assert Accounts(u, t, f);
  }

  /** After any interleaving that leaves no step half done, stopping and draining leaves every
      request ever submitted with exactly one result, all of them taken, in submission order, each with the
      lag and misses it was submitted with and with what its worker came to. */
  lemma EveryRequestIsDelivered(u: Setup, actions: seq<Action>, s: State, now: real, ids: Feed -> Id,
                                outcomes: Feed -> Outcome, f: Feed)
    requires Good(u) && Reaches(u, Initial(u), actions, s) && s.ready == [] && f in u.feeds
    ensures Shaped(u, s) && f in s.submitted
    ensures var end := StoppedAndDrained(u, s, now, ids, outcomes);
            && end.queue == end.ready == []
            && s.delivered <= end.delivered
            && end.submitted == s.submitted
            && RequestsOf(f, end.delivered) == s.submitted[f]
            && OutcomesOf(f, end.delivered) == CompletedBy(actions, f) + LeftRunning(s, f, outcomes)
  {
    InitialInv(u);
    InitialOutcomes(u, f);
    hide *;
    var s0 := Initial(u);
    ReachesKeepsInv(u, s0, actions, s);
    ReachesOutcomes(u, s0, actions, s, f, []);
    var history := CompletedBy(actions, f);
    assert [] + history == history;
    DrainDeliversEverything(u, s, now, ids, outcomes, f);
    DrainDeliversOutcomes(u, s, now, ids, outcomes, f, CompletedBy(actions, f));
  }

  /** The request that is running when the scheduler is stopped comes to what its worker then comes to. */
  ghost function LeftRunning(s: State, f: Feed, outcomes: Feed -> Outcome): seq<Outcome> {
    if f in s.schedules && s.schedules[f].future.Some? && s.schedules[f].future.value.outcome.None?
    then [outcomes(f)] else []
  }

  lemma QuiescedOutcomes(s: State, outcomes: Feed -> Outcome, f: Feed, history: seq<Outcome>)
    requires OutcomeLaw(s, f, history) && s.ready == []
    ensures OutcomeLaw(Quiesced(s, outcomes), f, history + LeftRunning(s, f, outcomes))
  {
    assert Stream(Quiesced(s, outcomes)) == Stream(s);
    hide Stream, OutcomesOf;
    var before := OutcomesOf(f, Stream(s));
    assert before + [] == before && history + [] == history;
  }

  lemma DrainDeliversOutcomes(u: Setup, s: State, now: real, ids: Feed -> Id, outcomes: Feed -> Outcome, f: Feed,
                              history: seq<Outcome>)
    requires Good(u) && Inv(u, s) && s.ready == [] && f in u.feeds && OutcomeLaw(s, f, history)
    ensures Shaped(u, s)
    ensures OutcomesOf(f, StoppedAndDrained(u, s, now, ids, outcomes).delivered) ==
            history + LeftRunning(s, f, outcomes)
  {
    DrainEnds(u, s, now, ids, outcomes);
    QuiescedOutcomes(s, outcomes, f, history);
    var q, all := Quiesced(s, outcomes), history + LeftRunning(s, f, outcomes);
    hide Quiesced, Good, Inv, Accounted, Shaped, OutcomeLaw, LeftRunning, StoppedAndDrained, CollectAll, SubmitAll;
    CollectAllOutcomes(u, q, |u.feeds|, f, all);
    SubmitAllOutcomes(u, CollectAll(u, q, |u.feeds|), |u.feeds|, now, ids, f, all);
    var t := Stepped(u, q, now, ids);
    hide Stepped;
    LastOutcomes(t, f, all);
  }

  lemma LastOutcomes(t: State, f: Feed, history: seq<Outcome>)
    requires OutcomeLaw(t, f, history) && t.queue == [] && t.schedules[f].future.None?
    ensures OutcomesOf(f, t.delivered + t.ready) == history
  {
    assert Stream(t) == t.delivered + t.ready;
    hide Stream, OutcomesOf;
    assert OutcomesOf(f, t.delivered + t.ready) + [] == OutcomesOf(f, t.delivered + t.ready);
  }

  /******* The scheduler object *******/

  /** `ready`, `held`, `delivered` and `submitted` exist for the contracts: the results a step has
      collected and not put, the one the consumer works on, and the histories. */
  class IndependentFeedScheduler {
    const setup: Setup
    var schedules: map<Feed, FeedSchedule>
    var accepting: bool
    var results: seq<ScheduledResult>
    ghost var ready: seq<ScheduledResult>
    ghost var held: Option<ScheduledResult>
    ghost var delivered: seq<ScheduledResult>
    ghost var submitted: map<Feed, seq<Request>>

    ghost function View(): State
      reads this
    {
      State(schedules, accepting, ready, results, held, delivered, submitted)
    }

    constructor (setup: Setup)
      requires Good(setup)
      ensures this.setup == setup && View() == Initial(setup)
      ensures Inv(setup, View())
    {
      this.setup := setup;
      this.schedules := Initial(setup).schedules;
      this.accepting := true;
      this.results := [];
      this.ready, this.held, this.delivered, this.submitted := [], None, [], Initial(setup).submitted;
      InitialInv(setup);
    }

    method CollectOne(f: Feed) returns (items: seq<ScheduledResult>)
      requires f in schedules
      modifies `schedules, `ready
      ensures View() == CollectFeed(old(View()), f)
      ensures ready == old(ready) + items
    {
      var fs := schedules[f];
      items := [];
      if fs.future.None? || fs.future.value.outcome.None? || fs.resultPending {
        assert old(ready) + [] == old(ready);
        return;
      }
      var future := fs.future.value;
      items := [ScheduledResult(f, future.pollId, future.outcome.value, fs.activeLagMs, fs.activeMissedBefore)];
      ready := ready + items;
      schedules := schedules[f := fs.(future := None, resultPending := true, pendingPollId := Some(future.pollId),
                                      totalCompleted := fs.totalCompleted + 1)];
    }

    method SubmitOne(f: Feed, now: real, pollId: Id)
      requires f in schedules && f in submitted && schedules[f].interval > 0.0
      modifies `schedules, `submitted
      ensures View() == SubmitFeed(old(View()), f, now, pollId)
    {
      var fs := schedules[f];
      if !accepting || now < fs.nextDeadline {
        return;
      }
      var dueCount := ((now - fs.nextDeadline) / fs.interval).Floor + 1;
      DueCountMeaning(fs, now);
      assert dueCount == DueCount(fs, now);
      hide DueCount;
      var latestDue := fs.nextDeadline + Span(dueCount - 1, fs.interval);
      var nextDeadline := fs.nextDeadline + Span(dueCount, fs.interval);
      hide Span;
      fs := fs.(nextDeadline := nextDeadline);
      if fs.future.Some? {
        fs := fs.(totalMissed := fs.totalMissed + dueCount,
                  missedSinceLastRequest := fs.missedSinceLastRequest + dueCount);
      } else {
        var coalesced := dueCount - 1;
        fs := fs.(totalMissed := fs.totalMissed + coalesced,
                  missedSinceLastRequest := fs.missedSinceLastRequest + coalesced);
        var lag := if now - latestDue < 0.0 then 0.0 else now - latestDue;
        var missedBefore := fs.missedSinceLastRequest;
        fs := fs.(missedSinceLastRequest := 0, activeLagMs := lag * 1000.0, activeMissedBefore := missedBefore,
                  totalSubmitted := fs.totalSubmitted + 1, future := Some(Future(pollId, None)));
        submitted := submitted[f := submitted[f] + [Request(pollId, lag * 1000.0, missedBefore)]];
      }
      schedules := schedules[f := fs];
    }

    method CollectLocked() returns (collected: seq<ScheduledResult>)
      requires Shaped(setup, View()) && ready == []
      modifies `schedules, `ready
      ensures View() == CollectAll(setup, old(View()), |setup.feeds|)
      ensures collected == ready
    {
      collected := [];
      for i := 0 to |setup.feeds|
        invariant View() == CollectAll(setup, old(View()), i)
        invariant collected == ready
      {
        assert setup.feeds[i] in setup.feeds;
        hide CollectFeed;
        var items := CollectOne(setup.feeds[i]);
        collected := collected + items;
      }
    }

    method SubmitLocked(now: real, ids: Feed -> Id)
      requires Shaped(setup, View())
      modifies `schedules, `submitted
      ensures View() == SubmitAll(setup, old(View()), |setup.feeds|, now, ids)
    {
      for i := 0 to |setup.feeds|
        invariant View() == SubmitAll(setup, old(View()), i, now, ids)
        invariant accepting == old(accepting)
      {
        if !accepting {
          SubmitAllFrame(setup, old(View()), i, now, ids);
          SubmitAllFrame(setup, old(View()), |setup.feeds|, now, ids);
          break;
        }
        assert setup.feeds[i] in setup.feeds;
        hide SubmitFeed;
        SubmitTouchesOneFeed(View(), setup.feeds[i], now, ids(setup.feeds[i]));
        SubmitOne(setup.feeds[i], now, ids(setup.feeds[i]));
      }
    }

    /** Everything one step does under the lock. */
    method StepLocked(now: real, ids: Feed -> Id) returns (collected: seq<ScheduledResult>)
      requires Shaped(setup, View()) && ready == []
      modifies `schedules, `submitted, `ready
      ensures View() == Stepped(setup, old(View()), now, ids)
      ensures collected == ready
    {
      collected := CollectLocked();
      ghost var c := View();
      SubmitLocked(now, ids);
      SubmitAllFrame(setup, c, |setup.feeds|, now, ids);
    }

    method PutNowait(item: ScheduledResult) returns (full: bool)
      requires ready != [] && item == ready[0]
      modifies `results, `ready
      ensures View() == Put(setup, old(View()))
      ensures full <==> |old(results)| >= |setup.feeds|
    {
      full := |results| >= |setup.feeds|;
      if full {
        ready := [];
      } else {
        results, ready := results + [item], ready[1..];
      }
    }

    /** A step with nothing in between; any interleaving is covered by `Next`. */
    method Step(now: real, ids: Feed -> Id)
      requires Shaped(setup, View()) && ready == []
      modifies `schedules, `submitted, `ready, `results
      ensures View() == PutAll(setup, Stepped(setup, old(View()), now, ids))
    {
      var items := StepLocked(now, ids);
      ghost var s := View();
      hide Stepped;
      var i := 0;
      while i < |items|
        invariant 0 <= i <= |items|
        invariant ready == items[i..]
        invariant PutAll(setup, View()) == PutAll(setup, s)
      {
        var full := PutNowait(items[i]);
        i := i + 1;
        if full {
          break;
        }
      }
    }

    method Get() returns (item: Option<ScheduledResult>)
      requires held.None?
      modifies `results, `held, `delivered
      ensures item.None? ==> old(results) == [] && View() == old(View())
      ensures item.Some? ==> old(results) != [] && View() == Taken(old(View())) && held == item
    {
      if results == [] {
        return None;
      }
      item := Some(results[0]);
      held, delivered, results := item, delivered + [results[0]], results[1..];
    }

    method Acknowledge(item: ScheduledResult)
      requires held == Some(item) && item.feed in schedules
      modifies `schedules, `held
      ensures View() == Acknowledged(old(View()))
    {
      var fs := schedules[item.feed];
      if fs.resultPending && fs.pendingPollId == Some(item.pollId) {
        schedules := schedules[item.feed := fs.(resultPending := false, pendingPollId := None)];
      }
      held := None;
    }

    /** Waits for the running requests, whose outcomes are a parameter. */
    method Shutdown(outcomes: Feed -> Outcome)
      requires schedules.Keys == (set f | f in setup.feeds)
      modifies `schedules
      ensures schedules == map f | f in old(schedules) :: Finished(old(schedules)[f], outcomes(f))
    {
      for i := 0 to |setup.feeds|
        invariant schedules.Keys == old(schedules).Keys
        invariant forall f :: f in old(schedules) ==>
                    schedules[f] == if f in setup.feeds[..i] then Finished(old(schedules)[f], outcomes(f))
                                    else old(schedules)[f]
      {
        var f := setup.feeds[i];
        assert f in schedules.Keys;
        schedules := schedules[f := Finished(schedules[f], outcomes(f))];
      }
    }

    method ClearPending()
      requires schedules.Keys == (set f | f in setup.feeds)
      modifies `schedules
      ensures schedules == map f | f in old(schedules) :: Cleared(old(schedules)[f])
    {
      for i := 0 to |setup.feeds|
        invariant schedules.Keys == old(schedules).Keys
        invariant forall f :: f in old(schedules) ==>
                    schedules[f] == if f in setup.feeds[..i] then Cleared(old(schedules)[f]) else old(schedules)[f]
      {
        var f := setup.feeds[i];
        assert f in schedules.Keys;
        schedules := schedules[f := schedules[f].(resultPending := false, pendingPollId := None)];
      }
    }

    method DrainQueue() returns (items: seq<ScheduledResult>)
      modifies `results, `delivered
      ensures View() == HandedOver(old(View())) && items == old(results)
    {
      items := [];
      while results != []
        invariant items + results == old(results)
        invariant delivered == old(delivered) + items
        decreases |results|
      {
        items, delivered, results := items + [results[0]], delivered + [results[0]], results[1..];
      }
      assert items + [] == items;
    }

    method Quiesce(outcomes: Feed -> Outcome) returns (drained: seq<ScheduledResult>)
      requires schedules.Keys == (set f | f in setup.feeds)
      modifies this
      ensures View() == Quiesced(old(View()), outcomes)
      ensures delivered == old(delivered) + drained
    {
      accepting := false;
      Shutdown(outcomes);
      drained := DrainQueue();
      ClearPending();
    }

    /** The caller has joined the scheduler thread, so nothing collected is left to put. */
    method StopAndDrain(now: real, ids: Feed -> Id, outcomes: Feed -> Outcome) returns (drained: seq<ScheduledResult>)
      requires Shaped(setup, View()) && schedules.Keys == (set f | f in setup.feeds) && ready == []
      modifies this
      ensures View() == StoppedAndDrained(setup, old(View()), now, ids, outcomes)
      ensures delivered == old(delivered) + drained
    {
      ghost var s := View();
      drained := Quiesce(outcomes);
      assert Shaped(setup, View());
      assert View() == Quiesced(s, outcomes) && ready == [];
      hide Quiesced, Shaped, Stepped, PutAll;
      Step(now, ids);
      var rest := DrainQueue();
      drained := drained + rest;
    }
  }
}
