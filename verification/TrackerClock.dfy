/** Exactly which clock readings let the expiring tracker pass for the unbounded one, whatever rows
    arrive and whatever is committed: the condition speaks of the times of the polls alone. */
module TrackerClock {
  import opened Common
  import opened ChangeTracker

  datatype Tick = Tick(day: Day, now: Time)

  function ClockOf(polls: seq<Poll>): (ticks: seq<Tick>)
    ensures |ticks| == |polls|
  {
    seq(|polls|, i requires 0 <= i < |polls| => Tick(polls[i].day, polls[i].now))
  }

  /** The time of the last expiry when a poll of `day` comes after `ticks`; a new day has none. */
  function ExpiryBefore(c: Config, ticks: seq<Tick>, day: Day): Option<Time>
    decreases |ticks|, 0
  {
    if ticks == [] || ticks[|ticks| - 1].day != day then None else Some(ExpiryAfter(c, ticks))
  }

  function ExpiryAfter(c: Config, ticks: seq<Tick>): Time
    requires ticks != []
    decreases |ticks|, 1
  {
    var front, tick := ticks[..|ticks| - 1], ticks[|ticks| - 1];
    var before := if front == [] || front[|front| - 1].day != tick.day then None else Some(ExpiryAfter(c, front));
    if before.None? || tick.now - before.value >= ExpiryStep(c) then tick.now else before.value
  }

  /** The expiry loop runs at poll `j`. */
  predicate ExpiryRuns(c: Config, ticks: seq<Tick>, j: nat)
    requires j < |ticks|
  {
    var before := ExpiryBefore(c, ticks[..j], ticks[j].day);
    before.None? || ticks[j].now - before.value >= ExpiryStep(c)
  }

  /** The polls from `i` to `k` are of one day, without another in between. */
  ghost predicate OneDay(ticks: seq<Tick>, i: nat, k: nat)
    requires i <= k < |ticks|
  {
    forall m :: i <= m <= k ==> ticks[m].day == ticks[i].day
  }

  /** What was written at poll `i` is dropped at poll `j`. */
  ghost predicate Drops(c: Config, ticks: seq<Tick>, i: nat, j: nat)
    requires i < j < |ticks|
  {
    OneDay(ticks, i, j) && ExpiryRuns(c, ticks, j) && ticks[j].now - ticks[i].now >= c.heartbeatSeconds as real
  }

  /** Whatever has been dropped is still overdue at every later poll of the day. */
  ghost predicate Calm(c: Config, ticks: seq<Tick>) {
    forall i, j, k :: 0 <= i < j < k < |ticks| && OneDay(ticks, j, k) && Drops(c, ticks, i, j) ==>
      ticks[k].now - ticks[i].now >= c.heartbeatSeconds as real
  }

  /******* A calm clock is enough *******/

  /** An entry written at `at` was written at some poll of the day so far. */
  ghost predicate WrittenAt(ticks: seq<Tick>, i: nat, at: Time) {
    i < |ticks| && OneDay(ticks, i, |ticks| - 1) && ticks[i].now == at
  }

  ghost predicate DroppedAt(c: Config, ticks: seq<Tick>, i: nat, j: nat, at: Time) {
    i < j < |ticks| && OneDay(ticks, j, |ticks| - 1) && Drops(c, ticks, i, j) && ticks[i].now == at
  }

  ghost predicate WasDropped(c: Config, ticks: seq<Tick>, at: Time) {
    exists i, j :: DroppedAt(c, ticks, i, j, at)
  }

  ghost predicate WasWritten(ticks: seq<Tick>, at: Time) {
    exists i :: WrittenAt(ticks, i, at)
  }

  /** What is kept is right, and what is not kept was dropped at some poll of the day. */
  ghost predicate Shadows(c: Config, t: Tracker, p: Plain, ticks: seq<Tick>) {
    && t.day == p.day == (if ticks == [] then None else Some(ticks[|ticks| - 1].day))
    && t.nulls == p.nulls
    && t.lastExpiry == (if ticks == [] then None else Some(ExpiryAfter(c, ticks)))
    && (forall k :: k in t.last ==> k in p.all && t.last[k] == p.all[k])
    && (forall k :: k in p.all ==> WasWritten(ticks, p.all[k].at))
    && (forall k :: k in p.all && k !in t.last ==> WasDropped(c, ticks, p.all[k].at))
  }

  lemma WrittenLater(ticks: seq<Tick>, tick: Tick, at: Time)
    requires WasWritten(ticks, at) && ticks[|ticks| - 1].day == tick.day
    ensures WasWritten(ticks + [tick], at)
  {
    var i :| WrittenAt(ticks, i, at);
    assert WrittenAt(ticks + [tick], i, at);
  }

  lemma DropsPrefix(c: Config, ticks: seq<Tick>, tick: Tick, i: nat, j: nat)
    requires i < j < |ticks|
    ensures Drops(c, ticks + [tick], i, j) == Drops(c, ticks, i, j)
  {
    var all := ticks + [tick];
    assert all[..j] == ticks[..j];
    assert forall m :: 0 <= m < |ticks| ==> all[m] == ticks[m];
  }

  lemma DroppedLater(c: Config, ticks: seq<Tick>, tick: Tick, at: Time)
    requires WasDropped(c, ticks, at) && ticks[|ticks| - 1].day == tick.day
    ensures WasDropped(c, ticks + [tick], at)
  {
    var i, j :| DroppedAt(c, ticks, i, j, at);
    DropsPrefix(c, ticks, tick, i, j);
    assert DroppedAt(c, ticks + [tick], i, j, at);
  }

  /** On a calm clock what was dropped before is overdue now. */
  lemma DroppedIsOverdue(c: Config, ticks: seq<Tick>, at: Time)
    requires Calm(c, ticks) && WasDropped(c, ticks, at) && ticks != []
    ensures ticks[|ticks| - 1].now - at >= c.heartbeatSeconds as real
  {
    hide ExpiryRuns, OneDay;
    var i, j :| DroppedAt(c, ticks, i, j, at);
    if j == |ticks| - 1 {
      assert Drops(c, ticks, i, j);
    } else {
      hide Drops;
      assert OneDay(ticks, j, |ticks| - 1) && Drops(c, ticks, i, j);
    }
  }

  lemma DroppedNow(c: Config, ticks: seq<Tick>, tick: Tick, at: Time)
    requires WasWritten(ticks, at) && ticks[|ticks| - 1].day == tick.day
    requires ExpiryRuns(c, ticks + [tick], |ticks|) && tick.now - at >= c.heartbeatSeconds as real
    ensures WasDropped(c, ticks + [tick], at)
  {
    var all := ticks + [tick];
    var i :| WrittenAt(ticks, i, at);
    assert OneDay(all, i, |ticks|);
    assert DroppedAt(c, all, i, |ticks|, at);
  }

  /** The expiry of one poll of the same day, entry by entry. */
  lemma EntryShadows(c: Config, t: Tracker, p: Plain, ticks: seq<Tick>, tick: Tick, k: Key)
    requires Shadows(c, t, p, ticks) && ticks != [] && ticks[|ticks| - 1].day == tick.day && k in p.all
    ensures WasWritten(ticks + [tick], p.all[k].at)
    ensures k !in Expire(c, t, tick.now).last ==> WasDropped(c, ticks + [tick], p.all[k].at)
  {
    hide ExpiryAfter, WasWritten, WasDropped;
    var at := p.all[k].at;
    WrittenLater(ticks, tick, at);
    if k !in t.last {
      DroppedLater(c, ticks, tick, at);
    } else if k !in Expire(c, t, tick.now).last {
      RunsNow(c, t, p, ticks, tick);
      DroppedNow(c, ticks, tick, at);
    }
  }

  lemma RunsNow(c: Config, t: Tracker, p: Plain, ticks: seq<Tick>, tick: Tick)
    requires Shadows(c, t, p, ticks) && ticks != [] && ticks[|ticks| - 1].day == tick.day
    ensures ExpiryRuns(c, ticks + [tick], |ticks|) <==>
              && Expire(c, t, tick.now).lastExpiry == Some(tick.now)
              && tick.now - t.lastExpiry.value >= ExpiryStep(c)
  {
    assert (ticks + [tick])[..|ticks|] == ticks;
    hide ExpiryAfter, WasWritten, WasDropped;
  }

  lemma ExpiryBookkeeping(c: Config, t: Tracker, p: Plain, ticks: seq<Tick>, tick: Tick)
    requires Shadows(c, t, p, ticks)
    ensures Expire(c, Reset(t, tick.day), tick.now).lastExpiry == Some(ExpiryAfter(c, ticks + [tick]))
  {
    assert (ticks + [tick])[..|ticks|] == ticks;
    hide WasWritten, WasDropped;
  }

  /** The day boundary and the expiry of one poll. */
  lemma ExpireShadows(c: Config, t: Tracker, p: Plain, ticks: seq<Tick>, tick: Tick)
    requires Shadows(c, t, p, ticks)
    ensures Shadows(c, Expire(c, Reset(t, tick.day), tick.now), PlainReset(p, tick.day), ticks + [tick])
  {
    ExpiryBookkeeping(c, t, p, ticks, tick);
    hide ExpiryAfter, WasWritten, WasDropped;
    if ticks != [] && ticks[|ticks| - 1].day == tick.day {
      forall k | k in p.all
        ensures WasWritten(ticks + [tick], p.all[k].at)
        ensures k !in Expire(c, t, tick.now).last ==> WasDropped(c, ticks + [tick], p.all[k].at)
      {
        EntryShadows(c, t, p, ticks, tick, k);
      }
    }
  }

  /** On a calm clock the decisions of the poll are the same. */
  lemma ShadowSimulates(c: Config, t: Tracker, p: Plain, ticks: seq<Tick>)
    requires Shadows(c, t, p, ticks) && Calm(c, ticks) && ticks != []
    ensures Simulates(c, t.last, p.all, ticks[|ticks| - 1].now)
  {
    hide WasDropped, Calm, WasWritten, ExpiryAfter;
    forall k | k in p.all && k !in t.last
      ensures ticks[|ticks| - 1].now - p.all[k].at >= c.heartbeatSeconds as real
    {
      DroppedIsOverdue(c, ticks, p.all[k].at);
    }
  }

  /** One poll: the same output, and the shadow goes on. */
  lemma StepShadows(c: Config, t: Tracker, p: Plain, ticks: seq<Tick>, poll: Poll)
    requires Shadows(c, t, p, ticks) && Calm(c, ticks + [Tick(poll.day, poll.now)])
    ensures Step(c, t, poll).0 == PlainStep(c, p, poll).0
    ensures Shadows(c, Step(c, t, poll).1, PlainStep(c, p, poll).1, ticks + [Tick(poll.day, poll.now)])
  {
    var tick := Tick(poll.day, poll.now);
    var all := ticks + [tick];
    ExpireShadows(c, t, p, ticks, tick);
    var t1, p1 := Expire(c, Reset(t, poll.day), poll.now), PlainReset(p, poll.day);
    ShadowSimulates(c, t1, p1, all);
    hide Shadows, Calm, Expire;
    SelectSimulates(c, t1.last, p1.all, poll.rows, poll.now);
    CommitIsOverlay(c, t1.last, poll.rows, poll.now);
    OverlayIsNew(c, t1.last, poll.rows, poll.now);
    var (out, overlay) := Select(c, t1.last, poll.rows, poll.now);
    OverlayShadows(c, t1, p1, all, NullsAfter(c, t1.nulls, poll.rows), overlay);
    hide Select, PlainSelect, CommitRows, HasSignal, NullsAfter, Simulates;
    StepParts(c, t, p, poll);
  }

  /** A step of either tracker, given its day and expiry. */
  lemma StepParts(c: Config, t: Tracker, p: Plain, poll: Poll)
    ensures var t1 := Expire(c, Reset(t, poll.day), poll.now);
            var out := Select(c, t1.last, poll.rows, poll.now).0;
            var t2 := t1.(nulls := NullsAfter(c, t1.nulls, poll.rows));
            Step(c, t, poll) ==
            if SignalLost(c, t1.nulls, poll.rows) then (None, t2)
            else (Some(out), if poll.committed then t2.(last := CommitRows(c, t1.last, out, poll.now)) else t2)
  {
    hide Select, CommitRows, HasSignal, NullsAfter, SignalLost, Unexpired;
  }

  /** What a poll writes goes to both or to neither. */
  lemma OverlayShadows(c: Config, t: Tracker, p: Plain, ticks: seq<Tick>, nulls: nat, overlay: map<Key, Entry>)
    requires Shadows(c, t, p, ticks) && ticks != []
    requires forall k :: k in overlay ==> overlay[k].at == ticks[|ticks| - 1].now
    ensures t.nulls == p.nulls && t.day == p.day
    ensures Shadows(c, t.(nulls := nulls), p.(nulls := nulls), ticks)
    ensures Shadows(c, t.(nulls := nulls, last := t.last + overlay), p.(nulls := nulls, all := p.all + overlay), ticks)
  {
    var n := |ticks| - 1;
    assert WrittenAt(ticks, n, ticks[n].now);
    assert WasWritten(ticks, ticks[n].now);
    hide WasWritten, WasDropped, ExpiryAfter;
  }

  lemma CalmPrefix(c: Config, ticks: seq<Tick>, tick: Tick)
    requires Calm(c, ticks + [tick])
    ensures Calm(c, ticks)
  {
    var all := ticks + [tick];
    forall i, j, k | 0 <= i < j < k < |ticks| && OneDay(ticks, j, k) && Drops(c, ticks, i, j)
      ensures ticks[k].now - ticks[i].now >= c.heartbeatSeconds as real
    {
      DropsPrefix(c, ticks, tick, i, j);
      assert OneDay(all, j, k);
      assert all[k] == ticks[k] && all[i] == ticks[i];
    }
  }

  lemma {:induction false} CalmIsInvisible(c: Config, polls: seq<Poll>)
    requires Calm(c, ClockOf(polls))
    ensures Run(c, polls).0 == PlainRun(c, polls).0
    ensures Shadows(c, Run(c, polls).1, PlainRun(c, polls).1, ClockOf(polls))
  {
    if polls != [] {
      var front, poll := polls[..|polls| - 1], polls[|polls| - 1];
      var tick := Tick(poll.day, poll.now);
      assert ClockOf(polls) == ClockOf(front) + [tick];
      CalmPrefix(c, ClockOf(front), tick);
      CalmIsInvisible(c, front);
      StepShadows(c, Run(c, front).1, PlainRun(c, front).1, ClockOf(front), poll);
      hide Step, PlainStep, Shadows, Calm, ClockOf;
    }
  }

  /******* A clock that is not calm is not *******/

  function Signal(c: Config): (row: Row)
    requires c.signalFields != []
    ensures HasSignal(c, [row])
  {
    var row: Row := map[c.signalFields[0] := Flag(true)];
    assert Get([row][0], c.signalFields[0]) != Null;
    row
  }

  /** One row, observed at polls `i` and `k` and at no other. */
  function Witness(c: Config, ticks: seq<Tick>, i: nat, k: nat): (polls: seq<Poll>)
    requires c.signalFields != []
    ensures |polls| == |ticks| && ClockOf(polls) == ticks
  {
    seq(|ticks|, m requires 0 <= m < |ticks| =>
          Poll(if m == i || m == k then [Signal(c)] else [], ticks[m].day, ticks[m].now, true))
  }

  lemma EmptyStep(c: Config, t: Tracker, p: Plain, day: Day, now: Time)
    ensures Step(c, t, Poll([], day, now, true)) == (Some([]), Expire(c, Reset(t, day), now))
    ensures PlainStep(c, p, Poll([], day, now, true)) == (Some([]), PlainReset(p, day))
  {
    hide Unexpired;
  }

  /** Day and expiry time depend on the clock alone. */
  lemma {:induction false} Bookkeeping(c: Config, polls: seq<Poll>)
    requires polls != []
    ensures Run(c, polls).1.day == Some(polls[|polls| - 1].day) == PlainRun(c, polls).1.day
    ensures Run(c, polls).1.lastExpiry == Some(ExpiryAfter(c, ClockOf(polls)))
  {
    var front, poll := polls[..|polls| - 1], polls[|polls| - 1];
    var t := Run(c, front).1;
    StepBookkeeping(c, t, PlainRun(c, front).1, poll);
    assert ClockOf(polls)[..|front|] == ClockOf(front);
    if front != [] {
      Bookkeeping(c, front);
      assert ClockOf(front)[|front| - 1].day == front[|front| - 1].day;
    }
    hide Step, PlainStep;
  }

  lemma StepBookkeeping(c: Config, t: Tracker, p: Plain, poll: Poll)
    ensures var t', before := Step(c, t, poll).1, if t.day == Some(poll.day) then t.lastExpiry else None;
            && t'.day == Some(poll.day) == PlainStep(c, p, poll).1.day
            && t'.lastExpiry ==
               Some(if before.None? || poll.now - before.value >= ExpiryStep(c) then poll.now else before.value)
  {
    hide Select, PlainSelect, CommitRows, HasSignal, NullsAfter, SignalLost, Unexpired;
  }

  /** What both trackers hold when the first `n` polls of the witness have passed. */
  ghost predicate Holding(c: Config, ticks: seq<Tick>, i: nat, j: nat, n: nat, t: Tracker, p: Plain)
    requires c.signalFields != [] && i < |ticks|
  {
    var k, entry := KeyOf(c, Signal(c)), EntryOf(c, Signal(c), ticks[i].now);
    && (n <= i ==> t.last == map[] && p.all == map[])
    && (i < n ==> p.all == map[k := entry] && (t.last == map[] || t.last == map[k := entry]))
    && (j < n ==> t.last == map[])
  }

  lemma {:induction false} WitnessHolds(c: Config, ticks: seq<Tick>, i: nat, j: nat, k: nat, n: nat)
    requires c.signalFields != [] && i < j < k < |ticks| && n <= k
    requires OneDay(ticks, i, k) && Drops(c, ticks, i, j)
    ensures var polls := Witness(c, ticks, i, k)[..n];
            Holding(c, ticks, i, j, n, Run(c, polls).1, PlainRun(c, polls).1)
  {
    if n > 0 {
      WitnessHolds(c, ticks, i, j, k, n - 1);
      var all := Witness(c, ticks, i, k);
      var front, poll := all[..n - 1], all[n - 1];
      assert all[..n][..n - 1] == front && all[..n][n - 1] == poll;
      assert ClockOf(front) == ticks[..n - 1];
      if front != [] {
        Bookkeeping(c, front);
        assert ClockOf(front)[n - 2].day == front[n - 2].day == ticks[n - 2].day;
      }
      var t, p := Run(c, front).1, PlainRun(c, front).1;
      assert Run(c, all[..n]).1 == Step(c, t, poll).1 && PlainRun(c, all[..n]).1 == PlainStep(c, p, poll).1;
      hide Run, PlainRun, Witness, ClockOf, Step, PlainStep;
      WitnessStep(c, ticks, i, j, k, n, t, p);
    }
  }

  lemma WitnessStep(c: Config, ticks: seq<Tick>, i: nat, j: nat, k: nat, n: nat, t: Tracker, p: Plain)
    requires c.signalFields != [] && i < j < k < |ticks| && 0 < n <= k
    requires OneDay(ticks, i, k) && Drops(c, ticks, i, j)
    requires Holding(c, ticks, i, j, n - 1, t, p)
    requires n > 1 ==> && t.day == p.day == Some(ticks[n - 2].day)
                       && t.lastExpiry == Some(ExpiryAfter(c, ticks[..n - 1]))
    ensures var rows := if n - 1 == i then [Signal(c)] else [];
            var poll := Poll(rows, ticks[n - 1].day, ticks[n - 1].now, true);
            Holding(c, ticks, i, j, n, Step(c, t, poll).1, PlainStep(c, p, poll).1)
  {
    var tick := ticks[n - 1];
    hide ExpiryAfter, Step, PlainStep, EntryOf, KeyOf;
    if n - 1 == i {
      OneRowStep(c, t, Signal(c), tick.day, tick.now);
      OneRowPlainStep(c, p, Signal(c), tick.day, tick.now);
      assert Lookup(PlainReset(p, tick.day).all, KeyOf(c, Signal(c))) == None;
      assert MustWrite(c, None, Signal(c), tick.now);
    } else {
      EmptyStep(c, t, p, tick.day, tick.now);
      if i < n - 1 {
        assert ticks[n - 2].day == tick.day;
        if n - 1 == j {
          EntryDropped(c, ticks, i, j, t);
        }
      }
    }
  }

  lemma EntryDropped(c: Config, ticks: seq<Tick>, i: nat, j: nat, t: Tracker)
    requires c.signalFields != [] && i < j < |ticks| && Drops(c, ticks, i, j)
    requires t.last == map[] || t.last == map[KeyOf(c, Signal(c)) := EntryOf(c, Signal(c), ticks[i].now)]
    requires t.day == Some(ticks[j].day) && t.lastExpiry == Some(ExpiryAfter(c, ticks[..j]))
    ensures Expire(c, t, ticks[j].now).last == map[]
  {
    assert ticks[j - 1].day == ticks[j].day;
    assert ticks[..j][j - 1] == ticks[j - 1];
    hide ExpiryAfter, KeyOf;
    assert Unexpired(c, t.last, ticks[j].now) == map[];
  }

  lemma {:induction false} RunPrefix(c: Config, polls: seq<Poll>, n: nat)
    requires n <= |polls|
    ensures |Run(c, polls).0| == |polls| == |PlainRun(c, polls).0|
    ensures Run(c, polls[..n]).0 == Run(c, polls).0[..n]
    ensures PlainRun(c, polls[..n]).0 == PlainRun(c, polls).0[..n]
    decreases |polls|
  {
    hide Step, PlainStep;
    if n < |polls| {
      RunPrefix(c, polls[..|polls| - 1], n);
      assert polls[..|polls| - 1][..n] == polls[..n];
    } else {
      assert polls[..n] == polls;
      if polls != [] {
        RunPrefix(c, polls[..|polls| - 1], |polls| - 1);
      }
    }
  }

  /** The expiring tracker writes the row again, the unbounded one does not. */
  lemma WitnessParts(c: Config, ticks: seq<Tick>, i: nat, j: nat, k: nat)
    requires c.signalFields != [] && 0 <= i < j < k < |ticks|
    requires OneDay(ticks, i, k) && Drops(c, ticks, i, j)
    requires ticks[k].now - ticks[i].now < c.heartbeatSeconds as real
    ensures Run(c, Witness(c, ticks, i, k)).0 != PlainRun(c, Witness(c, ticks, i, k)).0
  {
    var all := Witness(c, ticks, i, k);
    var front, poll := all[..k], all[k];
    WitnessHolds(c, ticks, i, j, k, k);
    Bookkeeping(c, front);
    var t, p := Run(c, front).1, PlainRun(c, front).1;
    assert front[k - 1].day == ticks[k - 1].day == ticks[k].day;
    RunPrefix(c, all, k + 1);
    assert all[..k + 1] == front + [poll];
    RunSnoc(c, front, poll);
    RunPrefix(c, front, k);
    hide Run, PlainRun;
    LastOutputs(c, ticks, i, k, t, p);
    assert Run(c, all).0[..k + 1][k] == Step(c, t, poll).0 && PlainRun(c, all).0[..k + 1][k] == PlainStep(c, p, poll).0;
  }

  lemma LastOutputs(c: Config, ticks: seq<Tick>, i: nat, k: nat, t: Tracker, p: Plain)
    requires c.signalFields != [] && i < k < |ticks| && ticks[k].now - ticks[i].now < c.heartbeatSeconds as real
    requires t.last == map[] && p.all == map[KeyOf(c, Signal(c)) := EntryOf(c, Signal(c), ticks[i].now)]
    requires p.day == Some(ticks[k].day)
    ensures var poll := Poll([Signal(c)], ticks[k].day, ticks[k].now, true);
            Step(c, t, poll).0 == Some([Signal(c)]) && PlainStep(c, p, poll).0 == Some([])
  {
    var row := Signal(c);
    assert !MustWrite(c, Some(EntryOf(c, row, ticks[i].now)), row, ticks[k].now);
    hide Step, PlainStep, EntryOf, KeyOf, MustWrite;
    OneRowStep(c, t, row, ticks[k].day, ticks[k].now);
    OneRowPlainStep(c, p, row, ticks[k].day, ticks[k].now);
  }

  /** The two trackers agree on all rows and all commits that these poll times can meet, if and
      only if everything dropped stays overdue for the rest of its day. */
  lemma AgreeIffCalm(c: Config, ticks: seq<Tick>)
    requires c.signalFields != []
    ensures (forall polls :: ClockOf(polls) == ticks ==> Run(c, polls).0 == PlainRun(c, polls).0) <==> Calm(c, ticks)
  {
    hide Run, PlainRun, ClockOf;
    if Calm(c, ticks) {
      forall polls | ClockOf(polls) == ticks
        ensures Run(c, polls).0 == PlainRun(c, polls).0
      {
        CalmIsInvisible(c, polls);
      }
    } else {
      var i, j, k :| 0 <= i < j < k < |ticks| && OneDay(ticks, j, k) && Drops(c, ticks, i, j)
                     && ticks[k].now - ticks[i].now < c.heartbeatSeconds as real;
      assert OneDay(ticks, i, k) by {
        assert OneDay(ticks, i, j);
      }
      WitnessParts(c, ticks, i, j, k);
      assert ClockOf(Witness(c, ticks, i, k)) == ticks;
    }
  }

  /** Time that does not go back within a day is calm. */
  lemma OrderedIsCalm(c: Config, polls: seq<Poll>)
    requires Ordered(polls)
    ensures Calm(c, ClockOf(polls))
  {
    var ticks := ClockOf(polls);
    forall i, j, k | 0 <= i < j < k < |ticks| && OneDay(ticks, j, k) && Drops(c, ticks, i, j)
      ensures ticks[k].now - ticks[i].now >= c.heartbeatSeconds as real
    {
      Ascends(polls, j, k);
    }
  }

  lemma {:induction false} Ascends(polls: seq<Poll>, j: nat, k: nat)
    requires Ordered(polls) && j <= k < |polls| && OneDay(ClockOf(polls), j, k)
    ensures polls[j].now <= polls[k].now
    decreases k
  {
    if j < k {
      assert OneDay(ClockOf(polls), j, k - 1);
      Ascends(polls, j, k - 1);
      assert ClockOf(polls)[k].day == ClockOf(polls)[j].day == ClockOf(polls)[k - 1].day;
    }
  }
}
