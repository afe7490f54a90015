/** The collector and the store of one (feed, date) partition together: every poll that stages rows of
    the partition adds one segment to it, between any of the store's own writes. */
module Ledger {
  import opened Common
  import opened PartitionState
  import PartitionSteps
  import Collector

  /** `names` lists the segments ever staged, `staged` says what they held. */
  datatype World = World(collector: Collector.State, partition: Partition, staged: map<Name, seq<Row>>,
                         names: seq<Name>)

  const FRESH: World := World(Collector.FRESH, NO_FILES, map[], [])

  /** A step of the collector, with the name of the segment it stages if it stages one; or one write of
      the store. */
  datatype Action = Collect(action: Collector.Action, name: Name) | Store(step: PartitionSteps.Step)

  /** The segments an action of the collector adds. */
  function Added(a: Collector.Action): (added: seq<Collector.Segment>)
    ensures |added| <= 1
  {
    match a
    case Process(poll) => if Collector.DigestRaised(poll) then [] else Collector.StagedBy(poll)
    case Die(poll, _, _, staged) => if staged then Collector.StagedBy(poll) else []
    case Restart(_) => []
  }

  /** What reaches the partition of this log: at most one segment. */
  predicate Reaches(a: Collector.Action, log: Collector.Log) {
    Added(a) != [] && (Added(a)[0].feed, Added(a)[0].date) == log
  }

  /** Segment names contain the id of the poll, so a new one is fresh. Only the collector stages. */
  ghost predicate Possible(intervals: map<Collector.Feed, int>, log: Collector.Log, w: World, a: Action) {
    match a
    case Collect(action, name) => Collector.Possible(intervals, w.collector, action) && name !in w.staged
    case Store(step) => !step.Stage? && PartitionSteps.Allowed(w.partition, w.staged, step)
  }

  ghost predicate Next(intervals: map<Collector.Feed, int>, log: Collector.Log, w: World, a: Action, w': World) {
    && Possible(intervals, log, w, a)
    && match a
       case Collect(action, name) =>
         var collector := Collector.Next(intervals, w.collector, action);
         if Reaches(action, log) then
           var step := PartitionSteps.Stage(name, Added(action)[0].rows);
           w' == World(collector, PartitionSteps.Apply(w.partition, step),
                       PartitionSteps.StagedAfter(w.staged, step), w.names + [name])
         else w' == w.(collector := collector)
       case Store(step) =>
         && PartitionSteps.Applicable(w.partition, step)
         && w' == w.(partition := PartitionSteps.Apply(w.partition, step))
  }

  ghost predicate Runs(intervals: map<Collector.Feed, int>, log: Collector.Log, ws: seq<World>, actions: seq<Action>) {
    && |ws| == |actions| + 1 && ws[0] == FRESH
    && forall i :: 0 <= i < |actions| ==> Next(intervals, log, ws[i], actions[i], ws[i + 1])
  }

  /** The two machines agree on how many rows were staged. */
  ghost predicate Agree(log: Collector.Log, w: World) {
    && Lists(w.names, w.staged.Keys) && AllIn(w.staged, w.names)
    && |RowsAt(w.staged, w.names)| == Collector.StagedRows(w.collector.segments, log)
  }

  ghost predicate Inv(log: Collector.Log, w: World) {
    Collector.Inv(w.collector) && PartitionState.Inv(w.partition, w.staged) && Agree(log, w)
  }

  lemma NextSegments(intervals: map<Collector.Feed, int>, s: Collector.State, a: Collector.Action)
    requires Collector.Possible(intervals, s, a)
    ensures Collector.Next(intervals, s, a).segments == s.segments + Added(a)
  {
    match a
    case Process(poll) =>
      var p := Collector.BeforeJournal(intervals, s, poll);
      Collector.BeforeJournalShape(intervals, s, poll);
      Collector.ArchiveShape(intervals, Collector.AfterJournal(p, poll), poll, poll.late, true);
      Collector.ArchiveShape(intervals, s, poll, poll.first, false);
      hide Collector.Archive, Collector.BeforeJournal, Collector.StagedBy, Collector.EventOf, Collector.RawGrew,
        Collector.Reaches;
    case Die(poll, responses, _, _) =>
      Collector.TimesShape(s, poll, responses);
      hide Collector.OnDiskTimes, Collector.StagedBy;
    case Restart(_) =>
  }

  lemma StagedByRows(segments: seq<Collector.Segment>, a: Collector.Action, log: Collector.Log)
    ensures Collector.StagedRows(segments + Added(a), log) ==
            Collector.StagedRows(segments, log) + (if Reaches(a, log) then |Added(a)[0].rows| else 0)
  {
    var added := Added(a);
    if added == [] {
      assert segments + added == segments;
    } else {
      assert (segments + added)[..|segments|] == segments;
    }
    hide Added;
  }

  /** A new segment adds its rows to those staged. */
  lemma StagedMore(staged: map<Name, seq<Row>>, names: seq<Name>, name: Name, rows: seq<Row>)
    requires Lists(names, staged.Keys) && AllIn(staged, names) && name !in staged
    ensures var staged' := staged[name := rows];
            && Lists(names + [name], staged'.Keys) && AllIn(staged', names + [name])
            && RowsAt(staged', names + [name]) == RowsAt(staged, names) + rows
  {
    var staged' := staged[name := rows];
    assert AllIn(staged', names) && AllIn(staged', names + [name]);
    RowsSnoc(staged', names, name);
    RowsSame(staged, staged', names);
    hide RowsAt;
  }

  lemma CollectKeepsInv(intervals: map<Collector.Feed, int>, log: Collector.Log, w: World, a: Action, w': World)
    requires Inv(log, w) && Next(intervals, log, w, a, w') && a.Collect?
    ensures Inv(log, w')
  {
    hide Collector.Inv, PartitionState.Inv, Collector.Next, Collector.Possible, Collector.StagedRows, RowsAt, Added,
      Lists;
    Collector.NextKeepsInv(intervals, w.collector, a.action);
    NextSegments(intervals, w.collector, a.action);
    StagedByRows(w.collector.segments, a.action, log);
    if Reaches(a.action, log) {
      var rows := Added(a.action)[0].rows;
      StagedMore(w.staged, w.names, a.name, rows);
      PartitionSteps.StageKeepsInv(w.partition, w.staged, a.name, rows);
    }
  }

  lemma NextKeepsInv(intervals: map<Collector.Feed, int>, log: Collector.Log, w: World, a: Action, w': World)
    requires Inv(log, w) && Next(intervals, log, w, a, w')
    ensures Inv(log, w')
  {
    if a.Collect? {
      CollectKeepsInv(intervals, log, w, a, w');
    } else {
      hide Collector.Inv, PartitionState.Inv, PartitionSteps.Allowed, PartitionSteps.Apply, Agree;
      PartitionSteps.StepKeepsInv(w.partition, w.staged, a.step);
      assert Agree(log, w') by {
        hide *;
        assert w'.collector == w.collector && w'.staged == w.staged && w'.names == w.names;
      }
    }
  }

  lemma {:induction false} RunKeepsInv(intervals: map<Collector.Feed, int>, log: Collector.Log, ws: seq<World>,
                                       actions: seq<Action>, n: nat)
    requires Runs(intervals, log, ws, actions) && n < |ws|
    ensures Inv(log, ws[n])
  {
    if n == 0 {
      Collector.FreshInv();
      PartitionSteps.EmptyInv();
      hide Collector.Inv, PartitionState.Inv;
    } else {
      hide Inv, Next;
      RunKeepsInv(intervals, log, ws, actions, n - 1);
      NextKeepsInv(intervals, log, ws[n - 1], actions[n - 1], ws[n]);
    }
  }

  /******* Which rows are kept *******/

  /** The poll of an action that staged: not one whose staging or digest raised, nor one the process died in
      before staging. */
  ghost predicate Stages(a: Action, log: Collector.Log, poll: Collector.Poll) {
    && a.Collect? && (poll.feed, poll.date) == log && !poll.staging.RaisedBeforeStaging?
    && match a.action
       case Process(p) =>
         p == poll && (poll.feed == Collector.TripUpdates && poll.parsed.Some? ==> poll.digested)
       case Die(p, _, _, staged) => p == poll && staged
       case Restart(_) => false
  }

  lemma StagesRows(a: Action, log: Collector.Log, rows: seq<Row>)
    requires a.Collect?
    ensures (Reaches(a.action, log) && Added(a.action)[0].rows == rows) <==>
            exists poll :: Stages(a, log, poll) && Collector.RowsToStage(poll, rows)
  {
    match a.action
    case Process(poll) =>
      Collector.StagedMeaning(poll);
      assert Stages(a, log, poll) || !Stages(a, log, poll);
    case Die(poll, _, _, staged) =>
      Collector.StagedMeaning(poll);
      assert Stages(a, log, poll) || !Stages(a, log, poll);
    case Restart(_) =>
  }

  /** At every point of every run, what was staged under a name is exactly the rows that the poll of that
      name had to stage, in order; and every poll that had rows and whose staging came so far is there. */
  lemma {:induction false} StagedRowsAreThePolls(intervals: map<Collector.Feed, int>, log: Collector.Log,
                                                 ws: seq<World>, actions: seq<Action>, n: nat, name: Name,
                                                 rows: seq<Row>)
    requires Runs(intervals, log, ws, actions) && n < |ws|
    ensures name in ws[n].staged && ws[n].staged[name] == rows <==>
            exists i, poll :: 0 <= i < n && StagedAt(actions, i, log, name, poll, rows)
    decreases n
  {
    if n > 0 {
      StagedRowsAreThePolls(intervals, log, ws, actions, n - 1, name, rows);
      NewlyStaged(intervals, log, ws[n - 1], actions[n - 1], ws[n], name, rows);
      hide Next, Runs, Stages, Collector.RowsToStage;
      if exists i, poll :: 0 <= i < n - 1 && StagedAt(actions, i, log, name, poll, rows) {
        var i, poll :| 0 <= i < n - 1 && StagedAt(actions, i, log, name, poll, rows);
        assert 0 <= i < n && StagedAt(actions, i, log, name, poll, rows);
      }
      if poll :| Stages(actions[n - 1], log, poll) && Collector.RowsToStage(poll, rows) {
        assert actions[n - 1].name == name ==> StagedAt(actions, n - 1, log, name, poll, rows);
      }
    }
  }

  ghost predicate StagedAt(actions: seq<Action>, i: int, log: Collector.Log, name: Name, poll: Collector.Poll,
                           rows: seq<Row>)
  {
    && 0 <= i < |actions| && actions[i].Collect? && actions[i].name == name
    && Stages(actions[i], log, poll) && Collector.RowsToStage(poll, rows)
  }

  lemma NewlyStaged(intervals: map<Collector.Feed, int>, log: Collector.Log, w: World, a: Action, w': World,
                    name: Name, rows: seq<Row>)
    requires Next(intervals, log, w, a, w')
    ensures name in w'.staged && w'.staged[name] == rows <==>
            || (name in w.staged && w.staged[name] == rows)
            || (&& a.Collect? && a.name == name
                && exists poll :: Stages(a, log, poll) && Collector.RowsToStage(poll, rows))
  {
    if a.Collect? {
      StagesRows(a, log, rows);
      hide Stages, Collector.RowsToStage, Collector.Next, Collector.Possible, Added;
    }
  }

  /** At every point of every run of the collector and the store, whatever failed or crashed: the rows
      the journal says were emitted are no more than the rows in the visible Parquet files and in the
      pending segments that are in none of them; and these are exactly the rows ever staged. */
  lemma JournalledRowsAreKept(intervals: map<Collector.Feed, int>, log: Collector.Log, ws: seq<World>,
                              actions: seq<Action>, n: nat, fs: seq<FileName>, pending: seq<Name>)
    requires Runs(intervals, log, ws, actions) && n < |ws| && NoDup(fs) && NoDup(pending)
    requires forall f :: f in fs <==> Visible(ws[n].partition, f)
    requires forall name :: name in pending <==> name in ws[n].partition.segments && !Covered(ws[n].partition, name)
    ensures var (s, p) := (ws[n].collector, ws[n].partition);
            && AllIn(p.files, fs) && AllIn(p.segments, pending)
            && Collector.EmittedRows(s.journal, log) <= |RowsAt(p.files, fs)| + |RowsAt(p.segments, pending)|
            && |RowsAt(p.files, fs)| + |RowsAt(p.segments, pending)| == Collector.StagedRows(s.segments, log)
            && Lists(ws[n].names, ws[n].staged.Keys) && AllIn(ws[n].staged, ws[n].names)
            && multiset(RowsAt(p.files, fs)) + multiset(RowsAt(p.segments, pending)) ==
               multiset(RowsAt(ws[n].staged, ws[n].names))
  {
    RunKeepsInv(intervals, log, ws, actions, n);
    var w := ws[n];
    hide Runs, PartitionState.Inv, RowsAt, Visible, Covered, Collector.StagedRows, Collector.EmittedRows, NoDup;
    assert Collector.Counted(w.collector, log);
    Conservation(w.partition, w.staged, fs, pending, w.names);
    var files, rest := RowsAt(w.partition.files, fs), RowsAt(w.partition.segments, pending);
    var all := RowsAt(w.staged, w.names);
    assert |multiset(files) + multiset(rest)| == |files| + |rest|;
    assert |multiset(all)| == |all|;
  }

  /** The visible ones of some files, and that they hold no more rows than all of them. */
  lemma {:induction false} VisibleAmong(p: Partition, fs: seq<FileName>) returns (visible: seq<FileName>)
    requires AllIn(p.files, fs) && NoDup(fs)
    ensures AllIn(p.files, visible) && NoDup(visible)
    ensures forall f :: f in visible <==> f in fs && Visible(p, f)
    ensures |RowsAt(p.files, visible)| <= |RowsAt(p.files, fs)|
  {
    visible := [];
    if fs != [] {
      var front, f := fs[..|fs| - 1], fs[|fs| - 1];
      assert fs == front + [f];
      visible := VisibleAmong(p, front);
      hide Visible;
      if Visible(p, f) {
        RowsSnoc(p.files, visible, f);
        visible := visible + [f];
      }
    }
  }

  lemma NonePending(p: Partition)
    requires p.segments == map[]
    ensures forall name :: name in [] <==> name in p.segments && !Covered(p, name)
    ensures AllIn(p.segments, []) && RowsAt(p.segments, []) == []
  {
  }

  /** Once the spool of a day is drained, its Parquet files hold at least the rows the journal counts, so
      the daily manifest cannot find too few. A compaction may be under way or have stopped anywhere:
      the manifest then counts sources and output alike. */
  lemma DrainedDayHasItsRows(intervals: map<Collector.Feed, int>, log: Collector.Log, ws: seq<World>,
                             actions: seq<Action>, n: nat, fs: seq<FileName>)
    requires Runs(intervals, log, ws, actions) && n < |ws|
    requires ws[n].partition.segments == map[] && Lists(fs, ws[n].partition.files.Keys)
    ensures AllIn(ws[n].partition.files, fs)
    ensures |RowsAt(ws[n].partition.files, fs)| >= Collector.EmittedRows(ws[n].collector.journal, log)
  {
    var p := ws[n].partition;
    var visible := VisibleAmong(p, fs);
    NonePending(p);
    assert forall f :: f in visible <==> Visible(p, f);
    hide Runs, RowsAt, Visible, Covered, Collector.EmittedRows, Collector.StagedRows;
    JournalledRowsAreKept(intervals, log, ws, actions, n, visible, []);
  }
}
