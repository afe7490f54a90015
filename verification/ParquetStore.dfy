/** The spool of one data directory: polls are staged as segments while a worker turns pending
    segments into Parquet files.

    Every write goes through `Perform`, whose precondition is the guard of the step; `trace`
    is the run so far, so `Valid` says that whatever these methods did is a run of allowed steps. */
module ParquetStore {
  import opened Common
  import opened PartitionState
  import opened PartitionSteps

  const MAX_SEGMENTS_PER_COMMIT: nat := 20

  /** What one call meets: how many of its writes happen before something raises or the process
      dies, and what other threads stage just before each write. */
  datatype Luck = Luck(writes: nat, arrivals: nat -> seq<Arrival>)

  datatype Arrival = Arrival(name: Name, rows: seq<Row>)

  lemma {:induction false} RunsSnoc(p: Partition, staged: map<Name, seq<Row>>, steps: seq<Step>,
                                    q: Partition, staged': map<Name, seq<Row>>, step: Step)
    requires Runs(p, staged, steps, q, staged') && Allowed(q, staged', step) && Applicable(q, step)
    ensures Runs(p, staged, steps + [step], Apply(q, step), StagedAfter(staged', step))
    decreases |steps|
  {
    hide Allowed, Apply, Applicable;
    if steps == [] {
      assert ([step])[1..] == [];
      assert Runs(Apply(q, step), StagedAfter(staged', step), [], Apply(q, step), StagedAfter(staged', step));
    } else {
      assert (steps + [step])[1..] == steps[1..] + [step];
      RunsSnoc(Apply(p, steps[0]), StagedAfter(staged, steps[0]), steps[1..], q, staged', step);
    }
  }

  /** `staged` remembers every segment there ever was: names carry a fresh identifier and never repeat. */
  class PartitionDir {
    var segments: map<Name, seq<Row>>
    var markers: map<FileName, Marker>
    var files: map<FileName, seq<Row>>
    var compaction: Option<Compaction>
    var staged: map<Name, seq<Row>>
    ghost var trace: seq<Step>

    ghost function View(): Partition
      reads this
    {
      Partition(segments, markers, files, compaction)
    }

    ghost predicate Valid()
      reads this
    {
      Inv(View(), staged) && Runs(NO_FILES, map[], trace, View(), staged)
    }

    constructor ()
      ensures Valid() && View() == NO_FILES && staged == map[]
    {
      segments, markers, files, compaction := map[], map[], map[], None;
      staged, trace := map[], [];
      new;
      EmptyInv();
    }

    method Write(step: Step)
      requires Applicable(View(), step)
      modifies `segments, `markers, `files, `compaction
      ensures View() == Apply(old(View()), step)
    {
      hide RowsAt;
      match step
      case Stage(n, rows) => segments := segments[n := rows];
      case WriteMarker(batch) =>
        markers := markers[Part(batch) := Transaction(batch, Part(batch), |RowsAt(segments, batch)|)];
      case WriteOutput(batch) => files := files[Part(batch) := RowsAt(segments, batch)];
      case UnlinkSegment(_, n) => segments := segments - {n};
      case FinishMarker(k) => markers := markers - {k};
      case DiscardMarker(k) => markers := markers - {k};
      case WriteBlank => files := files[Blank := []];
      case StartCompaction(sources) =>
        compaction := Some(Compaction(sources, Compacted(sources), |RowsAt(files, sources)|));
      case WriteCompacted =>
        files := files[compaction.value.output := RowsAt(files, compaction.value.sources)];
      case UnlinkFile(f) => files := files - {f};
      case FinishCompaction => compaction := None;
    }

    /** One atomic write of the protocol. */
    method Perform(step: Step)
      requires Valid() && Allowed(View(), staged, step) && Applicable(View(), step)
      modifies this
      ensures Valid()
      ensures View() == Apply(old(View()), step) && staged == StagedAfter(old(staged), step)
      ensures trace == old(trace) + [step]
    {
      hide Inv, Runs, Allowed, Apply, Applicable;
      StepKeepsInv(View(), staged, step);
      RunsSnoc(NO_FILES, map[], trace, View(), staged, step);
      Write(step);
      staged, trace := StagedAfter(staged, step), trace + [step];
    }

    /** Nothing is written for an empty poll. */
    method Stage(name: Name, rows: seq<Row>) returns (path: Option<Name>)
      requires Valid() && name !in staged
      modifies this
      ensures Valid()
      ensures path == if rows == [] then None else Some(name)
      ensures rows == [] ==> View() == old(View()) && staged == old(staged)
      ensures rows != [] ==> View() == old(View()).(segments := old(segments)[name := rows])
                             && staged == old(staged)[name := rows]
    {
      if rows == [] {
        return None;
      }
      Perform(PartitionSteps.Stage(name, rows));
      return Some(name);
    }

    /** What a call may rely on while others stage: only segments with new names appear. */
    twostate predicate OnlyArrivals()
      reads this
    {
      && View() == old(View()).(segments := segments)
      && (forall n :: n in old(staged) ==> n in staged && staged[n] == old(staged)[n])
      && (forall n :: n in old(segments) ==> n in segments && segments[n] == old(segments)[n])
      && (forall n :: n in segments && n !in old(segments) ==> n !in old(staged))
    }

    /** A segment that is gone stays gone: its name is never used again. */
    twostate predicate NothingReturns()
      reads this
    {
      forall n :: n in old(staged) ==>
        n in staged && (n in segments ==> n in old(segments) && segments[n] == old(segments)[n])
    }

    method Arrive(arrivals: seq<Arrival>)
      requires Valid()
      modifies this
      ensures Valid() && OnlyArrivals() && NothingReturns()
    {
      for i := 0 to |arrivals|
        invariant Valid() && OnlyArrivals() && NothingReturns()
      {
        ghost var s := View();
        if arrivals[i].name !in staged {
          var _ := Stage(arrivals[i].name, arrivals[i].rows);
        }
      }
    }
  
    /** Removes the sources of a marker whose output is valid, then the marker; a source that is
        gone already is passed over. `done` writes of this call have happened before. */
    method CleanUp(key: FileName, luck: Luck, done: nat) returns (ok: bool)
      requires Valid() && key in markers && markers[key].Transaction? && OutputValid(View(), markers[key])
      modifies this
      ensures Valid() && files == old(files) && compaction == old(compaction)
      ensures markers == if ok then old(markers) - {key} else old(markers)
      ensures ok <==> luck.writes > done + |old(markers)[key].sources|
      ensures ok ==> forall n :: n in old(markers)[key].sources ==> n !in segments
      ensures forall n :: n in old(segments) && n !in old(markers)[key].sources ==>
                n in segments && segments[n] == old(segments)[n]
      ensures NothingReturns()
    {
      hide Runs, Inv, RowsAt;
      ok := false;
      var sources := markers[key].sources;
      AllStaged(View(), staged, key);
      for i := 0 to |sources|
        invariant Valid() && files == old(files) && compaction == old(compaction) && markers == old(markers)
        invariant NothingReturns()
        invariant forall j :: 0 <= j < i ==> sources[j] !in segments
        invariant forall n :: n in old(segments) && n !in sources ==> n in segments && segments[n] == old(segments)[n]
      {
        if luck.writes <= done + i {
          return;
        }
        Perform(UnlinkSegment(key, sources[i]));
        Arrive(luck.arrivals(done + i + 1));
      }
      if luck.writes <= done + |sources| {
        return;
      }
      Perform(FinishMarker(key));
      ok := true;
    }

    /** The marker and the output of one batch: `written` says that both are there and agree. */
    method WriteBatch(batch: seq<Name>, luck: Luck) returns (written: bool)
      requires Valid() && markers == map[] && batch != [] && NoDup(batch) && AllIn(segments, batch)
      modifies this
      ensures Valid() && compaction == old(compaction) && NothingReturns()
      ensures forall f :: f != Part(batch) ==> SameEntry(old(files), files, f)
      ensures forall k :: k in markers ==> k == Part(batch)
      ensures forall n :: n in old(segments) ==> n in segments && segments[n] == old(segments)[n]
      ensures luck.writes >= 2 ==> written
      ensures written ==>
                && markers == map[Part(batch) := Transaction(batch, Part(batch), |RowsAt(old(segments), batch)|)]
                && Part(batch) in files && files[Part(batch)] == RowsAt(old(segments), batch)
    {
      hide RowsAt, Runs, Inv, NoDup;
      written := false;
      var expected := |RowsAt(segments, batch)|;
      var output := Part(batch);
      Arrive(luck.arrivals(0));
      if luck.writes == 0 {
        return;
      }
      SameRows(old(segments), segments, batch);
      Perform(WriteMarker(batch));
      Arrive(luck.arrivals(1));
      SameRows(old(segments), segments, batch);
      if output !in files || |files[output]| != expected {
        if luck.writes == 1 {
          return;
        }
        Perform(WriteOutput(batch));
      }
      assert output in files;
      hide Apply, Allowed, Applicable;
      Arrive(luck.arrivals(2));
      PartRows(View(), staged, old(segments), batch);
      if |files[output]| != expected {
        return;
      }
      written := true;
    }

    /** Two passes over the batch: count its rows, then write them. `rows` counts only a finished commit. */
    method CommitSegments(batch: seq<Name>, luck: Luck) returns (ok: bool, rows: nat)
      requires Valid() && markers == map[] && batch != [] && NoDup(batch) && AllIn(segments, batch)
      modifies this
      ensures Valid() && compaction == old(compaction) && NothingReturns()
      ensures forall n :: n in old(segments) && n !in batch ==> n in segments && segments[n] == old(segments)[n]
      ensures forall f :: f != Part(batch) ==> SameEntry(old(files), files, f)
      ensures ok ==>
                && markers == map[]
                && (forall n :: n in batch ==> n !in segments)
                && Part(batch) in files && files[Part(batch)] == RowsAt(old(segments), batch)
                && rows == |files[Part(batch)]|
      ensures !ok ==> rows == 0 && forall k :: k in markers ==> k == Part(batch)
      ensures luck.writes > |batch| + 2 ==> ok
    {
      hide RowsAt, Runs, Inv;
      rows := 0;
      ok := WriteBatch(batch, luck);
      if ok {
        ok := CleanUp(Part(batch), luck, 2);
      }
      if ok {
        rows := |files[Part(batch)]|;
      }
    }
  
    /** Whether an interrupted commit can be finished, undone, or neither. */
    method RecoverMarker(key: FileName, luck: Luck) returns (ok: bool)
      requires Valid() && key in markers
      modifies this
      ensures Valid() && files == old(files) && compaction == old(compaction) && NothingReturns()
      ensures markers == if ok then old(markers) - {key} else old(markers)
      ensures old(markers)[key].Transaction?
      ensures luck.writes > |old(markers)[key].sources| ==> ok
    {
      hide Runs, Inv, RowsAt;
      ReachableMarker(View(), staged, key);
      var m := markers[key];
      if m.Unreadable? || m.sources == [] || m.expectedRows < 0 {
        return false;
      }
      if m.output in files && |files[m.output]| == m.expectedRows {
        ok := CleanUp(key, luck, 0);
        return;
      }
      if forall n :: n in m.sources ==> n in segments {
        if luck.writes == 0 {
          return false;
        }
        Perform(DiscardMarker(key));
        return true;
      }
      return false;
    }

    /** Every marker on its own: one that cannot be recovered blocks its partition, not the others. */
    method RecoverCommits(found: seq<FileName>, luck: nat -> Luck) returns (blocked: bool)
      requires Valid() && Lists(found, markers.Keys)
      modifies this
      ensures Valid() && files == old(files) && compaction == old(compaction) && NothingReturns()
      ensures !blocked ==> markers == map[]
      ensures (forall i, k :: 0 <= i < |found| && k in old(markers) && old(markers)[k].Transaction? ==>
                 luck(i).writes > |old(markers)[k].sources|) ==> !blocked
    {
      hide Runs, Inv;
      blocked := false;
      for i := 0 to |found|
        invariant Valid() && files == old(files) && compaction == old(compaction) && NothingReturns()
        invariant forall k :: k in markers ==> k in old(markers) && markers[k] == old(markers)[k]
        invariant forall j :: i <= j < |found| ==> found[j] in markers
        invariant !blocked ==> forall j :: 0 <= j < i ==> found[j] !in markers
        invariant blocked ==> exists j, k :: 0 <= j < i && k in old(markers) && old(markers)[k].Transaction?
                                             && luck(j).writes <= |old(markers)[k].sources|
      {
        var ok := RecoverMarker(found[i], luck(i));
        if !ok {
          blocked := true;
        }
      }
    }

    /** One more batch, added to what the flush has written so far. */
    method CommitNext(batch: seq<Name>, luck: Luck, written: seq<FileName>)
      returns (ok: bool, written': seq<FileName>, count: nat)
      requires Valid() && markers == map[] && AllIn(files, written)
      requires batch != [] && NoDup(batch) && AllIn(segments, batch)
      modifies this
      ensures Valid() && compaction == old(compaction) && NothingReturns()
      ensures ok ==> markers == map[]
      ensures ok ==> forall n :: n in batch ==> n !in segments
      ensures forall n :: n in old(segments) && n !in batch ==> n in segments
      ensures written' == if ok then written + [Part(batch)] else written
      ensures AllIn(files, written') && |RowsAt(files, written')| == |RowsAt(old(files), written)| + count
      ensures luck.writes > |batch| + 2 ==> ok
    {
      NewOutput(View(), staged, batch);
      hide Runs, Inv;
      ok, count := CommitSegments(batch, luck);
      SameRowsOfFiles(old(files), files, written);
      written' := written;
      if ok {
        RowsSnoc(files, written, Part(batch));
        written' := written + [Part(batch)];
      }
    }

    /** Commits the listed segments in batches, up to the first failure or request to stop. */
    method CommitPending(pending: seq<Name>, luck: nat -> Luck, stops: nat -> bool)
      returns (written: seq<FileName>, rows: nat, failed: bool, stopped: bool)
      requires Valid() && markers == map[] && Lists(pending, segments.Keys)
      modifies this
      ensures Valid() && compaction == old(compaction) && NothingReturns()
      ensures !failed ==> markers == map[]
      ensures !failed && !stopped ==> forall n :: n in pending ==> n !in segments
      ensures AllIn(files, written) && rows == |RowsAt(files, written)|
      ensures exists n :: 0 <= n <= |pending| && Batches(written, pending[..n])
      ensures (forall i :: luck(i).writes > MAX_SEGMENTS_PER_COMMIT + 2 && !stops(i)) ==> !failed && !stopped
    {
      hide Runs, Inv, RowsAt;
      SegmentsStaged(View(), staged, pending);
      hide Valid, View;
      written, rows, failed, stopped := [], 0, false, false;
      NoRows(files);
      assert pending[0..] == pending;
      var start := 0;
      while start < |pending|
        invariant 0 <= start <= |pending|
        invariant Valid() && compaction == old(compaction) && NothingReturns() && markers == map[]
        invariant forall n :: n in pending[..start] ==> n !in segments
        invariant AllIn(segments, pending[start..]) && AllIn(staged, pending)
        invariant AllIn(files, written) && rows == |RowsAt(files, written)|
        invariant Batches(written, pending[..start])
      {
        if stops(start) {
          stopped := true;
          return;
        }
        var end := if start + MAX_SEGMENTS_PER_COMMIT <= |pending| then start + MAX_SEGMENTS_PER_COMMIT else |pending|;
        var batch := pending[start..end];
        NextBatch(pending, start, end);
        BatchesSnoc(written, pending[..start], batch);
        hide Lists, NoDup, Batches;
        var ok, more, count := CommitNext(batch, luck(start), written);
        written, rows := more, rows + count;
        if !ok {
          failed := true;
          return;
        }
        start := end;
      }
      assert pending[..start] == pending;
    }
  }

  lemma NextBatch(pending: seq<Name>, start: nat, end: nat)
    requires NoDup(pending) && start < end <= |pending|
    ensures NoDup(pending[start..end]) && pending[start..end] != []
    ensures forall n :: n in pending[start..] <==> n in pending[start..end] || n in pending[end..]
    ensures forall n :: n in pending[start..end] ==> n !in pending[end..]
    ensures forall n :: n in pending[..end] <==> n in pending[..start] || n in pending[start..end]
    ensures forall n :: n in pending[..end] ==> n in pending
    ensures pending[..end] == pending[..start] + pending[start..end]
  {
    assert pending[..end] == pending[..start] + pending[start..end];
    assert pending[start..] == pending[start..end] + pending[end..];
  }

  /** The files are the outputs of batches of the allowed size that make up `done`, in order. */
  ghost predicate Batches(written: seq<FileName>, done: seq<Name>) {
    && (forall f :: f in written ==> f.Part? && 0 < |f.segments| <= MAX_SEGMENTS_PER_COMMIT)
    && Origins(written) == done
  }

  lemma BatchesSnoc(written: seq<FileName>, done: seq<Name>, batch: seq<Name>)
    requires Batches(written, done) && 0 < |batch| <= MAX_SEGMENTS_PER_COMMIT
    ensures Batches(written + [Part(batch)], done + batch)
  {
    assert (written + [Part(batch)])[..|written|] == written;
  }

  lemma NewOutput(p: Partition, staged: map<Name, seq<Row>>, batch: seq<Name>)
    requires Inv(p, staged) && p.markers == map[] && batch != [] && AllIn(p.segments, batch)
    ensures Part(batch) !in p.files
  {
    BatchUncovered(p, staged, batch);
  }

  lemma SameRowsOfFiles(m: map<FileName, seq<Row>>, m': map<FileName, seq<Row>>, keys: seq<FileName>)
    requires AllIn(m, keys) && forall k :: k in keys ==> SameEntry(m, m', k)
    ensures AllIn(m', keys) && RowsAt(m, keys) == RowsAt(m', keys)
  {
    RowsSame(m, m', keys);
  }

  lemma SegmentsStaged(p: Partition, staged: map<Name, seq<Row>>, names: seq<Name>)
    requires Inv(p, staged) && AllIn(p.segments, names)
    ensures AllIn(staged, names)
  {
  }

  lemma ReachableMarker(p: Partition, staged: map<Name, seq<Row>>, k: FileName)
    requires Inv(p, staged) && k in p.markers
    ensures p.markers[k].Transaction? && p.markers[k].sources != [] && p.markers[k].expectedRows >= 0
    ensures OutputValid(p, p.markers[k]) || AllIn(p.segments, p.markers[k].sources)
  {
    InvalidMeansAbsent(p, staged, k);
  }

  lemma AllStaged(p: Partition, staged: map<Name, seq<Row>>, k: FileName)
    requires Inv(p, staged) && k in p.markers && p.markers[k].Transaction?
    ensures AllIn(staged, p.markers[k].sources)
  {
    assert GoodMarker(p, staged, k);
  }

  ghost predicate SameEntry<K, V>(m: map<K, V>, m': map<K, V>, k: K) {
    (k in m <==> k in m') && (k in m ==> m[k] == m'[k])
  }

  lemma SameRows(m: map<Name, seq<Row>>, m': map<Name, seq<Row>>, keys: seq<Name>)
    requires AllIn(m, keys) && AllIn(m', keys)
    requires forall k :: k in keys ==> m[k] == m'[k]
    ensures RowsAt(m, keys) == RowsAt(m', keys)
  {
    RowsSame(m, m', keys);
  }

  /** In a reachable state the output of a batch holds the rows of the batch. */
  lemma PartRows(p: Partition, staged: map<Name, seq<Row>>, segments: map<Name, seq<Row>>, batch: seq<Name>)
    requires Inv(p, staged) && Part(batch) in p.files && AllIn(segments, batch)
    requires forall n :: n in batch ==> n in p.segments && p.segments[n] == segments[n]
    ensures p.files[Part(batch)] == RowsAt(segments, batch)
  {
    RowsSame(staged, segments, batch);
    assert Origin(Part(batch)) == batch;
    hide RowsAt;
  }

  /** How file listings are ordered. */
  datatype Sorting = Sorting(names: set<Name> -> seq<Name>, files: set<FileName> -> seq<FileName>)

  ghost predicate Sorts(s: Sorting) {
    (forall pool :: Lists(s.names(pool), pool)) && (forall pool :: Lists(s.files(pool), pool))
  }

  /** What one flush meets in one partition. */
  datatype FlushLuck = FlushLuck(recovery: nat -> Luck, commits: nat -> Luck, stops: nat -> bool)

  /** `filesWritten[i]` are the files written in partition `i`, for the partitions reached. */
  datatype FlushResult = FlushResult(filesWritten: seq<seq<FileName>>, rowsWritten: nat, errors: seq<nat>)

  /** The named segments have all been staged and none is left. */
  ghost predicate Clear(d: PartitionDir, names: set<Name>)
    reads d
  {
    names <= d.staged.Keys && names !! d.segments.Keys
  }

  /** A partition whose turn has not come. */
  ghost predicate Waiting(d: PartitionDir, blocked: bool, pending: set<Name>)
    reads d
  {
    (blocked || d.markers == map[]) && pending == d.segments.Keys
  }

  /** A partition whose pending segments have been committed, unless it was blocked. */
  ghost predicate Served(d: PartitionDir, blocked: bool, pending: set<Name>)
    reads d
  {
    blocked || (d.markers == map[] && Clear(d, pending))
  }

  /** Nothing raises while segments are committed and nobody asks to stop. */
  ghost predicate Ample(luck: FlushLuck) {
    forall i :: luck.commits(i).writes > MAX_SEGMENTS_PER_COMMIT + 2 && !luck.stops(i)
  }

  /** Nothing raises while the partition's interrupted commits are finished or undone. */
  ghost predicate Recovers(d: PartitionDir, luck: FlushLuck)
    reads d
  {
    forall j, k :: k in d.markers && d.markers[k].Transaction? ==> luck.recovery(j).writes > |d.markers[k].sources|
  }

  ghost predicate AllAmple(luck: nat -> FlushLuck) {
    forall i :: Ample(luck(i))
  }

  lemma AmpleAt(luck: nat -> FlushLuck, i: nat)
    ensures AllAmple(luck) ==> Ample(luck(i))
  {
  }

  class DurableParquetSpool {
    const sorting: Sorting
    const dirs: seq<PartitionDir>
    const flushSeconds: real
    var lastFlush: real

    ghost predicate Ready()
      reads this, dirs
    {
      && Sorts(sorting)
      && (forall i, j :: 0 <= i < j < |dirs| ==> dirs[i] != dirs[j])
      && (forall d :: d in dirs ==> d.Valid())
    }

    constructor (sorting: Sorting, dirs: seq<PartitionDir>, flushSeconds: real, now: real)
      ensures this.sorting == sorting && this.dirs == dirs && this.flushSeconds == flushSeconds
      ensures lastFlush == now - flushSeconds
    {
      this.sorting, this.dirs, this.flushSeconds, this.lastFlush := sorting, dirs, flushSeconds, now - flushSeconds;
    }

    /** Recovery of every partition; `blocked[i]` keeps partition `i` out of the commits that follow. */
    method RecoverAll(luck: nat -> FlushLuck) returns (blocked: seq<bool>)
      requires Ready()
      modifies dirs
      ensures Ready() && |blocked| == |dirs|
      ensures forall i :: 0 <= i < |dirs| ==> dirs[i].NothingReturns() && (blocked[i] || dirs[i].markers == map[])
      ensures forall i :: 0 <= i < |dirs| && old(Recovers(dirs[i], luck(i))) ==> !blocked[i]
    {
      hide PartitionDir.Valid;
      blocked := [];
      for i := 0 to |dirs|
        invariant Ready() && |blocked| == i
        invariant forall j :: 0 <= j < i ==> dirs[j].NothingReturns() && (blocked[j] || dirs[j].markers == map[])
        invariant forall j :: 0 <= j < i && old(Recovers(dirs[j], luck(j))) ==> !blocked[j]
        invariant forall j :: i <= j < |dirs| ==> unchanged(dirs[j])
      {
        var d := dirs[i];
        assert d in dirs;
        var b := d.RecoverCommits(sorting.files(d.markers.Keys), luck(i).recovery);
        blocked := blocked + [b];
      }
    }

    /** Nothing left of what was pending and nothing half done. */
    twostate predicate Flushed(i: nat)
      requires i < |dirs|
      reads dirs
    {
      dirs[i].markers == map[] && forall n :: n in old(dirs[i].segments) ==> n !in dirs[i].segments
    }

    /** The listed files are there, partition by partition. */
    ghost predicate Present(files: seq<seq<FileName>>)
      requires |files| <= |dirs|
      reads dirs[..|files|]
    {
      forall i :: 0 <= i < |files| ==> AllIn(dirs[i].files, files[i])
    }

    ghost function TotalRows(files: seq<seq<FileName>>): nat
      requires |files| <= |dirs| && Present(files)
      reads dirs[..|files|]
    {
      if files == [] then 0 else
      var n := |files| - 1;
      assert dirs[..n] + [dirs[n]] == dirs[..n + 1];
      TotalRows(files[..n]) + |RowsAt(dirs[n].files, files[n])|
    }

    /** The files and the row count of a result are those on disk. */
    ghost predicate Counts(result: FlushResult)
      reads dirs
    {
      && |result.filesWritten| <= |dirs| && Present(result.filesWritten)
      && result.rowsWritten == TotalRows(result.filesWritten)
    }

    /** Commits what is pending in one partition. */
    method CommitOne(i: nat, luck: FlushLuck) returns (written: seq<FileName>, rows: nat, failed: bool, stopped: bool)
      requires Ready() && i < |dirs| && dirs[i].markers == map[]
      modifies dirs[i]
      ensures Ready() && dirs[i].NothingReturns()
      ensures AllIn(dirs[i].files, written) && rows == |RowsAt(dirs[i].files, written)|
      ensures !failed && !stopped ==>
                dirs[i].markers == map[] && forall n :: n in old(dirs[i].segments) ==> n !in dirs[i].segments
      ensures Ample(luck) ==> !failed && !stopped
    {
      var d := dirs[i];
      var pending := sorting.names(d.segments.Keys);
      assert Lists(pending, d.segments.Keys);
      hide Lists, Sorts;
      assert forall n :: n in d.segments ==> n in pending by { SameMembers(pending, d.segments.Keys); }
      written, rows, failed, stopped := d.CommitPending(pending, luck.commits, luck.stops);
    }

    /** One more partition's files counted. */
    lemma CountsSnoc(result: FlushResult, written: seq<FileName>, rows: nat, errors: seq<nat>)
      requires |result.filesWritten| < |dirs| && Counts(result)
      requires var d := dirs[|result.filesWritten|]; AllIn(d.files, written) && rows == |RowsAt(d.files, written)|
      ensures Counts(FlushResult(result.filesWritten + [written], result.rowsWritten + rows, errors))
    {
      var files := result.filesWritten + [written];
      assert files[..|result.filesWritten|] == result.filesWritten;
      hide RowsAt;
    }

    /** The next partition's turn, unless it is blocked, added to the result; segments that are gone stay gone. */
    method CommitTurn(i: nat, blocked: bool, luck: FlushLuck, result: FlushResult,
                      ghost gone: set<Name>, ghost pending: set<Name>)
      returns (result': FlushResult, stopped: bool)
      requires Ready() && i < |dirs| && Waiting(dirs[i], blocked, pending) && Clear(dirs[i], gone)
      requires |result.filesWritten| == i && Counts(result)
      modifies dirs[i]
      ensures Ready() && Clear(dirs[i], gone)
      ensures |result'.filesWritten| == i + 1 && Counts(result')
      ensures result'.errors == result.errors || result'.errors == result.errors + [i]
      ensures result'.errors == result.errors && !stopped ==> Served(dirs[i], blocked, pending)
      ensures Ample(luck) ==> result'.errors == result.errors && !stopped
    {
      var written, rows, failed := [], 0, false;
      stopped := false;
      hide Inv, Runs;
      NoRows(dirs[i].files);
      AllSegmentsStaged(dirs[i]);
      hide RowsAt, Ample, Sorts, PartitionDir.Valid, Lists, NoDup;
      assert forall d :: d in dirs[..i] ==> d != dirs[i];
      if !blocked {
        hide Ready;
        written, rows, failed, stopped := CommitOne(i, luck);
      }
      hide TotalRows, Present;
      assert Counts(result);
      result' := FlushResult(result.filesWritten + [written], result.rowsWritten + rows,
                             if failed then result.errors + [i] else result.errors);
      CountsSnoc(result, written, rows, result'.errors);
    }

    /** The first `n` partitions have had their turn. */
    ghost predicate Progress(n: nat, blocked: seq<bool>, luck: nat -> FlushLuck, errors: seq<nat>,
                             gone: seq<set<Name>>, pending: seq<set<Name>>, result: FlushResult)
      reads this, dirs
    {
      && Ready() && |blocked| == |gone| == |pending| == |dirs| && n <= |dirs|
      && |result.filesWritten| == n && Counts(result)
      && |result.errors| >= |errors| && (AllAmple(luck) ==> result.errors == errors)
      && (forall j :: 0 <= j < |dirs| ==> Clear(dirs[j], gone[j]))
      && (|result.errors| == |errors| ==> forall j :: 0 <= j < n ==> Served(dirs[j], blocked[j], pending[j]))
      && (forall j :: n <= j < |dirs| ==> Waiting(dirs[j], blocked[j], pending[j]))
    }

    method CommitNextDir(n: nat, blocked: seq<bool>, luck: nat -> FlushLuck, ghost errors: seq<nat>,
                         ghost gone: seq<set<Name>>, ghost pending: seq<set<Name>>, result: FlushResult)
      returns (result': FlushResult, stopped: bool)
      requires Progress(n, blocked, luck, errors, gone, pending, result) && n < |dirs|
      modifies dirs[n]
      ensures !stopped ==> Progress(n + 1, blocked, luck, errors, gone, pending, result')
      ensures stopped ==> Ready() && Counts(result') && !AllAmple(luck) && |result'.errors| >= |errors|
      ensures stopped ==> forall j :: 0 <= j < |dirs| ==> Clear(dirs[j], gone[j])
    {
      assert forall i, j :: 0 <= i < j < |dirs| ==> dirs[i] != dirs[j];
      AmpleAt(luck, n);
      hide Ready, Clear, Waiting, Served, Ample, AllAmple, Counts;
      result', stopped := CommitTurn(n, blocked[n], luck(n), result, gone[n], pending[n]);
    }

    /** Commits partition after partition; a failure in one does not keep the next from its turn. */
    method CommitAll(blocked: seq<bool>, luck: nat -> FlushLuck, errors: seq<nat>,
                     ghost gone: seq<set<Name>>, ghost pending: seq<set<Name>>)
      returns (result: FlushResult, stopped: bool)
      requires Ready() && |blocked| == |gone| == |pending| == |dirs|
      requires forall i :: 0 <= i < |dirs| ==> Clear(dirs[i], gone[i]) && Waiting(dirs[i], blocked[i], pending[i])
      modifies dirs
      ensures Ready() && Counts(result) && |result.errors| >= |errors|
      ensures forall i :: 0 <= i < |dirs| ==> Clear(dirs[i], gone[i])
      ensures |result.errors| == |errors| && !stopped ==>
                forall i :: 0 <= i < |dirs| ==> Served(dirs[i], blocked[i], pending[i])
      ensures AllAmple(luck) ==> result.errors == errors && !stopped
    {
      result, stopped := FlushResult([], 0, errors), false;
      hide Ready, Clear, Waiting, Served, AllAmple;
      assert Progress(0, blocked, luck, errors, gone, pending, result);
      hide Counts;
      for i := 0 to |dirs|
        invariant !stopped && Progress(i, blocked, luck, errors, gone, pending, result)
      {
        result, stopped := CommitNextDir(i, blocked, luck, errors, gone, pending, result);
        if stopped {
          return;
        }
      }
    }

    /** A flush without errors that was due and was not stopped has finished every interrupted commit
        and committed everything that was pending when it began; only such a flush moves the time of
        the last flush. What it says it wrote is there. With nothing interrupting it there are no errors. */
    method Flush(force: bool, now: real, luck: nat -> FlushLuck) returns (result: FlushResult, due: bool, stopped: bool)
      requires Ready()
      modifies this, dirs
      ensures Ready()
      ensures due <==> force || now - old(lastFlush) >= flushSeconds
      ensures due && !stopped && result.errors == [] ==> forall i :: 0 <= i < |dirs| ==> Flushed(i)
      ensures lastFlush == if due && !stopped && result.errors == [] then now else old(lastFlush)
      ensures Counts(result)
      ensures (forall i :: 0 <= i < |dirs| ==> old(Recovers(dirs[i], luck(i)))) && AllAmple(luck) ==>
                result.errors == [] && !stopped
    {
      forall i | 0 <= i < |dirs|
        ensures dirs[i].segments.Keys <= dirs[i].staged.Keys
      {
        assert dirs[i] in dirs;
        AllSegmentsStaged(dirs[i]);
      }
      hide Inv, Runs, RowsAt;
      var errors: seq<nat> := [];
      stopped := false;
      var blocked := RecoverAll(luck);
      for i := 0 to |dirs|
        invariant errors == [] <==> forall j :: 0 <= j < i ==> !blocked[j]
      {
        if blocked[i] {
          errors := errors + [i];
        }
      }
      result := FlushResult([], 0, errors);
      due := force || now - lastFlush >= flushSeconds;
      if !due {
        return;
      }
      ghost var pending := seq(|dirs|, i requires 0 <= i < |dirs| reads dirs => dirs[i].segments.Keys);
      ghost var gone := seq(|dirs|, i requires 0 <= i < |dirs| reads dirs =>
                                      old(dirs[i].segments.Keys) - dirs[i].segments.Keys);
      result, stopped := CommitAll(blocked, luck, errors, gone, pending);
      if stopped {
        return;
      }
      if result.errors == [] {
        forall i | 0 <= i < |dirs|
          ensures Flushed(i)
        {
          assert Clear(dirs[i], gone[i]) && Clear(dirs[i], pending[i]);
        }
        lastFlush := now;
      }
    }
  }

  lemma AllSegmentsStaged(d: PartitionDir)
    requires d.Valid()
    ensures d.segments.Keys <= d.staged.Keys
  {
    hide Runs;
  }

  lemma SameMembers(s: seq<Name>, pool: set<Name>)
    requires Lists(s, pool)
    ensures forall n :: n in pool ==> n in s
  {
  }
}
