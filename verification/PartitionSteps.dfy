/** The writes that happen to a partition, each one atomic, with what must be true on disk when
    it happens; any of them may be the last one before a crash. */
module PartitionSteps {
  import opened Common
  import opened PartitionState

  datatype Step =
    | Stage(name: Name, rows: seq<Row>)
    | WriteMarker(batch: seq<Name>)
    | WriteOutput(batch: seq<Name>)
    | UnlinkSegment(key: FileName, name: Name)
    | FinishMarker(key: FileName)
    | DiscardMarker(key: FileName)
    | WriteBlank
    | StartCompaction(sources: seq<FileName>)
    | WriteCompacted
    | UnlinkFile(file: FileName)
    | FinishCompaction

  predicate OutputValid(p: Partition, m: Marker)
    requires m.Transaction?
  {
    m.output in p.files && |p.files[m.output]| == m.expectedRows
  }

  predicate CompactionValid(p: Partition, tx: Compaction) {
    tx.output in p.files && |p.files[tx.output]| == tx.expectedRows
  }

  ghost predicate Allowed(p: Partition, staged: map<Name, seq<Row>>, step: Step) {
    match step
    case Stage(n, _) => n !in staged
    case WriteMarker(batch) => p.markers == map[] && batch != [] && NoDup(batch) && AllIn(p.segments, batch)
    case WriteOutput(batch) =>
      && Part(batch) in p.markers && AllIn(p.segments, batch) && p.markers[Part(batch)].Transaction?
      && !OutputValid(p, p.markers[Part(batch)])
    case UnlinkSegment(k, n) =>
      k in p.markers && p.markers[k].Transaction? && OutputValid(p, p.markers[k]) && n in p.markers[k].sources
    case FinishMarker(k) =>
      && k in p.markers && p.markers[k].Transaction? && OutputValid(p, p.markers[k])
      && forall n :: n in p.markers[k].sources ==> n !in p.segments
    case DiscardMarker(k) =>
      && k in p.markers && p.markers[k].Transaction? && !OutputValid(p, p.markers[k])
      && AllIn(p.segments, p.markers[k].sources)
    case WriteBlank => Blank !in p.files
    case StartCompaction(sources) =>
      p.segments == map[] && p.markers == map[] && p.compaction.None? && Lists(sources, p.files.Keys)
    case WriteCompacted =>
      && p.compaction.Some? && !CompactionValid(p, p.compaction.value)
      && AllIn(p.files, p.compaction.value.sources)
    case UnlinkFile(f) =>
      && p.compaction.Some? && CompactionValid(p, p.compaction.value)
      && f in p.compaction.value.sources && f != p.compaction.value.output
    case FinishCompaction =>
      && p.compaction.Some? && CompactionValid(p, p.compaction.value)
      && forall f :: f in p.compaction.value.sources && f != p.compaction.value.output ==> f !in p.files
  }

  /** Everything a step reads is there. */
  ghost predicate Applicable(p: Partition, step: Step) {
    match step
    case WriteMarker(batch) => AllIn(p.segments, batch)
    case WriteOutput(batch) => AllIn(p.segments, batch)
    case StartCompaction(sources) => AllIn(p.files, sources)
    case WriteCompacted => p.compaction.Some? && AllIn(p.files, p.compaction.value.sources)
    case _ => true
  }

  function Apply(p: Partition, step: Step): Partition
    requires Applicable(p, step)
  {
    match step
    case Stage(n, rows) => p.(segments := p.segments[n := rows])
    case WriteMarker(batch) =>
      p.(markers := p.markers[Part(batch) := Transaction(batch, Part(batch), |RowsAt(p.segments, batch)|)])
    case WriteOutput(batch) => p.(files := p.files[Part(batch) := RowsAt(p.segments, batch)])
    case UnlinkSegment(_, n) => p.(segments := p.segments - {n})
    case FinishMarker(k) => p.(markers := p.markers - {k})
    case DiscardMarker(k) => p.(markers := p.markers - {k})
    case WriteBlank => p.(files := p.files[Blank := []])
    case StartCompaction(sources) =>
      p.(compaction := Some(Compaction(sources, Compacted(sources), |RowsAt(p.files, sources)|)))
    case WriteCompacted =>
      p.(files := p.files[p.compaction.value.output := RowsAt(p.files, p.compaction.value.sources)])
    case UnlinkFile(f) => p.(files := p.files - {f})
    case FinishCompaction => p.(compaction := None)
  }

  function StagedAfter(staged: map<Name, seq<Row>>, step: Step): map<Name, seq<Row>> {
    if step.Stage? then staged[step.name := step.rows] else staged
  }

  /******* Every step keeps the invariant *******/

  lemma StageKeepsInv(p: Partition, staged: map<Name, seq<Row>>, n: Name, rows: seq<Row>)
    requires Inv(p, staged) && n !in staged
    ensures Inv(p.(segments := p.segments[n := rows]), staged[n := rows])
  {
    var p', staged' := p.(segments := p.segments[n := rows]), staged[n := rows];
    SameVisible(p, p');
    StageKeepsFiles(p, staged, n, rows);
    StageKeepsMarkers(p, staged, n, rows);
    StageKeepsCompacting(p, staged, n, rows);
    hide Visible, Covered, Markers, Contents, Compacting;
    assert Disjoint(p');
    assert Pending(p');
    assert Complete(p', staged');
  }

  /** What is visible depends on the files and the compaction alone. */
  lemma SameVisible(p: Partition, p': Partition)
    requires p'.files == p.files && p'.compaction == p.compaction
    ensures forall f :: Visible(p', f) <==> Visible(p, f)
    ensures forall n :: Covered(p', n) <==> Covered(p, n)
  {
    assert forall f :: Visible(p', f) <==> Visible(p, f);
    hide Visible;
  }

  lemma StageKeepsFiles(p: Partition, staged: map<Name, seq<Row>>, n: Name, rows: seq<Row>)
    requires Contents(p, staged) && n !in staged
    ensures Contents(p.(segments := p.segments[n := rows]), staged[n := rows])
    ensures forall f :: Visible(p, f) ==> n !in Origin(f)
  {
    forall f | f in p.files
      ensures p.files[f] == RowsAt(staged[n := rows], Origin(f))
    {
      RowsSame(staged, staged[n := rows], Origin(f));
    }
  }

  lemma StageKeepsMarkers(p: Partition, staged: map<Name, seq<Row>>, n: Name, rows: seq<Row>)
    requires Markers(p, staged) && n !in staged
    ensures Markers(p.(segments := p.segments[n := rows]), staged[n := rows])
  {
    var p', staged' := p.(segments := p.segments[n := rows]), staged[n := rows];
    SameVisible(p, p');
    hide Covered;
    forall k | k in p'.markers
      ensures GoodMarker(p', staged', k)
    {
      assert GoodMarker(p, staged, k);
      RowsSame(staged, staged', k.segments);
    }
  }

  lemma StageKeepsCompacting(p: Partition, staged: map<Name, seq<Row>>, n: Name, rows: seq<Row>)
    requires Compacting(p, staged) && n !in staged
    ensures Compacting(p.(segments := p.segments[n := rows]), staged[n := rows])
  {
    if p.compaction.Some? {
      RowsSame(staged, staged[n := rows], Origins(p.compaction.value.sources));
    }
  }

  lemma MarkerKeepsInv(p: Partition, staged: map<Name, seq<Row>>, batch: seq<Name>)
    requires Inv(p, staged) && Allowed(p, staged, WriteMarker(batch))
    ensures Inv(Apply(p, WriteMarker(batch)), staged)
  {
    var p', k := Apply(p, WriteMarker(batch)), Part(batch);
    RowsSame(p.segments, staged, batch);
    SameVisible(p, p');
    hide RowsAt;
    BatchUncovered(p, staged, batch);
    assert GoodMarker(p', staged, k) by {
      hide Visible, Covered, Contents, Disjoint, Pending, Complete, Compacting;
      assert p'.markers == map[k := Transaction(batch, k, |RowsAt(staged, batch)|)];
    }
    hide GoodMarker, Visible, Covered, Allowed;
    assert Disjoint(p') && Pending(p') && Complete(p', staged) && Contents(p', staged) && Compacting(p', staged);
  }

  /** The segments of a file that is there, or that is being compacted, are covered. */
  lemma FileCovers(p: Partition, staged: map<Name, seq<Row>>, f: FileName, n: Name)
    requires Compacting(p, staged) && n in Origin(f)
    requires f in p.files || (p.compaction.Some? && f in p.compaction.value.sources)
    ensures Covered(p, n)
  {
    if p.compaction.Some? && f in p.compaction.value.sources && p.compaction.value.output in p.files {
      var tx := p.compaction.value;
      OriginsMember(tx.sources, n);
      NotItsOwnSource(tx.sources);
      assert Visible(p, tx.output) && n in Origin(tx.output);
    } else {
      assert Visible(p, f);
    }
  }

  /** With no marker, a pending segment is in no file, not even one that has been compacted. */
  lemma BatchUncovered(p: Partition, staged: map<Name, seq<Row>>, batch: seq<Name>)
    requires Pending(p) && Compacting(p, staged) && p.markers == map[] && batch != [] && AllIn(p.segments, batch)
    ensures forall n :: n in batch ==> !Covered(p, n)
    ensures Part(batch) !in p.files
    ensures p.compaction.Some? ==> Part(batch) !in p.compaction.value.sources
  {
    assert forall n :: n in batch ==> !Covered(p, n);
    assert batch[0] in batch && !Covered(p, batch[0]);
    hide Covered, Visible, Pending;
    if Part(batch) in p.files || (p.compaction.Some? && Part(batch) in p.compaction.value.sources) {
      FileCovers(p, staged, Part(batch), batch[0]);
      assert false;
    }
  }

  /** Adding a file that no compaction waits for makes just that file visible. */
  lemma AddedVisible(p: Partition, f: FileName, rows: seq<Row>)
    requires p.compaction.Some? ==> f !in p.compaction.value.sources && f != p.compaction.value.output
    ensures var p' := p.(files := p.files[f := rows]);
            && (forall g :: Visible(p', g) <==> g == f || Visible(p, g))
            && (forall n :: Covered(p', n) <==> n in Origin(f) || Covered(p, n))
  {
    var p' := p.(files := p.files[f := rows]);
    assert forall g :: Visible(p', g) <==> g == f || Visible(p, g);
    hide Visible;
    forall n
      ensures Covered(p', n) <==> n in Origin(f) || Covered(p, n)
    {
      if n in Origin(f) {
        assert Visible(p', f);
      } else if Covered(p', n) {
        var g :| Visible(p', g) && n in Origin(g);
        assert Visible(p, g);
      }
    }
  }

  /** A file made of segments that are in no file yet. */
  lemma AddedKeepsDisjoint(p: Partition, f: FileName, rows: seq<Row>)
    requires Disjoint(p) && NoDup(Origin(f))
    requires p.compaction.Some? ==> f !in p.compaction.value.sources && f != p.compaction.value.output
    requires forall n :: n in Origin(f) ==> !Covered(p, n)
    ensures Disjoint(p.(files := p.files[f := rows]))
  {
    var p' := p.(files := p.files[f := rows]);
    AddedVisible(p, f, rows);
    forall g | Visible(p, g)
      ensures Apart(Origin(f), Origin(g)) && Apart(Origin(g), Origin(f))
    {
    }
    hide Visible, Covered, Origin, Apart;
  }

  /** A marker whose output is not valid has no output, and its sources are pending and uncovered. */
  lemma InvalidMeansAbsent(p: Partition, staged: map<Name, seq<Row>>, k: FileName)
    requires Contents(p, staged) && Markers(p, staged) && k in p.markers
    ensures GoodMarker(p, staged, k) && p.markers[k].Transaction?
    ensures OutputValid(p, p.markers[k]) <==> k in p.files
    ensures AllIn(p.segments, p.markers[k].sources) || OutputValid(p, p.markers[k])
  {
    assert GoodMarker(p, staged, k);
    hide RowsAt, Covered;
  }

  lemma OutputKeepsInv(p: Partition, staged: map<Name, seq<Row>>, batch: seq<Name>)
    requires Inv(p, staged) && Allowed(p, staged, WriteOutput(batch))
    ensures Inv(Apply(p, WriteOutput(batch)), staged)
  {
    var k, p' := Part(batch), Apply(p, WriteOutput(batch));
    InvalidMeansAbsent(p, staged, k);
    RowsSame(p.segments, staged, batch);
    hide RowsAt;
    assert Origin(k) == batch;
    assert Contents(p', staged) && Compacting(p', staged);
    AddedVisible(p, k, RowsAt(p.segments, batch));
    AddedKeepsDisjoint(p, k, RowsAt(p.segments, batch));
    hide Visible, Covered, Contents, Disjoint, Compacting, Allowed, OutputValid, Origin;
    assert Pending(p');
    assert Complete(p', staged);
    assert GoodMarker(p', staged, k);
    assert Markers(p', staged);
  }

  lemma UnlinkSegmentKeepsInv(p: Partition, staged: map<Name, seq<Row>>, k: FileName, n: Name)
    requires Inv(p, staged) && Allowed(p, staged, UnlinkSegment(k, n))
    ensures Inv(Apply(p, UnlinkSegment(k, n)), staged)
  {
    var p' := Apply(p, UnlinkSegment(k, n));
    InvalidMeansAbsent(p, staged, k);
    FileCovers(p, staged, k, n);
    assert k in p.files;
    SegmentsShrink(p, staged, n);
    hide Visible, Covered, RowsAt, Contents, Disjoint, Compacting, Pending, Complete, Allowed;
    assert GoodMarker(p', staged, k);
  }

  /** A covered segment can go, as far as all but the markers are concerned. */
  lemma SegmentsShrink(p: Partition, staged: map<Name, seq<Row>>, n: Name)
    requires Inv(p, staged) && Covered(p, n)
    ensures var p' := p.(segments := p.segments - {n});
            && Contents(p', staged) && Disjoint(p') && Compacting(p', staged) && Pending(p') && Complete(p', staged)
  {
    var p' := p.(segments := p.segments - {n});
    hide Contents, Disjoint, Compacting, Pending, Complete, Markers, Visible, Covered, RowsAt;
    SameVisible(p, p');
    ShrunkContents(p, staged, n);
    ShrunkPlaces(p, p', staged, n);
  }

  lemma ShrunkContents(p: Partition, staged: map<Name, seq<Row>>, n: Name)
    requires Contents(p, staged) && Compacting(p, staged)
    ensures Contents(p.(segments := p.segments - {n}), staged) && Compacting(p.(segments := p.segments - {n}), staged)
  {
    hide RowsAt, Origin, Origins;
  }

  lemma ShrunkPlaces(p: Partition, p': Partition, staged: map<Name, seq<Row>>, n: Name)
    requires Disjoint(p) && Pending(p) && Complete(p, staged) && Covered(p, n) && p' == p.(segments := p.segments - {n})
    requires forall f :: Visible(p', f) <==> Visible(p, f)
    requires forall m :: Covered(p', m) <==> Covered(p, m)
    ensures Disjoint(p') && Pending(p') && Complete(p', staged)
  {
    hide Visible, Covered, Origin;
  }

  /** A marker can go once its sources are gone, or as long as its output is not there. */
  lemma DropMarkerKeepsInv(p: Partition, staged: map<Name, seq<Row>>, k: FileName)
    requires Inv(p, staged) && (Allowed(p, staged, FinishMarker(k)) || Allowed(p, staged, DiscardMarker(k)))
    ensures Inv(p.(markers := p.markers - {k}), staged)
  {
    NothingHalfDone(p, staged, k);
    assert p.markers - {k} == map[];
    hide GoodMarker, OutputValid, Allowed;
    NoMarkersKeepsInv(p, staged);
  }

  lemma NothingHalfDone(p: Partition, staged: map<Name, seq<Row>>, k: FileName)
    requires Contents(p, staged) && Markers(p, staged) && Pending(p)
    requires Allowed(p, staged, FinishMarker(k)) || Allowed(p, staged, DiscardMarker(k))
    ensures forall n, f :: n in p.segments && Visible(p, f) ==> n !in Origin(f)
  {
    InvalidMeansAbsent(p, staged, k);
    hide Covered, RowsAt;
    forall n, f | n in p.segments && Visible(p, f)
      ensures n !in Origin(f)
    {
    }
  }

  /** A change that leaves visibility, segments and markers alone keeps what is said about them. */
  lemma SameCovering(p: Partition, p': Partition, staged: map<Name, seq<Row>>)
    requires Disjoint(p) && Pending(p) && Complete(p, staged) && Markers(p, staged)
    requires p'.segments == p.segments && p'.markers == p.markers
    requires forall f :: Visible(p', f) <==> Visible(p, f)
    requires forall n :: Covered(p', n) <==> Covered(p, n)
    requires forall k :: k in p.markers ==>
                           && (k in p'.files <==> k in p.files)
                           && (p'.compaction.Some? ==> k !in p'.compaction.value.sources)
    ensures Disjoint(p') && Pending(p') && Complete(p', staged) && Markers(p', staged)
  {
    hide Visible, Covered, RowsAt;
    forall k | k in p'.markers
      ensures GoodMarker(p', staged, k)
    {
      assert GoodMarker(p, staged, k);
    }
  }

  lemma CoveredByVisible(p: Partition, p': Partition)
    requires forall f :: Visible(p', f) <==> Visible(p, f)
    ensures forall n :: Covered(p', n) <==> Covered(p, n)
  {
    hide Visible, Origin;
  }

  lemma NoMarkersKeepsInv(p: Partition, staged: map<Name, seq<Row>>)
    requires Inv(p, staged)
    requires forall n, f :: n in p.segments && Visible(p, f) ==> n !in Origin(f)
    ensures Inv(p.(markers := map[]), staged)
  {
    hide Contents, Disjoint, Compacting, Complete, Visible, Covered, RowsAt;
    SameVisible(p, p.(markers := map[]));
    hide Markers, Pending;
    NoMarkersContents(p, staged);
    NoMarkersPlaces(p, p.(markers := map[]), staged);
  }

  lemma NoMarkersContents(p: Partition, staged: map<Name, seq<Row>>)
    requires Contents(p, staged) && Compacting(p, staged)
    ensures Contents(p.(markers := map[]), staged) && Compacting(p.(markers := map[]), staged)
  {
    hide RowsAt, Origin, Origins;
  }

  lemma NoMarkersPlaces(p: Partition, p': Partition, staged: map<Name, seq<Row>>)
    requires Disjoint(p) && Complete(p, staged) && p' == p.(markers := map[])
    requires forall n, f :: n in p.segments && Visible(p, f) ==> n !in Origin(f)
    requires forall f :: Visible(p', f) <==> Visible(p, f)
    requires forall m :: Covered(p', m) <==> Covered(p, m)
    ensures Disjoint(p') && Pending(p') && Complete(p', staged) && Markers(p', staged)
  {
    hide Visible, Covered, Origin, RowsAt;
  }

  lemma BlankVisible(p: Partition, staged: map<Name, seq<Row>>)
    requires Allowed(p, staged, WriteBlank) && Compacting(p, staged)
    ensures var p' := Apply(p, WriteBlank);
            && (forall f :: Visible(p', f) ==> f == Blank || Visible(p, f))
            && (forall f :: Visible(p, f) ==> Visible(p', f))
            && (forall n :: Covered(p', n) <==> Covered(p, n))
  {
    var p' := Apply(p, WriteBlank);
    assert forall f :: Visible(p', f) ==> f == Blank || Visible(p, f);
    assert forall f :: Visible(p, f) ==> Visible(p', f);
    assert Origin(Blank) == [];
    hide Visible, Origin;
    forall n
      ensures Covered(p', n) <==> Covered(p, n)
    {
      if Covered(p', n) {
        var f :| Visible(p', f) && n in Origin(f);
        assert Visible(p, f);
      }
    }
  }

  lemma BlankContents(p: Partition, staged: map<Name, seq<Row>>)
    requires Contents(p, staged) && Compacting(p, staged)
    ensures Contents(Apply(p, WriteBlank), staged) && Compacting(Apply(p, WriteBlank), staged)
  {
    NoRows(staged);
    assert Origin(Blank) == [];
    hide RowsAt, Origin, Origins;
  }

  lemma BlankKeepsInv(p: Partition, staged: map<Name, seq<Row>>)
    requires Inv(p, staged) && Allowed(p, staged, WriteBlank)
    ensures Inv(Apply(p, WriteBlank), staged)
  {
    hide Contents, Compacting, RowsAt, Visible, Covered, Disjoint, Pending, Complete, Markers;
    BlankVisible(p, staged);
    BlankContents(p, staged);
    hide Allowed;
    BlankKeepsOrigins(p, Apply(p, WriteBlank), staged);
    BlankKeepsMarkers(p, Apply(p, WriteBlank), staged);
  }

  /** One more visible file made from nothing. */
  lemma BlankKeepsOrigins(p: Partition, p': Partition, staged: map<Name, seq<Row>>)
    requires Disjoint(p) && Pending(p) && Complete(p, staged)
    requires p'.segments == p.segments && p'.markers == p.markers
    requires forall f :: Visible(p', f) ==> f == Blank || Visible(p, f)
    requires forall n :: Covered(p', n) <==> Covered(p, n)
    ensures Disjoint(p') && Pending(p') && Complete(p', staged)
  {
    assert Origin(Blank) == [];
    hide Visible, Covered, Origin;
  }

  lemma BlankKeepsMarkers(p: Partition, p': Partition, staged: map<Name, seq<Row>>)
    requires Markers(p, staged) && p' == p.(files := p'.files)
    requires forall f :: f in p'.files <==> f in p.files || f == Blank
    requires forall n :: Covered(p', n) <==> Covered(p, n)
    ensures Markers(p', staged)
  {
    hide Covered, RowsAt;
    forall k | k in p'.markers
      ensures GoodMarker(p', staged, k)
    {
      assert GoodMarker(p, staged, k);
    }
  }

  lemma VisibleNoDup(p: Partition, fs: seq<FileName>)
    requires Disjoint(p) && NoDup(fs) && forall f :: f in fs ==> Visible(p, f)
    ensures NoDup(Origins(fs))
  {
    hide Visible, Origin, Origins;
    OriginsNoDup(fs);
  }

  /** Nothing is superseded when a compaction starts: its output cannot be among its sources. */
  lemma StartVisible(p: Partition, staged: map<Name, seq<Row>>, sources: seq<FileName>)
    requires Allowed(p, staged, StartCompaction(sources))
    ensures forall f :: Visible(Apply(p, StartCompaction(sources)), f) <==> Visible(p, f)
    ensures forall f :: f in sources ==> Visible(p, f)
  {
    NotItsOwnSource(sources);
  }

  lemma StartKeepsInv(p: Partition, staged: map<Name, seq<Row>>, sources: seq<FileName>)
    requires Inv(p, staged) && Allowed(p, staged, StartCompaction(sources))
    ensures Inv(Apply(p, StartCompaction(sources)), staged)
  {
    var p' := Apply(p, StartCompaction(sources));
    hide Disjoint, Pending, Complete, Compacting, Visible, Covered, Contents, RowsAt, Origin, Origins;
    StartVisible(p, staged, sources);
    CoveredByVisible(p, p');
    SameCovering(p, p', staged);
    VisibleNoDup(p, sources);
    hide Markers;
    FileRows(p, staged, sources);
    StartMakes(p, staged, sources);
  }

  lemma StartMakes(p: Partition, staged: map<Name, seq<Row>>, sources: seq<FileName>)
    requires Contents(p, staged) && AllIn(p.files, sources) && NoDup(sources) && NoDup(Origins(sources))
    requires AllIn(staged, Origins(sources)) && RowsAt(p.files, sources) == RowsAt(staged, Origins(sources))
    ensures Contents(Apply(p, StartCompaction(sources)), staged)
    ensures Compacting(Apply(p, StartCompaction(sources)), staged)
  {
    hide RowsAt, Origin, Origins, NoDup;
  }

  /** A compaction whose output is not valid has no output, and none of its sources is gone. */
  lemma InvalidCompaction(p: Partition, staged: map<Name, seq<Row>>)
    requires Contents(p, staged) && Compacting(p, staged) && p.compaction.Some?
    ensures var tx := p.compaction.value;
            && (CompactionValid(p, tx) <==> tx.output in p.files)
            && (CompactionValid(p, tx) || AllIn(p.files, tx.sources))
  {
    var tx := p.compaction.value;
    assert Origin(tx.output) == Origins(tx.sources);
    hide RowsAt, Origin, Origins;
  }

  /** Once the output is there, it is visible in place of its sources, and covers the same segments. */
  lemma CompactedVisible(p: Partition, staged: map<Name, seq<Row>>, rows: seq<Row>)
    requires Compacting(p, staged) && p.compaction.Some? && p.compaction.value.output !in p.files
    ensures var tx := p.compaction.value;
            var p' := p.(files := p.files[tx.output := rows]);
            && (forall g :: Visible(p', g) <==> g == tx.output || (Visible(p, g) && g !in tx.sources))
            && (forall n :: Covered(p', n) <==> Covered(p, n))
  {
    var tx := p.compaction.value;
    var p' := p.(files := p.files[tx.output := rows]);
    NotItsOwnSource(tx.sources);
    assert forall g :: Visible(p', g) <==> g == tx.output || (Visible(p, g) && g !in tx.sources);
    assert Origin(tx.output) == Origins(tx.sources);
    assert forall f :: f in tx.sources ==> Visible(p, f);
    hide Visible, Origin, Origins;
    forall n
      ensures Covered(p', n) <==> Covered(p, n)
    {
      OriginsMember(tx.sources, n);
      if Covered(p, n) {
        var f :| Visible(p, f) && n in Origin(f);
        assert Visible(p', if f in tx.sources then tx.output else f);
      }
    }
  }

  lemma CompactedDisjoint(p: Partition, staged: map<Name, seq<Row>>, rows: seq<Row>)
    requires Compacting(p, staged) && Disjoint(p) && p.compaction.Some? && p.compaction.value.output !in p.files
    ensures Disjoint(p.(files := p.files[p.compaction.value.output := rows]))
  {
    var tx := p.compaction.value;
    CompactedVisible(p, staged, rows);
    assert Origin(tx.output) == Origins(tx.sources);
    assert forall f :: f in tx.sources ==> Visible(p, f);
    hide Visible, Origin, Origins;
    forall g | Visible(p, g) && g !in tx.sources
      ensures Apart(Origin(tx.output), Origin(g)) && Apart(Origin(g), Origin(tx.output))
    {
      forall n | n in Origin(g)
        ensures n !in Origins(tx.sources)
      {
        OriginsMember(tx.sources, n);
      }
    }
  }

  lemma CompactedContents(p: Partition, staged: map<Name, seq<Row>>)
    requires Contents(p, staged) && Compacting(p, staged) && p.compaction.Some?
    requires AllIn(p.files, p.compaction.value.sources)
    ensures Contents(Apply(p, WriteCompacted), staged) && Compacting(Apply(p, WriteCompacted), staged)
  {
    var tx := p.compaction.value;
    FileRows(p, staged, tx.sources);
    assert Origin(tx.output) == Origins(tx.sources);
    hide RowsAt, Origin, Origins;
  }

  lemma CompactedKeepsComplete(p: Partition, staged: map<Name, seq<Row>>, rows: seq<Row>)
    requires Compacting(p, staged) && Complete(p, staged)
    requires p.compaction.Some? && p.compaction.value.output !in p.files
    ensures Complete(p.(files := p.files[p.compaction.value.output := rows]), staged)
  {
    CompactedVisible(p, staged, rows);
    hide Visible, Covered, Compacting;
  }

  lemma CompactedKeepsInv(p: Partition, staged: map<Name, seq<Row>>)
    requires Inv(p, staged) && Allowed(p, staged, WriteCompacted)
    ensures Inv(Apply(p, WriteCompacted), staged)
  {
    hide Contents, Compacting, Disjoint, Complete, Pending, Markers, RowsAt;
    var rows := RowsAt(p.files, p.compaction.value.sources);
    InvalidCompaction(p, staged);
    hide CompactionValid;
    CompactedContents(p, staged);
    CompactedDisjoint(p, staged, rows);
    CompactedKeepsPending(p, staged, rows);
    CompactedKeepsComplete(p, staged, rows);
    CompactedKeepsMarkers(p, staged, rows);
  }

  lemma CompactedKeepsMarkers(p: Partition, staged: map<Name, seq<Row>>, rows: seq<Row>)
    requires Compacting(p, staged) && Markers(p, staged)
    requires p.compaction.Some? && p.compaction.value.output !in p.files
    ensures Markers(p.(files := p.files[p.compaction.value.output := rows]), staged)
  {
    var p' := p.(files := p.files[p.compaction.value.output := rows]);
    CompactedVisible(p, staged, rows);
    hide Visible, Covered, RowsAt, Origins;
    forall k | k in p'.markers
      ensures GoodMarker(p', staged, k)
    {
      assert GoodMarker(p, staged, k);
    }
  }

  /** A segment that is still being committed is in none of the files being compacted. */
  lemma CompactedKeepsPending(p: Partition, staged: map<Name, seq<Row>>, rows: seq<Row>)
    requires Compacting(p, staged) && Pending(p) && Markers(p, staged)
    requires p.compaction.Some? && p.compaction.value.output !in p.files
    ensures Pending(p.(files := p.files[p.compaction.value.output := rows]))
  {
    var tx := p.compaction.value;
    CompactedVisible(p, staged, rows);
    assert Origin(tx.output) == Origins(tx.sources);
    assert forall f :: f in tx.sources ==> Visible(p, f);
    hide Visible, Covered, Origin, Origins, RowsAt;
    forall n | n in p.segments && n in Origin(tx.output)
      ensures false
    {
      OriginsMember(tx.sources, n);
    }
  }

  lemma UnlinkVisible(p: Partition, staged: map<Name, seq<Row>>, f: FileName)
    requires Allowed(p, staged, UnlinkFile(f))
    ensures forall g :: Visible(p.(files := p.files - {f}), g) <==> Visible(p, g)
  {
  }

  lemma UnlinkKeepsContents(p: Partition, staged: map<Name, seq<Row>>, f: FileName)
    requires Contents(p, staged) && Compacting(p, staged) && Allowed(p, staged, UnlinkFile(f))
    ensures Contents(p.(files := p.files - {f}), staged) && Compacting(p.(files := p.files - {f}), staged)
  {
    hide RowsAt, Origin, Origins;
  }

  lemma MarkersOutsideCompaction(p: Partition, staged: map<Name, seq<Row>>)
    requires Markers(p, staged)
    ensures forall k :: k in p.markers && p.compaction.Some? ==> k !in p.compaction.value.sources
  {
    forall k | k in p.markers && p.compaction.Some?
      ensures k !in p.compaction.value.sources
    {
      assert GoodMarker(p, staged, k);
    }
  }

  lemma UnlinkFileKeepsInv(p: Partition, staged: map<Name, seq<Row>>, f: FileName)
    requires Inv(p, staged) && Allowed(p, staged, UnlinkFile(f))
    ensures Inv(Apply(p, UnlinkFile(f)), staged)
  {
    hide Contents, Compacting, Disjoint, Complete, Pending, Markers, Visible, Covered;
    UnlinkVisible(p, staged, f);
    CoveredByVisible(p, p.(files := p.files - {f}));
    UnlinkKeepsContents(p, staged, f);
    MarkersOutsideCompaction(p, staged);
    SameCovering(p, p.(files := p.files - {f}), staged);
  }

  lemma FinishVisible(p: Partition, staged: map<Name, seq<Row>>)
    requires Allowed(p, staged, FinishCompaction) && Compacting(p, staged)
    ensures forall g :: Visible(p.(compaction := None), g) <==> Visible(p, g)
  {
    NotItsOwnSource(p.compaction.value.sources);
  }

  lemma FinishKeepsContents(p: Partition, staged: map<Name, seq<Row>>)
    requires Contents(p, staged)
    ensures Contents(p.(compaction := None), staged) && Compacting(p.(compaction := None), staged)
  {
    hide RowsAt, Origin;
  }

  lemma FinishCompactionKeepsInv(p: Partition, staged: map<Name, seq<Row>>)
    requires Inv(p, staged) && Allowed(p, staged, FinishCompaction)
    ensures Inv(Apply(p, FinishCompaction), staged)
  {
    hide Contents, Compacting, Disjoint, Complete, Pending, Markers, Visible, Covered;
    FinishVisible(p, staged);
    CoveredByVisible(p, p.(compaction := None));
    FinishKeepsContents(p, staged);
    SameCovering(p, p.(compaction := None), staged);
  }

  lemma StepKeepsInv(p: Partition, staged: map<Name, seq<Row>>, step: Step)
    requires Inv(p, staged) && Allowed(p, staged, step)
    ensures Applicable(p, step)
    ensures Inv(Apply(p, step), StagedAfter(staged, step))
  {
    hide Inv;
    match step
    case Stage(n, rows) => StageKeepsInv(p, staged, n, rows);
    case WriteMarker(batch) => MarkerKeepsInv(p, staged, batch);
    case WriteOutput(batch) => OutputKeepsInv(p, staged, batch);
    case UnlinkSegment(k, n) => UnlinkSegmentKeepsInv(p, staged, k, n);
    case FinishMarker(k) => DropMarkerKeepsInv(p, staged, k);
    case DiscardMarker(k) => DropMarkerKeepsInv(p, staged, k);
    case WriteBlank => BlankKeepsInv(p, staged);
    case StartCompaction(sources) => StartKeepsInv(p, staged, sources);
    case WriteCompacted => CompactedKeepsInv(p, staged);
    case UnlinkFile(f) => UnlinkFileKeepsInv(p, staged, f);
    case FinishCompaction => FinishCompactionKeepsInv(p, staged);
  }

  /******* Runs *******/

  /** Any interleaving of allowed steps: staging may happen between any two writes of a commit, and
      a crash is a run that stops. */
  ghost predicate Runs(p: Partition, staged: map<Name, seq<Row>>, steps: seq<Step>, p': Partition,
                       staged': map<Name, seq<Row>>)
    decreases |steps|
  {
    if steps == [] then p == p' && staged == staged' else
    && Allowed(p, staged, steps[0]) && Applicable(p, steps[0])
    && Runs(Apply(p, steps[0]), StagedAfter(staged, steps[0]), steps[1..], p', staged')
  }

  lemma {:induction false} RunKeepsInv(p: Partition, staged: map<Name, seq<Row>>, steps: seq<Step>,
                                       p': Partition, staged': map<Name, seq<Row>>)
    requires Inv(p, staged) && Runs(p, staged, steps, p', staged')
    ensures Inv(p', staged')
    decreases |steps|
  {
    hide Inv, Allowed, Apply;
    if steps != [] {
      StepKeepsInv(p, staged, steps[0]);
      RunKeepsInv(Apply(p, steps[0]), StagedAfter(staged, steps[0]), steps[1..], p', staged');
    }
  }

  lemma EmptyInv()
    ensures Inv(NO_FILES, map[])
  {
    assert forall n :: !Covered(NO_FILES, n);
  }

  /** From an empty partition, after any run at all, every staged segment is in exactly one place
      and the rows in the visible files and the uncovered segments are the rows staged. */
  lemma ExactlyOnce(steps: seq<Step>, p: Partition, staged: map<Name, seq<Row>>,
                    fs: seq<FileName>, pending: seq<Name>, all: seq<Name>)
    requires Runs(NO_FILES, map[], steps, p, staged)
    requires Lists(all, staged.Keys) && NoDup(fs) && NoDup(pending)
    requires forall f :: f in fs <==> Visible(p, f)
    requires forall n :: n in pending <==> n in p.segments && !Covered(p, n)
    ensures forall n :: n in staged ==>
              && (n in p.segments || Covered(p, n))
              && forall f, g :: Visible(p, f) && Visible(p, g) && n in Origin(f) && n in Origin(g) ==> f == g
    ensures AllIn(p.files, fs) && AllIn(p.segments, pending) && AllIn(staged, all)
    ensures multiset(RowsAt(p.files, fs)) + multiset(RowsAt(p.segments, pending)) == multiset(RowsAt(staged, all))
    ensures forall k, l :: k in p.markers && l in p.markers ==> k == l
  {
    EmptyInv();
    RunKeepsInv(NO_FILES, map[], steps, p, staged);
    hide RowsAt, Visible, Covered, Runs;
    Conservation(p, staged, fs, pending, all);
    forall n | n in staged
      ensures n in p.segments || Covered(p, n)
      ensures forall f, g :: Visible(p, f) && Visible(p, g) && n in Origin(f) && n in Origin(g) ==> f == g
    {
      hide Inv, Origin;
      ExactlyOnePlace(p, staged, n);
    }
  }
}
