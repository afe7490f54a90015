/** Compaction of a closed partition into one file, restartable from any point. */
module ParquetCompact {
  import opened Common
  import opened PartitionState
  import opened PartitionSteps
  import opened ParquetStore

  /** `Incomplete` is a transaction with sources missing and no valid output; `Interrupted` is a call
      that raised or died part way. */
  datatype Outcome = Skipped | Done(output: FileName) | Incomplete | Interrupted

  /** The transaction a call works on: the one it finds, or the one it would write. */
  function Transaction(p: Partition, found: seq<FileName>): Compaction
    requires AllIn(p.files, found)
  {
    if p.compaction.Some? then p.compaction.value
    else Compaction(found, Compacted(found), |RowsAt(p.files, found)|)
  }

  /** Removes the sources that are still there, then the transaction. */
  method CleanSources(dir: PartitionDir, luck: Luck, done: nat) returns (ok: bool)
    requires dir.Valid() && dir.compaction.Some? && CompactionValid(dir.View(), dir.compaction.value)
    requires dir.compaction.value.output !in dir.compaction.value.sources
    modifies dir
    ensures dir.Valid() && dir.NothingReturns() && dir.markers == old(dir.markers)
    ensures ok <==> luck.writes > done + |old(dir.compaction).value.sources|
    ensures dir.compaction == if ok then None else old(dir.compaction)
    ensures ok ==> forall f :: f in old(dir.compaction).value.sources ==> f !in dir.files
    ensures forall f :: f !in old(dir.compaction).value.sources ==> SameEntry(old(dir.files), dir.files, f)
  {
    hide Inv, Runs, RowsAt;
    ok := false;
    var tx := dir.compaction.value;
    for i := 0 to |tx.sources|
      invariant dir.Valid() && dir.NothingReturns() && dir.markers == old(dir.markers)
      invariant dir.compaction == old(dir.compaction)
      invariant forall j :: 0 <= j < i ==> tx.sources[j] !in dir.files
      invariant forall f :: f !in tx.sources ==> SameEntry(old(dir.files), dir.files, f)
    {
      if luck.writes <= done + i {
        return;
      }
      dir.Perform(UnlinkFile(tx.sources[i]));
      dir.Arrive(luck.arrivals(done + i + 1));
    }
    if luck.writes <= done + |tx.sources| {
      return;
    }
    dir.Perform(FinishCompaction);
    ok := true;
  }

  lemma ReachableCompaction(p: Partition, staged: map<Name, seq<Row>>)
    requires Inv(p, staged) && p.compaction.Some?
    ensures p.compaction.value.output !in p.compaction.value.sources
    ensures CompactionValid(p, p.compaction.value) || AllIn(p.files, p.compaction.value.sources)
    ensures AllIn(p.files, p.compaction.value.sources) ==>
              |RowsAt(p.files, p.compaction.value.sources)| == p.compaction.value.expectedRows
  {
    InvalidCompaction(p, staged);
    NotItsOwnSource(p.compaction.value.sources);
    if AllIn(p.files, p.compaction.value.sources) {
      FileRows(p, staged, p.compaction.value.sources);
    }
  }

  /** Writes the output unless a valid one is there; `refused` when sources are missing without one. */
  method WriteIfNeeded(dir: PartitionDir, luck: Luck, done: nat) returns (refused: bool, ok: bool, done': nat)
    requires dir.Valid() && dir.compaction.Some?
    modifies dir
    ensures dir.Valid() && dir.NothingReturns()
    ensures dir.markers == old(dir.markers) && dir.compaction == old(dir.compaction)
    ensures !refused
    ensures done' <= done + 1 && (luck.writes > done ==> ok)
    ensures dir.compaction.value.output !in dir.compaction.value.sources
    ensures ok ==> CompactionValid(dir.View(), dir.compaction.value)
    ensures forall f :: f != dir.compaction.value.output ==> SameEntry(old(dir.files), dir.files, f)
    ensures !ok ==> dir.files == old(dir.files)
  {
    hide Inv, Runs, RowsAt;
    ReachableCompaction(dir.View(), dir.staged);
    refused, ok, done' := false, true, done;
    var tx := dir.compaction.value;
    if !(tx.output in dir.files && |dir.files[tx.output]| == tx.expectedRows) {
      if exists f :: f in tx.sources && f !in dir.files {
        return true, false, done;
      }
      if luck.writes <= done {
        return false, false, done;
      }
      dir.Perform(WriteCompacted);
      done' := done + 1;
      dir.Arrive(luck.arrivals(done'));
    }
  }

  /** Finds the transaction or writes a new one over all the files there are. */
  method FindOrStart(dir: PartitionDir, found: seq<FileName>, luck: Luck) returns (ok: bool, done: nat)
    requires dir.Valid() && Lists(found, dir.files.Keys) && dir.segments == map[] && dir.markers == map[]
    modifies dir
    ensures dir.Valid() && dir.NothingReturns() && dir.markers == old(dir.markers) && dir.files == old(dir.files)
    ensures done <= 1 && (luck.writes > 0 ==> ok)
    ensures ok ==> dir.compaction == Some(Transaction(old(dir.View()), found))
    ensures !ok ==> dir.View() == old(dir.View())
  {
    hide Inv, Runs, RowsAt;
    ok, done := true, 0;
    if dir.compaction.None? {
      if luck.writes == 0 {
        return false, 0;
      }
      dir.Perform(StartCompaction(found));
      done := 1;
      dir.Arrive(luck.arrivals(1));
    }
  }

  /** What a call may leave of the files: everything outside the transaction as it was, and, unless the
      valid output is there, every source as it was. */
  ghost predicate OnlyTransaction(before: map<FileName, seq<Row>>, after: map<FileName, seq<Row>>, tx: Compaction) {
    && (forall f :: f !in tx.sources && f != tx.output ==> SameEntry(before, after, f))
    && (tx.output !in after ==> forall f :: f in tx.sources ==> SameEntry(before, after, f))
  }

  /** `found` is the sorted listing of the Parquet files. Checking that the spool is empty, listing and
      writing the transaction happen without staging in between: the day is closed. */
  method CompactPartition(dir: PartitionDir, found: seq<FileName>, minFiles: nat, luck: Luck) returns (outcome: Outcome)
    requires dir.Valid() && Lists(found, dir.files.Keys)
    modifies dir
    ensures dir.Valid() && dir.NothingReturns() && dir.markers == old(dir.markers)
    ensures outcome.Skipped? <==>
            old(dir.segments) != map[] || old(dir.markers) != map[] || (old(dir.compaction).None? && |found| < minFiles)
    ensures outcome.Skipped? ==> dir.View() == old(dir.View())
    ensures !outcome.Incomplete?
    ensures !outcome.Skipped? && luck.writes > |Transaction(old(dir.View()), found).sources| + 2 ==> outcome.Done?
    ensures OnlyTransaction(old(dir.files), dir.files, Transaction(old(dir.View()), found))
    ensures var tx := Transaction(old(dir.View()), found);
            outcome.Done? ==>
              && outcome.output == tx.output && dir.compaction.None? && CompactionValid(dir.View(), tx)
              && forall f :: f in tx.sources ==> f !in dir.files
    ensures outcome.Interrupted? ==>
              dir.compaction == Some(Transaction(old(dir.View()), found)) || dir.View() == old(dir.View())
  {
    hide Inv, Runs, RowsAt;
    if dir.segments != map[] || dir.markers != map[] {
      return Skipped;
    }
    if dir.compaction.None? && |found| < minFiles {
      return Skipped;
    }
    ghost var tx := Transaction(dir.View(), found);
    var ok, done := FindOrStart(dir, found, luck);
    if !ok {
      return Interrupted;
    }
    assert dir.compaction == Some(tx);
    hide Transaction, Lists;
    var refused;
    refused, ok, done := WriteIfNeeded(dir, luck, done);
    if refused {
      return Incomplete;
    }
    if !ok {
      return Interrupted;
    }
    var output := dir.compaction.value.output;
    ghost var complete := dir.files;
    ok := CleanSources(dir, luck, done);
    forall f | f !in tx.sources
      ensures f in complete <==> f in dir.files
      ensures f != output ==> SameEntry(old(dir.files), dir.files, f)
    {
      assert SameEntry(complete, dir.files, f);
      assert f != output ==> SameEntry(old(dir.files), complete, f);
    }
    outcome := if ok then Done(output) else Interrupted;
  }

  /** Two moments of one partition with nothing pending and no compaction open, nothing having been staged
      in between: the files hold the same rows, with multiplicity. So a compaction keeps them. */
  lemma CompactionKeepsRows(before: Partition, after: Partition, staged: map<Name, seq<Row>>,
                            filesBefore: seq<FileName>, filesAfter: seq<FileName>)
    requires Inv(before, staged) && before.segments == map[] && before.compaction.None?
    requires Inv(after, staged) && after.segments == map[] && after.compaction.None?
    requires Lists(filesBefore, before.files.Keys) && Lists(filesAfter, after.files.Keys)
    ensures AllIn(before.files, filesBefore) && AllIn(after.files, filesAfter)
    ensures multiset(RowsAt(before.files, filesBefore)) == multiset(RowsAt(after.files, filesAfter))
  {
    ghost var all := Listing(staged.Keys);
    hide Inv, RowsAt;
    Drained(before, staged, filesBefore, all);
    Drained(after, staged, filesAfter, all);
  }

  ghost function Listing(pool: set<Name>): (s: seq<Name>)
    ensures Lists(s, pool)
  {
    if pool == {} then [] else
    var n :| n in pool;
    Listing(pool - {n}) + [n]
  }
}
