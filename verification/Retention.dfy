/** Verified backup of completed dates and the eviction of local files that are safely remote.

    A remote revision never changes; commits only add revisions. A digest stands for the content it
    was taken of. Other processes may change local files and commit to the remote while a check over
    the network is under way. */
module Retention {
  import opened Common

  datatype Feed = VehiclePositions | TripUpdates | Alerts

  datatype Kind = Raw | Parquet | Metadata

  type Date = nat

  datatype Path =
    | Partition(kind: Kind, feed: Feed, date: Date, file: string)
    | ManifestFile(date: Date)
    | ReceiptFile(date: Date)
    | OtherFile(name: string)

  datatype Content = Data(bytes: string) | ReceiptDoc(receipt: Receipt) | ManifestDoc(manifest: Manifest)

  datatype Digest = Digest(content: Content)

  datatype Artifact = Artifact(path: Path, kind: Kind, sha256: Digest)

  datatype Receipt = Receipt(version: nat, date: Date, repo: string, remoteVerified: bool,
                             remoteRevision: Option<int>, manifestSha: Digest, artifacts: seq<Artifact>)

  /** `sound` is what is demanded of the feed statistics and the static timeline. */
  datatype Manifest = Manifest(date: Date, complete: bool, sound: bool, artifacts: seq<Artifact>)

  datatype Status = Validated | Interrupted | Complete

  datatype Intent = Intent(kind: Kind, date: Date, receiptSha: Digest, revision: nat, planned: set<Path>,
                           status: Status, deleted: seq<Path>)

  type Snapshot = map<Path, Content>

  /** A file the pruner unlinked: what it held, and the revision its intent names. */
  datatype Pruned = Pruned(path: Path, content: Content, revision: nat)

  datatype World = World(
    local: Snapshot,
    intents: map<(Kind, Date), Intent>,
    spool: set<(Feed, Date)>,
    remote: seq<Snapshot>,
    pruned: seq<Pruned>)

  /******* What a prune checks *******/

  function Inventory(local: Snapshot, kind: Kind, date: Date): set<Path> {
    set p | p in local && p.Partition? && p.kind == kind && p.date == date
  }

  predicate IsParquet(file: string) {
    |file| > 8 && file[|file| - 8..] == ".parquet"
  }

  predicate SpoolClear(spool: set<(Feed, Date)>, date: Date) {
    (VehiclePositions, date) !in spool && (TripUpdates, date) !in spool && (Alerts, date) !in spool
  }

  predicate EntriesExpected(actual: set<Path>, kind: Kind) {
    kind.Parquet? ==> forall p :: p in actual ==> p.Partition? && IsParquet(p.file)
  }

  function ReceiptOf(local: Snapshot, date: Date): Option<Receipt> {
    if ReceiptFile(date) in local && local[ReceiptFile(date)].ReceiptDoc?
    then Some(local[ReceiptFile(date)].receipt)
    else None
  }

  predicate DistinctPaths(artifacts: seq<Artifact>) {
    forall i, j :: 0 <= i < j < |artifacts| ==> artifacts[i].path != artifacts[j].path
  }

  predicate ReceiptSound(repo: string, date: Date, r: Receipt) {
    && r.version == 2 && r.date == date && r.remoteVerified && r.repo == repo && r.artifacts != []
    && DistinctPaths(r.artifacts)
  }

  predicate Matches(snapshot: Snapshot, a: Artifact) {
    a.path in snapshot && Digest(snapshot[a.path]) == a.sha256
  }

  ghost predicate AllMatch(snapshot: Snapshot, artifacts: set<Artifact>) {
    forall a :: a in artifacts ==> Matches(snapshot, a)
  }

  predicate ManifestSound(local: Snapshot, date: Date, r: Receipt) {
    && (exists a :: a in r.artifacts && a.path == ManifestFile(date) && a.sha256 == r.manifestSha)
    && ManifestFile(date) in local && Digest(local[ManifestFile(date)]) == r.manifestSha
    && local[ManifestFile(date)].ManifestDoc?
    && var m := local[ManifestFile(date)].manifest;
       m.complete && m.date == date && m.sound
  }

  function Expected(r: Receipt, kind: Kind): set<Artifact> {
    set a | a in r.artifacts && a.kind == kind
  }

  function Paths(artifacts: set<Artifact>): set<Path> {
    set a | a in artifacts :: a.path
  }

  predicate InPartition(a: Artifact, kind: Kind, date: Date) {
    a.path.Partition? && a.path.kind == kind && a.path.date == date && (kind.Parquet? ==> IsParquet(a.path.file))
  }

  predicate EvidenceFor(expected: set<Artifact>, feed: Feed) {
    exists a :: a in expected && a.path.Partition? && a.path.feed == feed
  }

  predicate ExpectedSound(expected: set<Artifact>, kind: Kind, date: Date) {
    && (forall a :: a in expected ==> InPartition(a, kind, date))
    && EvidenceFor(expected, VehiclePositions) && EvidenceFor(expected, TripUpdates) && EvidenceFor(expected, Alerts)
  }

  predicate IntentFits(intents: map<(Kind, Date), Intent>, kind: Kind, date: Date, r: Receipt) {
    && (kind, date) in intents
    && var i := intents[(kind, date)];
       && i.kind == kind && i.date == date
       && i.receiptSha == Digest(ReceiptDoc(r)) && i.planned == Paths(Expected(r, kind))
  }

  function Candidates(w: World, kind: Kind, date: Date, r: Receipt): set<Artifact> {
    set a | a in Expected(r, kind) && a.path in Inventory(w.local, kind, date)
  }

  /** Everything that is checked before the network is used. */
  ghost predicate LocalEvidence(repo: string, w: World, kind: Kind, date: Date, r: Receipt) {
    var actual := Inventory(w.local, kind, date);
    && SpoolClear(w.spool, date) && EntriesExpected(actual, kind)
    && ReceiptOf(w.local, date) == Some(r) && ReceiptSound(repo, date, r) && ManifestSound(w.local, date, r)
    && ExpectedSound(Expected(r, kind), kind, date)
    && actual <= Paths(Expected(r, kind))
    && (Paths(Expected(r, kind)) <= actual || IntentFits(w.intents, kind, date, r))
    && AllMatch(w.local, Candidates(w, kind, date, r))
  }

  /** The revision a receipt pins; old receipts pin none and are checked at the head. */
  function PinnedRevision(w: World, r: Receipt): int {
    if r.remoteRevision.Some? then r.remoteRevision.value else |w.remote| - 1
  }

  ghost predicate RemoteEvidence(w: World, kind: Kind, date: Date, r: Receipt) {
    && |w.remote| > 0 && 0 <= PinnedRevision(w, r) < |w.remote|
    && Matches(w.remote[|w.remote| - 1], Artifact(ReceiptFile(date), Metadata, Digest(ReceiptDoc(r))))
    && AllMatch(w.remote[PinnedRevision(w, r)], Expected(r, kind))
  }

  /** What other processes do meanwhile: the files of the collector and its spool change, revisions are
      added. Receipts are written by the maintenance process alone. */
  datatype Disturbance = Disturbance(local: Snapshot, spool: set<(Feed, Date)>, commits: seq<Snapshot>)

  function Disturbed(w: World, d: Disturbance): World {
    var receipts := map p | p in w.local && p.ReceiptFile? :: w.local[p];
    var others := map p | p in d.local && !p.ReceiptFile? :: d.local[p];
    w.(local := others + receipts, spool := d.spool, remote := w.remote + d.commits)
  }

  /** The checks repeated when the network has answered. */
  ghost predicate Unchanged(w: World, w1: World, kind: Kind, date: Date, r: Receipt) {
    && AllMatch(w1.local, Candidates(w, kind, date, r))
    && SpoolClear(w1.spool, date)
    && Inventory(w1.local, kind, date) == Inventory(w.local, kind, date)
    && ReceiptOf(w1.local, date) == Some(r)
  }

  /******* One prune of one date *******/

  datatype IntentFate = IntentFailed | IntentOnly | IntentLogged

  /** Whether the remote answers, what changes meanwhile, how far the intent gets, how many unlinks
      happen, and whether the closing intent is written. */
  datatype PruneLuck = PruneLuck(network: bool, disturbance: Disturbance, intent: IntentFate, unlinks: nat,
                                 closes: bool)

  datatype PruneOutcome = Nothing | Refused | Stopped(unlinked: seq<Path>) | Removed(unlinked: seq<Path>)

  function Unlink(w: World, paths: seq<Path>, revision: nat): World
    requires forall p :: p in paths ==> p in w.local
    requires forall i, j :: 0 <= i < j < |paths| ==> paths[i] != paths[j]
  {
    w.(local := w.local - (set p | p in paths),
       pruned := w.pruned + seq(|paths|, i requires 0 <= i < |paths| => Pruned(paths[i], w.local[paths[i]], revision)))
  }

  ghost predicate Sorts(sort: set<Path> -> seq<Path>) {
    forall pool :: Sorted(sort, pool)
  }

  ghost predicate Sorted(sort: set<Path> -> seq<Path>, pool: set<Path>) {
    && (forall p :: p in sort(pool) <==> p in pool)
    && forall i, j :: 0 <= i < j < |sort(pool)| ==> sort(pool)[i] != sort(pool)[j]
  }

  function NewIntent(w: World, kind: Kind, date: Date, r: Receipt, revision: nat, status: Status,
                     deleted: seq<Path>): Intent {
    Intent(kind, date, Digest(ReceiptDoc(r)), revision, Paths(Expected(r, kind)), status, deleted)
  }

  /** The deletion, once everything is verified: intent first, then one unlink after another. */
  ghost function Deleting(sort: set<Path> -> seq<Path>, w: World, kind: Kind, date: Date, r: Receipt, revision: nat,
                          luck: PruneLuck): (PruneOutcome, World)
    requires Sorted(sort, Inventory(w.local, kind, date))
  {
    if luck.intent.IntentFailed? then (Refused, w) else
    var all := sort(Inventory(w.local, kind, date));
    var w2 := w.(intents := w.intents[(kind, date) := NewIntent(w, kind, date, r, revision, Validated, [])]);
    if luck.intent.IntentOnly? then (Refused, w2) else
    var n := if luck.unlinks <= |all| then luck.unlinks else |all|;
    assert forall p :: p in all[..n] ==> p in all;
    var w3 := Unlink(w2, all[..n], revision);
    var status := if n == |all| then Complete else Interrupted;
    var w4 := if luck.closes
              then w3.(intents := w3.intents[(kind, date) := NewIntent(w, kind, date, r, revision, status, all[..n])])
              else w3;
    (if n == |all| && luck.closes then Removed(all[..n]) else Stopped(all[..n]), w4)
  }

  /** A whole attempt to prune one date. */
  ghost function Pruning(repo: string, sort: set<Path> -> seq<Path>, w: World, kind: Kind, date: Date,
                         luck: PruneLuck): (PruneOutcome, World)
    requires Sorts(sort)
  {
    var actual := Inventory(w.local, kind, date);
    if !SpoolClear(w.spool, date) || !EntriesExpected(actual, kind) then (Refused, w) else
    if actual == {} then (Nothing, w) else
    if ReceiptOf(w.local, date).None? then (Refused, w) else
    var r := ReceiptOf(w.local, date).value;
    if !LocalEvidence(repo, w, kind, date, r) then (Refused, w) else
    var w1 := Disturbed(w, luck.disturbance);
    if !luck.network || !RemoteEvidence(w, kind, date, r) || !Unchanged(w, w1, kind, date, r) then (Refused, w1) else
    assert Sorted(sort, Inventory(w1.local, kind, date));
    Deleting(sort, w1, kind, date, r, PinnedRevision(w, r), luck)
  }

  /** One pass over the dates: those before the cutoff, one after the other, whatever each comes to. */
  ghost function PruningAll(repo: string, sort: set<Path> -> seq<Path>, w: World, kind: Kind, cutoff: int,
                            dates: seq<Date>, luck: nat -> PruneLuck): World
    requires Sorts(sort)
  {
    if dates == [] then w else
    var n := |dates| - 1;
    var w1 := PruningAll(repo, sort, w, kind, cutoff, dates[..n], luck);
    if dates[n] >= cutoff then w1 else Pruning(repo, sort, w1, kind, dates[n], luck(n)).1
  }

  /******* Safety *******/

  /** Every file the pruner unlinked is at the revision recorded for it, with the content it had. */
  ghost predicate PrunedSafe(w: World) {
    forall i :: 0 <= i < |w.pruned| ==>
      var e := w.pruned[i];
      e.revision < |w.remote| && e.path in w.remote[e.revision] && w.remote[e.revision][e.path] == e.content
  }

  lemma MoreRevisionsSafe(w: World, w': World)
    requires PrunedSafe(w) && w.remote <= w'.remote && w'.pruned == w.pruned
    ensures PrunedSafe(w')
  {
  }

  /** What is about to be unlinked is at the pinned revision with the same content. */
  lemma CandidatesRemote(repo: string, w: World, w1: World, kind: Kind, date: Date, r: Receipt, p: Path)
    requires LocalEvidence(repo, w, kind, date, r) && RemoteEvidence(w, kind, date, r)
    requires Unchanged(w, w1, kind, date, r) && w.remote <= w1.remote
    requires p in Inventory(w1.local, kind, date)
    ensures 0 <= PinnedRevision(w, r) < |w1.remote|
    ensures p in w1.local && p in w1.remote[PinnedRevision(w, r)]
    ensures w1.remote[PinnedRevision(w, r)][p] == w1.local[p]
  {
    assert p in Paths(Expected(r, kind));
    var a :| a in Expected(r, kind) && a.path == p;
    assert a in Candidates(w, kind, date, r);
    assert Matches(w.remote[PinnedRevision(w, r)], a) && Matches(w1.local, a);
  }

  lemma UnlinkKeepsSafe(w: World, paths: seq<Path>, revision: nat)
    requires PrunedSafe(w) && revision < |w.remote|
    requires forall p :: p in paths ==> p in w.local && p in w.remote[revision] && w.remote[revision][p] == w.local[p]
    requires forall i, j :: 0 <= i < j < |paths| ==> paths[i] != paths[j]
    ensures PrunedSafe(Unlink(w, paths, revision))
    ensures Unlink(w, paths, revision).remote == w.remote
  {
    var w' := Unlink(w, paths, revision);
    forall i | 0 <= i < |w'.pruned|
      ensures w'.pruned[i].revision < |w.remote|
      ensures w'.pruned[i].path in w.remote[w'.pruned[i].revision]
      ensures w.remote[w'.pruned[i].revision][w'.pruned[i].path] == w'.pruned[i].content
    {
      if i >= |w.pruned| {
        assert paths[i - |w.pruned|] in paths;
      }
    }
  }

  lemma PruneKeepsSafe(repo: string, sort: set<Path> -> seq<Path>, w: World, kind: Kind, date: Date, luck: PruneLuck)
    requires Sorts(sort) && PrunedSafe(w)
    ensures PrunedSafe(Pruning(repo, sort, w, kind, date, luck).1)
    ensures w.remote <= Pruning(repo, sort, w, kind, date, luck).1.remote
  {
    var w1 := Disturbed(w, luck.disturbance);
    MoreRevisionsSafe(w, w1);
    if ReceiptOf(w.local, date).Some? {
      var r := ReceiptOf(w.local, date).value;
      if LocalEvidence(repo, w, kind, date, r) && RemoteEvidence(w, kind, date, r) && Unchanged(w, w1, kind, date, r) {
        assert Sorted(sort, Inventory(w1.local, kind, date));
        forall p | p in Inventory(w1.local, kind, date)
          ensures p in w1.local && p in w1.remote[PinnedRevision(w, r)]
          ensures w1.remote[PinnedRevision(w, r)][p] == w1.local[p]
        {
          CandidatesRemote(repo, w, w1, kind, date, r, p);
        }
        DeletingKeepsSafe(sort, w1, kind, date, r, PinnedRevision(w, r), luck);
      }
    }
  }

  lemma DeletingKeepsSafe(sort: set<Path> -> seq<Path>, w: World, kind: Kind, date: Date, r: Receipt, revision: nat,
                          luck: PruneLuck)
    requires Sorted(sort, Inventory(w.local, kind, date)) && PrunedSafe(w) && revision < |w.remote|
    requires forall p :: p in Inventory(w.local, kind, date) ==>
                           p in w.local && p in w.remote[revision] && w.remote[revision][p] == w.local[p]
    ensures PrunedSafe(Deleting(sort, w, kind, date, r, revision, luck).1)
    ensures Deleting(sort, w, kind, date, r, revision, luck).1.remote == w.remote
  {
    var all := sort(Inventory(w.local, kind, date));
    var n := if luck.unlinks <= |all| then luck.unlinks else |all|;
    var w2 := w.(intents := w.intents[(kind, date) := NewIntent(w, kind, date, r, revision, Validated, [])]);
    assert forall p :: p in all[..n] ==> p in all;
    UnlinkKeepsSafe(w2, all[..n], revision);
    hide Unlink, NewIntent, Sorted, Inventory;
    var w' := Deleting(sort, w, kind, date, r, revision, luck).1;
    assert w'.pruned == w.pruned || w'.pruned == Unlink(w2, all[..n], revision).pruned;
  }

  lemma DeletingUnlinks(sort: set<Path> -> seq<Path>, w: World, kind: Kind, date: Date, r: Receipt, revision: nat,
                        luck: PruneLuck)
    requires Sorted(sort, Inventory(w.local, kind, date))
    ensures var w' := Deleting(sort, w, kind, date, r, revision, luck).1;
            && w.pruned <= w'.pruned
            && forall i :: |w.pruned| <= i < |w'.pruned| ==> w'.pruned[i].path in Inventory(w.local, kind, date)
  {
    var all := sort(Inventory(w.local, kind, date));
    var n := if luck.unlinks <= |all| then luck.unlinks else |all|;
    assert forall p :: p in all[..n] ==> p in all;
    hide NewIntent;
  }

  /** A prune unlinks only files of its own kind and date, and nothing the receipt does not list. */
  lemma PruneTouchesOneDate(repo: string, sort: set<Path> -> seq<Path>, w: World, kind: Kind, date: Date,
                            luck: PruneLuck)
    requires Sorts(sort)
    ensures var w' := Pruning(repo, sort, w, kind, date, luck).1;
            && w.pruned <= w'.pruned
            && forall i :: |w.pruned| <= i < |w'.pruned| ==>
                 && w'.pruned[i].path in Inventory(w.local, kind, date)
                 && ReceiptOf(w.local, date).Some?
                 && w'.pruned[i].path in Paths(Expected(ReceiptOf(w.local, date).value, kind))
  {
    var w1 := Disturbed(w, luck.disturbance);
    assert w1.pruned == w.pruned;
    hide Disturbed;
    assert Sorted(sort, Inventory(w1.local, kind, date));
    if ReceiptOf(w.local, date).Some? {
      var r := ReceiptOf(w.local, date).value;
      if RemoteEvidence(w, kind, date, r) {
        DeletingUnlinks(sort, w1, kind, date, r, PinnedRevision(w, r), luck);
      }
    }
    hide Deleting, AllMatch, Inventory, Paths, Expected, ReceiptOf;
  }

  /** All that has to hold before a file may go. */
  ghost predicate Authorized(repo: string, w: World, kind: Kind, date: Date, luck: PruneLuck) {
    && luck.network && ReceiptOf(w.local, date).Some?
    && var r := ReceiptOf(w.local, date).value;
       && LocalEvidence(repo, w, kind, date, r) && RemoteEvidence(w, kind, date, r)
       && Unchanged(w, Disturbed(w, luck.disturbance), kind, date, r)
  }

  /** A date that fails any check loses no file, and no intent is written for it. A file goes exactly
      when every check holds, the intent is on record, and there is a file to unlink. */
  lemma RefusalLosesNothing(repo: string, sort: set<Path> -> seq<Path>, w: World, kind: Kind, date: Date,
                            luck: PruneLuck)
    requires Sorts(sort)
    ensures var (outcome, w') := Pruning(repo, sort, w, kind, date, luck);
            && (!Authorized(repo, w, kind, date, luck) ==>
                  && (outcome.Refused? || outcome.Nothing?) && w'.pruned == w.pruned && w'.intents == w.intents
                  && (w'.local == w.local || w'.local == Disturbed(w, luck.disturbance).local))
            && (w'.pruned != w.pruned <==>
                  && Authorized(repo, w, kind, date, luck) && luck.intent.IntentLogged?
                  && luck.unlinks > 0 && Inventory(w.local, kind, date) != {})
  {
    var w1 := Disturbed(w, luck.disturbance);
    assert w1.pruned == w.pruned && w1.intents == w.intents;
    hide Disturbed;
    assert Sorted(sort, Inventory(w1.local, kind, date));
    if Authorized(repo, w, kind, date, luck) {
      var r := ReceiptOf(w.local, date).value;
      hide LocalEvidence, RemoteEvidence, ReceiptOf;
      DeletingCount(sort, w1, kind, date, r, PinnedRevision(w, r), luck);
    }
    hide Deleting, LocalEvidence, AllMatch, Expected, Sorted;
  }

  lemma DeletingCount(sort: set<Path> -> seq<Path>, w: World, kind: Kind, date: Date, r: Receipt, revision: nat,
                      luck: PruneLuck)
    requires Sorted(sort, Inventory(w.local, kind, date))
    ensures Deleting(sort, w, kind, date, r, revision, luck).1.pruned != w.pruned <==>
            luck.intent.IntentLogged? && luck.unlinks > 0 && Inventory(w.local, kind, date) != {}
  {
    var all := sort(Inventory(w.local, kind, date));
    assert Inventory(w.local, kind, date) != {} ==> all != [] by {
      if p :| p in Inventory(w.local, kind, date) {
        assert p in all;
      }
    }
    assert all != [] ==> all[0] in all;
    hide Inventory, NewIntent;
  }

  /******* Resuming *******/

  ghost predicate Accepts(repo: string, w: World, kind: Kind, date: Date, r: Receipt) {
    LocalEvidence(repo, w, kind, date, r) && RemoteEvidence(w, kind, date, r)
  }

  /** A local file of this kind and date. */
  ghost predicate LocalFile(w: World, kind: Kind, date: Date, p: Path) {
    p in w.local && p.Partition? && p.kind == kind && p.date == date
  }

  /** What is demanded of the place, in plain words: no feed has rows of the date in its spool, every local
      file is what the receipt says, and either none is missing or the intent on record is for this receipt
      and these files. */
  ghost predicate FilesFit(w: World, kind: Kind, date: Date, r: Receipt) {
    && (forall f: Feed :: (f, date) !in w.spool)
    && (forall p :: LocalFile(w, kind, date, p) ==>
          && (kind == Parquet ==> |p.file| > 8 && p.file[|p.file| - 8..] == ".parquet")
          && exists a :: a in r.artifacts && a.kind == kind && a.path == p && a.sha256 == Digest(w.local[p]))
    && ((forall a :: a in r.artifacts && a.kind == kind ==> a.path in w.local)
        || (&& (kind, date) in w.intents
            && var i := w.intents[(kind, date)];
               && i.kind == kind && i.date == date && i.receiptSha == Digest(ReceiptDoc(r))
               && forall p :: p in i.planned <==> exists a :: a in r.artifacts && a.kind == kind && a.path == p))
  }

  /** What is demanded of the receipt and the manifest: they are there, current, verified and complete, they
      name each other, and the receipt lists files of this kind and date only, some of every feed. */
  ghost predicate PapersFit(repo: string, w: World, kind: Kind, date: Date, r: Receipt) {
    && ReceiptFile(date) in w.local && w.local[ReceiptFile(date)] == ReceiptDoc(r)
    && r.version == 2 && r.date == date && r.remoteVerified && r.repo == repo
    && (forall i, j :: 0 <= i < j < |r.artifacts| ==> r.artifacts[i].path != r.artifacts[j].path)
    && ManifestFile(date) in w.local && w.local[ManifestFile(date)].ManifestDoc?
    && Digest(w.local[ManifestFile(date)]) == r.manifestSha
    && (var m := w.local[ManifestFile(date)].manifest; m.complete && m.sound && m.date == date)
    && (exists a :: a in r.artifacts && a.path == ManifestFile(date) && a.sha256 == r.manifestSha)
    && (forall a :: a in r.artifacts && a.kind == kind ==>
          && a.path.Partition? && a.path.kind == kind && a.path.date == date
          && (kind == Parquet ==> |a.path.file| > 8 && a.path.file[|a.path.file| - 8..] == ".parquet"))
    && forall f: Feed :: ListsFileOf(r, kind, f)
  }

  ghost predicate ListsFileOf(r: Receipt, kind: Kind, f: Feed) {
    exists a :: a in r.artifacts && a.kind == kind && a.path.Partition? && a.path.feed == f
  }

  /** What is demanded of the remote: the receipt is at its head, and everything of this kind is at the
      revision the receipt pins, or at the head for a receipt that pins none. */
  ghost predicate RemoteFits(w: World, kind: Kind, date: Date, r: Receipt) {
    && |w.remote| > 0
    && (var head := w.remote[|w.remote| - 1];
        ReceiptFile(date) in head && head[ReceiptFile(date)] == ReceiptDoc(r))
    && var revision := match r.remoteRevision case Some(v) => v case None => |w.remote| - 1;
       && 0 <= revision < |w.remote|
       && forall a :: a in r.artifacts && a.kind == kind ==>
            a.path in w.remote[revision] && Digest(w.remote[revision][a.path]) == a.sha256
  }

  lemma RemoteMeaning(w: World, kind: Kind, date: Date, r: Receipt)
    ensures RemoteEvidence(w, kind, date, r) <==> RemoteFits(w, kind, date, r)
  {
    assert forall a :: a in Expected(r, kind) <==> a in r.artifacts && a.kind == kind;
    hide Expected;
  }

  lemma PapersMeaning(repo: string, w: World, kind: Kind, date: Date, r: Receipt)
    ensures PapersFit(repo, w, kind, date, r) <==>
            && ReceiptOf(w.local, date) == Some(r) && ReceiptSound(repo, date, r) && ManifestSound(w.local, date, r)
            && ExpectedSound(Expected(r, kind), kind, date)
  {
    assert forall a :: a in Expected(r, kind) <==> a in r.artifacts && a.kind == kind;
    hide Expected;
    EveryFeed(r, kind);
    assert r.artifacts == [] ==> !PapersFit(repo, w, kind, date, r);
    hide EvidenceFor, ListsFileOf;
  }

  lemma EveryFeed(r: Receipt, kind: Kind)
    ensures (forall f: Feed :: ListsFileOf(r, kind, f)) <==>
            && EvidenceFor(Expected(r, kind), VehiclePositions) && EvidenceFor(Expected(r, kind), TripUpdates)
            && EvidenceFor(Expected(r, kind), Alerts)
  {
    forall f: Feed
      ensures EvidenceFor(Expected(r, kind), f) <==> ListsFileOf(r, kind, f)
    {
      if a :| a in r.artifacts && a.kind == kind && a.path.Partition? && a.path.feed == f {
        assert a in Expected(r, kind);
      }
    }
    hide EvidenceFor, ListsFileOf;
    if EvidenceFor(Expected(r, kind), VehiclePositions) && EvidenceFor(Expected(r, kind), TripUpdates)
       && EvidenceFor(Expected(r, kind), Alerts) {
      forall f: Feed
        ensures ListsFileOf(r, kind, f)
      {
        match f case VehiclePositions => case TripUpdates => case Alerts =>
      }
    }
  }

  lemma FilesMeaning(w: World, kind: Kind, date: Date, r: Receipt)
    requires DistinctPaths(r.artifacts)
    requires forall a :: a in r.artifacts && a.kind == kind ==>
               a.path.Partition? && a.path.kind == kind && a.path.date == date
    ensures var actual := Inventory(w.local, kind, date);
            FilesFit(w, kind, date, r) <==>
            && SpoolClear(w.spool, date) && EntriesExpected(actual, kind)
            && actual <= Paths(Expected(r, kind))
            && (Paths(Expected(r, kind)) <= actual || IntentFits(w.intents, kind, date, r))
            && AllMatch(w.local, Candidates(w, kind, date, r))
  {
    SpoolMeaning(w, date);
    PathsMeaning(r, kind);
    CandidatesMeaning(w, kind, date, r);
    assert forall p :: p in Inventory(w.local, kind, date) <==> LocalFile(w, kind, date, p);
    hide Paths, Expected, Candidates, AllMatch, Inventory, SpoolClear;
  }

  lemma SpoolMeaning(w: World, date: Date)
    ensures SpoolClear(w.spool, date) <==> forall f: Feed :: (f, date) !in w.spool
  {
    if SpoolClear(w.spool, date) {
      forall f: Feed
        ensures (f, date) !in w.spool
      {
        match f case VehiclePositions => case TripUpdates => case Alerts =>
      }
    }
  }

  lemma PathsMeaning(r: Receipt, kind: Kind)
    ensures forall p :: p in Paths(Expected(r, kind)) <==> exists a :: a in r.artifacts && a.kind == kind && a.path == p
  {
    forall a | a in r.artifacts && a.kind == kind
      ensures a.path in Paths(Expected(r, kind))
    {
      assert a in Expected(r, kind);
    }
  }

  /** With one entry a path, the files match their entries exactly when each has an entry it matches. */
  lemma CandidatesMeaning(w: World, kind: Kind, date: Date, r: Receipt)
    requires DistinctPaths(r.artifacts)
    ensures Inventory(w.local, kind, date) <= Paths(Expected(r, kind))
            && AllMatch(w.local, Candidates(w, kind, date, r))
            <==> forall p :: LocalFile(w, kind, date, p) ==>
                   exists a :: a in r.artifacts && a.kind == kind && a.path == p && a.sha256 == Digest(w.local[p])
  {
    PathsMeaning(r, kind);
    if Inventory(w.local, kind, date) <= Paths(Expected(r, kind)) && AllMatch(w.local, Candidates(w, kind, date, r)) {
      forall p | LocalFile(w, kind, date, p)
        ensures exists a :: a in r.artifacts && a.kind == kind && a.path == p && a.sha256 == Digest(w.local[p])
      {
        assert p in Inventory(w.local, kind, date);
        var a :| a in r.artifacts && a.kind == kind && a.path == p;
        assert a in Candidates(w, kind, date, r) && Matches(w.local, a);
      }
    }
    if forall p :: LocalFile(w, kind, date, p) ==>
         exists a :: a in r.artifacts && a.kind == kind && a.path == p && a.sha256 == Digest(w.local[p]) {
      forall a | a in Candidates(w, kind, date, r)
        ensures Matches(w.local, a)
      {
        assert LocalFile(w, kind, date, a.path);
        var b :| b in r.artifacts && b.kind == kind && b.path == a.path && b.sha256 == Digest(w.local[a.path]);
        SamePath(r.artifacts, a, b);
      }
      forall p | p in Inventory(w.local, kind, date)
        ensures p in Paths(Expected(r, kind))
      {
        assert LocalFile(w, kind, date, p);
      }
    }
  }

  lemma SamePath(artifacts: seq<Artifact>, a: Artifact, b: Artifact)
    requires DistinctPaths(artifacts) && a in artifacts && b in artifacts && a.path == b.path
    ensures a == b
  {
    var i :| 0 <= i < |artifacts| && artifacts[i] == a;
    var j :| 0 <= j < |artifacts| && artifacts[j] == b;
    assert i == j;
  }

  /** Exactly when a date is accepted for pruning. */
  lemma AcceptsMeaning(repo: string, w: World, kind: Kind, date: Date, r: Receipt)
    ensures Accepts(repo, w, kind, date, r) <==>
            PapersFit(repo, w, kind, date, r) && FilesFit(w, kind, date, r) && RemoteFits(w, kind, date, r)
  {
    RemoteMeaning(w, kind, date, r);
    PapersMeaning(repo, w, kind, date, r);
    hide RemoteFits, RemoteEvidence, FilesFit, Inventory, Candidates, AllMatch;
    if ReceiptSound(repo, date, r) && ExpectedSound(Expected(r, kind), kind, date) {
      assert forall a :: a in r.artifacts && a.kind == kind ==> a in Expected(r, kind);
      FilesMeaning(w, kind, date, r);
    }
    hide PapersFit, ManifestSound, ReceiptOf, IntentFits;
  }

  /** While any feed has rows of the date in its spool, a prune of it does nothing at all; and rows staged
      while the remote is asked still keep every file. */
  lemma RefusedWhileStaged(repo: string, sort: set<Path> -> seq<Path>, w: World, kind: Kind, date: Date,
                           luck: PruneLuck, f: Feed)
    requires Sorts(sort)
    ensures (f, date) in w.spool ==> Pruning(repo, sort, w, kind, date, luck) == (Refused, w)
    ensures (f, date) in luck.disturbance.spool ==> Pruning(repo, sort, w, kind, date, luck).1.pruned == w.pruned
  {
    match f case VehiclePositions => case TripUpdates => case Alerts =>
    assert (f, date) in w.spool ==> !SpoolClear(w.spool, date);
    RefusalLosesNothing(repo, sort, w, kind, date, luck);
    hide Pruning, LocalEvidence, RemoteEvidence;
    if (f, date) in luck.disturbance.spool {
      assert !SpoolClear(Disturbed(w, luck.disturbance).spool, date);
    }
    assert (f, date) in w.spool ==> Pruning(repo, sort, w, kind, date, luck) == (Refused, w) by {
      StagedIsRefused(repo, sort, w, kind, date, luck);
    }
  }

  lemma StagedIsRefused(repo: string, sort: set<Path> -> seq<Path>, w: World, kind: Kind, date: Date, luck: PruneLuck)
    requires Sorts(sort)
    ensures !SpoolClear(w.spool, date) ==> Pruning(repo, sort, w, kind, date, luck) == (Refused, w)
  {
    hide LocalEvidence, RemoteEvidence, Deleting;
  }

  /** The remote has only grown, and still has the receipt; an old receipt that pins no revision also
      needs its files still at the head. */
  ghost predicate RemoteKept(w: World, w': World, kind: Kind, date: Date, r: Receipt) {
    && w.remote <= w'.remote && |w'.remote| > 0
    && HeadKeeps(w'.remote[|w'.remote| - 1], kind, date, r)
  }

  ghost predicate HeadKeeps(head: Snapshot, kind: Kind, date: Date, r: Receipt) {
    && Matches(head, Artifact(ReceiptFile(date), Metadata, Digest(ReceiptDoc(r))))
    && (r.remoteRevision.None? ==> AllMatch(head, Expected(r, kind)))
  }

  /** Of the files of one kind and date some may be gone; those left, the manifest and the receipt are
      as they were. Nothing is said of any other file. */
  ghost predicate OnlyShrank(w: World, w': World, kind: Kind, date: Date) {
    && Inventory(w'.local, kind, date) <= Inventory(w.local, kind, date)
    && (forall p :: p in Inventory(w'.local, kind, date) ==> w'.local[p] == w.local[p])
    && (ManifestFile(date) in w.local ==>
          ManifestFile(date) in w'.local && w'.local[ManifestFile(date)] == w.local[ManifestFile(date)])
    && ReceiptOf(w'.local, date) == ReceiptOf(w.local, date)
  }

  ghost predicate Untouched(w: World, w': World, kind: Kind, date: Date) {
    OnlyShrank(w, w', kind, date) && Inventory(w'.local, kind, date) == Inventory(w.local, kind, date)
  }

  /** A date of which some files are gone, with a matching intent, is accepted as it was before,
      whatever has become of every other file. */
  lemma ResumptionAccepted(repo: string, w: World, kind: Kind, date: Date, r: Receipt, w': World)
    requires Accepts(repo, w, kind, date, r)
    requires OnlyShrank(w, w', kind, date) && SpoolClear(w'.spool, date)
    requires Paths(Expected(r, kind)) <= Inventory(w'.local, kind, date) || IntentFits(w'.intents, kind, date, r)
    requires RemoteKept(w, w', kind, date, r)
    ensures Accepts(repo, w', kind, date, r)
  {
    assert ManifestSound(w'.local, date, r);
    assert LocalEvidence(repo, w', kind, date, r) by {
      forall a | a in Candidates(w', kind, date, r)
        ensures Matches(w'.local, a)
      {
        assert a in Candidates(w, kind, date, r) && Matches(w.local, a);
      }
    }
    hide Matches;
    assert RemoteEvidence(w', kind, date, r);
  }

  /** Nothing that matters to this date was touched, so the repeated checks pass. */
  lemma UntouchedIsUnchanged(repo: string, w: World, w1: World, kind: Kind, date: Date, r: Receipt)
    requires LocalEvidence(repo, w, kind, date, r) && Untouched(w, w1, kind, date) && SpoolClear(w1.spool, date)
    ensures Unchanged(w, w1, kind, date, r)
  {
    forall a | a in Candidates(w, kind, date, r)
      ensures Matches(w1.local, a)
    {
      assert Matches(w.local, a);
    }
  }

  lemma DeletingKeepsAccepted(repo: string, sort: set<Path> -> seq<Path>, w: World, kind: Kind, date: Date, r: Receipt,
                              revision: nat, luck: PruneLuck)
    requires Accepts(repo, w, kind, date, r) && Sorted(sort, Inventory(w.local, kind, date))
    ensures Accepts(repo, Deleting(sort, w, kind, date, r, revision, luck).1, kind, date, r)
  {
    if luck.intent.IntentFailed? {
      assert Deleting(sort, w, kind, date, r, revision, luck).1 == w;
    } else {
      AcceptsKept(repo, w, kind, date, r);
      var w', gone := DeletingLeaves(sort, w, kind, date, r, revision, luck);
      hide Deleting;
      ShrankBy(w, w', kind, date, gone);
      hide Sorted, OnlyShrank, Inventory;
      ResumptionAccepted(repo, w, kind, date, r, w');
    }
  }

  /** A date is ready when nothing but staged rows of the date can keep it from being accepted. */
  ghost predicate Ready(repo: string, w: World, kind: Kind, date: Date, r: Receipt) {
    Accepts(repo, w.(spool := {}), kind, date, r)
  }

  lemma ReadyIsAccepted(repo: string, w: World, kind: Kind, date: Date, r: Receipt)
    ensures Accepts(repo, w, kind, date, r) <==> Ready(repo, w, kind, date, r) && SpoolClear(w.spool, date)
  {
    hide AllMatch, Matches, ManifestSound, ExpectedSound, ReceiptSound, IntentFits, Expected, Inventory, ReceiptOf;
  }

  lemma DisturbedIsReady(repo: string, w: World, w1: World, kind: Kind, date: Date, r: Receipt)
    requires Ready(repo, w, kind, date, r) && Untouched(w, w1, kind, date) && w1.intents == w.intents
    requires RemoteKept(w, w1, kind, date, r)
    ensures Ready(repo, w1, kind, date, r)
  {
    assert RemoteKept(w.(spool := {}), w1.(spool := {}), kind, date, r) by {
      hide HeadKeeps;
    }
    assert Untouched(w.(spool := {}), w1.(spool := {}), kind, date);
    hide RemoteKept;
    ResumptionAccepted(repo, w.(spool := {}), kind, date, r, w1.(spool := {}));
  }

  /** Whatever a prune of an accepted date comes to, beside other processes that leave this date
      alone, the next one accepts the date, unless rows of it have been staged meanwhile. */
  lemma InterruptedIsAccepted(repo: string, sort: set<Path> -> seq<Path>, w: World, kind: Kind, date: Date, r: Receipt,
                              luck: PruneLuck)
    requires Sorts(sort) && Accepts(repo, w, kind, date, r)
    requires Untouched(w, Disturbed(w, luck.disturbance), kind, date)
    requires RemoteKept(w, Disturbed(w, luck.disturbance), kind, date, r)
    ensures var w' := Pruning(repo, sort, w, kind, date, luck).1;
            Ready(repo, w', kind, date, r) && (Accepts(repo, w', kind, date, r) <==> SpoolClear(w'.spool, date))
  {
    var w1, w' := Disturbed(w, luck.disturbance), Pruning(repo, sort, w, kind, date, luck).1;
    assert w1.intents == w.intents;
    ReadyIsAccepted(repo, w, kind, date, r);
    ReadyIsAccepted(repo, w1, kind, date, r);
    ReadyIsAccepted(repo, w', kind, date, r);
    hide Disturbed, Ready;
    DisturbedIsReady(repo, w, w1, kind, date, r);
    assert ReceiptOf(w.local, date) == Some(r);
    if SpoolClear(w1.spool, date) {
      UntouchedIsUnchanged(repo, w, w1, kind, date, r);
      assert Sorted(sort, Inventory(w1.local, kind, date));
      DeletingKeepsAccepted(repo, sort, w1, kind, date, r, PinnedRevision(w, r), luck);
      hide Deleting, OnlyShrank, Inventory, Sorted, Unchanged, RemoteKept;
    } else {
      assert !Unchanged(w, w1, kind, date, r);
      hide Deleting, OnlyShrank, Inventory, Unchanged, RemoteKept;
      assert w' == w || w' == w1;
    }
  }

  /** Files of one kind and date are gone: this leaves any date alone, except for the files gone. */
  lemma ShrankBy(w: World, w': World, kind: Kind, date: Date, gone: set<Path>)
    requires w'.local == w.local - gone && forall p :: p in gone ==> p.Partition?
    ensures OnlyShrank(w, w', kind, date)
    ensures (forall p :: p in gone ==> p.kind != kind || p.date != date) ==> Untouched(w, w', kind, date)
  {
  }

  lemma Undisturbed(w: World, d: Disturbance)
    requires d.local == w.local && d.commits == []
    ensures Disturbed(w, d) == w.(spool := d.spool)
  {
    assert Disturbed(w, d).local == w.local;
  }

  lemma DeletingLeaves(sort: set<Path> -> seq<Path>, w: World, kind: Kind, date: Date, r: Receipt, revision: nat,
                       luck: PruneLuck)
    returns (w': World, gone: set<Path>)
    requires Sorted(sort, Inventory(w.local, kind, date)) && !luck.intent.IntentFailed?
    ensures w' == Deleting(sort, w, kind, date, r, revision, luck).1
    ensures gone <= Inventory(w.local, kind, date) && w'.local == w.local - gone
    ensures IntentFits(w'.intents, kind, date, r) && w'.remote == w.remote && w'.spool == w.spool
  {
    w' := Deleting(sort, w, kind, date, r, revision, luck).1;
    if luck.intent.IntentOnly? {
      gone := {};
      assert w.local - {} == w.local;
    } else {
      var all := sort(Inventory(w.local, kind, date));
      var n := if luck.unlinks <= |all| then luck.unlinks else |all|;
      gone := set p | p in all[..n];
      assert forall p :: p in all[..n] ==> p in all;
    }
  }

  /** With a healthy remote an accepted date is pruned completely, beside other processes that leave
      this date alone. */
  lemma AcceptedIsPruned(repo: string, sort: set<Path> -> seq<Path>, w: World, kind: Kind, date: Date, r: Receipt,
                         luck: PruneLuck)
    requires Sorts(sort) && Accepts(repo, w, kind, date, r) && Inventory(w.local, kind, date) != {}
    requires luck.network && Untouched(w, Disturbed(w, luck.disturbance), kind, date)
    requires SpoolClear(luck.disturbance.spool, date)
    requires luck.intent.IntentLogged? && luck.unlinks >= |sort(Inventory(w.local, kind, date))| && luck.closes
    ensures var (outcome, w') := Pruning(repo, sort, w, kind, date, luck);
            && outcome.Removed? && Inventory(w'.local, kind, date) == {}
            && w'.local == Disturbed(w, luck.disturbance).local - Inventory(w.local, kind, date)
  {
    var w1 := Disturbed(w, luck.disturbance);
    assert w1.spool == luck.disturbance.spool;
    hide Disturbed;
    UntouchedIsUnchanged(repo, w, w1, kind, date, r);
    assert ReceiptOf(w.local, date) == Some(r);
    assert Sorted(sort, Inventory(w1.local, kind, date));
    var all := sort(Inventory(w.local, kind, date));
    assert all[..|all|] == all;
    assert (set p | p in all) == Inventory(w.local, kind, date);
    assert Inventory(w1.local - Inventory(w.local, kind, date), kind, date) == {};
    hide Accepts, LocalEvidence, RemoteEvidence, Unchanged, Inventory, Sorted;
  }

  /** What is on record after a prune that unlinked files and wrote its closing intent: exactly the files
      unlinked, and whether they were all there were. */
  lemma ClosingIntent(repo: string, sort: set<Path> -> seq<Path>, w: World, kind: Kind, date: Date, luck: PruneLuck)
    requires Sorts(sort) && luck.closes
    ensures var (outcome, w') := Pruning(repo, sort, w, kind, date, luck);
            outcome.Removed? || outcome.Stopped? ==>
              && (kind, date) in w'.intents
              && var i := w'.intents[(kind, date)];
                 && (outcome.Removed? <==> i.status == Complete) && (outcome.Stopped? <==> i.status == Interrupted)
                 && i.deleted == outcome.unlinked && i.kind == kind && i.date == date
                 && |w'.pruned| == |w.pruned| + |i.deleted|
                 && (forall k :: 0 <= k < |i.deleted| ==>
                       && w'.pruned[|w.pruned| + k].path == i.deleted[k]
                       && w'.pruned[|w.pruned| + k].revision == i.revision)
  {
    var w1 := Disturbed(w, luck.disturbance);
    assert w1.pruned == w.pruned;
    hide Disturbed, LocalEvidence, RemoteEvidence, Unchanged;
    assert Sorted(sort, Inventory(w1.local, kind, date));
    if ReceiptOf(w.local, date).Some? && RemoteEvidence(w, kind, date, ReceiptOf(w.local, date).value) {
      var r := ReceiptOf(w.local, date).value;
      if PinnedRevision(w, r) >= 0 {
        DeletingIntent(sort, w1, kind, date, r, PinnedRevision(w, r), luck);
      }
    }
    hide Deleting, Inventory, ReceiptOf;
  }

  lemma DeletingIntent(sort: set<Path> -> seq<Path>, w: World, kind: Kind, date: Date, r: Receipt, revision: nat,
                       luck: PruneLuck)
    requires Sorted(sort, Inventory(w.local, kind, date)) && luck.closes
    ensures var (outcome, w') := Deleting(sort, w, kind, date, r, revision, luck);
            outcome.Removed? || outcome.Stopped? ==>
              && (kind, date) in w'.intents
              && var i := w'.intents[(kind, date)];
                 && (outcome.Removed? <==> i.status == Complete) && (outcome.Stopped? <==> i.status == Interrupted)
                 && i.deleted == outcome.unlinked && i.kind == kind && i.date == date
                 && |w'.pruned| == |w.pruned| + |i.deleted|
                 && (forall k :: 0 <= k < |i.deleted| ==>
                       && w'.pruned[|w.pruned| + k].path == i.deleted[k]
                       && w'.pruned[|w.pruned| + k].revision == i.revision)
  {
    hide Inventory;
  }

  /******* Runs of the maintenance process *******/

  /** How a backup goes: how many remote operations succeed, which remote files the remote has hashed
      itself, what others do before each operation, and whether the history is written at the end. */
  datatype BackupLuck = BackupLuck(operations: nat, hashed: set<Path>, others: nat -> Disturbance, recorded: bool)

  function Head(remote: seq<Snapshot>): Snapshot {
    if remote == [] then map[] else remote[|remote| - 1]
  }

  ghost predicate SameAt(a: Snapshot, b: Snapshot, p: Path) {
    (p in a <==> p in b) && (p in a ==> a[p] == b[p])
  }

  /** Everything but the receipts, which the maintenance process alone writes. */
  ghost predicate SameFiles(a: Snapshot, b: Snapshot) {
    forall p: Path :: !p.ReceiptFile? ==> SameAt(a, b, p)
  }

  /** Local files are as they were or as others last left them. */
  ghost predicate FilesFrom(local: Snapshot, local': Snapshot, luck: BackupLuck) {
    SameFiles(local, local') || exists k: nat :: SameFiles(luck.others(k).local, local')
  }

  /** So is the spool. */
  ghost predicate SpoolFrom(spool: set<(Feed, Date)>, spool': set<(Feed, Date)>, luck: BackupLuck) {
    spool' == spool || exists k: nat :: luck.others(k).spool == spool'
  }

  /** A revision is one of the others' or changes one of our own paths in the revision before it. */
  ghost predicate RevisionFrom(remote: seq<Snapshot>, i: nat, own: set<Path>, luck: BackupLuck)
    requires i < |remote|
  {
    || (exists k: nat :: remote[i] in luck.others(k).commits)
    || (exists p :: p in own && p in remote[i] && remote[i] == Head(remote[..i])[p := remote[i][p]])
  }

  ghost predicate RevisionsFrom(remote: seq<Snapshot>, remote': seq<Snapshot>, own: set<Path>, luck: BackupLuck) {
    remote <= remote' && forall i :: |remote| <= i < |remote'| ==> RevisionFrom(remote', i, own, luck)
  }

  /** What a backup of one date may do to the world: it adds revisions of its own paths, others do what
      they do, and a receipt is either not written at all or records a verified revision. A success may
      be an older receipt. */
  ghost predicate BackedUp(repo: string, w: World, w': World, date: Date, own: set<Path>, luck: BackupLuck,
                           success: bool) {
    && w'.pruned == w.pruned && w'.intents == w.intents && SpoolFrom(w.spool, w'.spool, luck)
    && RevisionsFrom(w.remote, w'.remote, own, luck) && FilesFrom(w.local, w'.local, luck)
    && (forall d :: d != date ==> ReceiptOf(w'.local, d) == ReceiptOf(w.local, d))
    && (ReceiptOf(w'.local, date) == ReceiptOf(w.local, date) || NewReceipt(repo, w', date))
    && (success ==> date in Confirmed(repo, w'.local))
  }

  /** Dates with a verified receipt of the current kind. */
  function Confirmed(repo: string, local: Snapshot): set<Date> {
    set p | p in local && p.ReceiptFile? && local[p].ReceiptDoc?
            && local[p].receipt.version == 2 && local[p].receipt.remoteVerified && local[p].receipt.repo == repo
            && local[p].receipt.date == p.date && local[p].receipt.artifacts != [] :: p.date
  }

  lemma ConfirmedMeaning(repo: string, local: Snapshot, d: Date)
    ensures d in Confirmed(repo, local) <==>
            && ReceiptFile(d) in local && local[ReceiptFile(d)].ReceiptDoc?
            && var r := local[ReceiptFile(d)].receipt;
               r.version == 2 && r.remoteVerified && r.repo == repo && r.date == d && r.artifacts != []
  {
    assert ReceiptFile(d).date == d;
  }

  ghost predicate NewReceipt(repo: string, w: World, date: Date) {
    ReceiptOf(w.local, date).Some? &&
    var r := ReceiptOf(w.local, date).value;
    ReceiptSound(repo, date, r) && r.remoteRevision.Some? && ReceiptHolds(w, r)
  }

  /** Every file a receipt lists is at the revision it pins, with the digest it records. */
  ghost predicate ReceiptHolds(w: World, r: Receipt) {
    r.remoteRevision.Some? ==>
      && 0 <= r.remoteRevision.value < |w.remote|
      && forall a :: a in r.artifacts ==> Matches(w.remote[r.remoteRevision.value], a)
  }

  ghost predicate Inv(w: World) {
    && PrunedSafe(w)
    && forall d :: ReceiptOf(w.local, d).Some? ==> ReceiptHolds(w, ReceiptOf(w.local, d).value)
  }

  datatype Event =
    | Prune(kind: Kind, date: Date, luck: PruneLuck)
    | Backup(date: Date, own: set<Path>, backup: BackupLuck, success: bool)
    | Others(disturbance: Disturbance)
    | Spooled(spool: set<(Feed, Date)>)

  ghost predicate Next(repo: string, sort: set<Path> -> seq<Path>, w: World, e: Event, w': World)
    requires Sorts(sort)
  {
    match e
    case Prune(kind, date, luck) => w' == Pruning(repo, sort, w, kind, date, luck).1
    case Backup(date, own, backup, success) =>
      BackedUp(repo, w, w', date, own, backup, success) && (date in Confirmed(repo, w.local) ==> w' == w)
    case Others(d) => w' == Disturbed(w, d)
    case Spooled(spool) => w' == w.(spool := spool)
  }

  lemma DisturbedReceipts(w: World, d: Disturbance, date: Date)
    ensures ReceiptOf(Disturbed(w, d).local, date) == ReceiptOf(w.local, date)
  {
  }

  lemma PruneKeepsReceipts(repo: string, sort: set<Path> -> seq<Path>, w: World, kind: Kind, date: Date,
                           luck: PruneLuck, d: Date)
    requires Sorts(sort)
    ensures ReceiptOf(Pruning(repo, sort, w, kind, date, luck).1.local, d) == ReceiptOf(w.local, d)
  {
    var w1 := Disturbed(w, luck.disturbance);
    DisturbedReceipts(w, luck.disturbance, d);
    hide Disturbed, LocalEvidence, AllMatch, Unchanged;
    assert Sorted(sort, Inventory(w1.local, kind, date));
    if ReceiptOf(w.local, date).Some? && LocalEvidence(repo, w, kind, date, ReceiptOf(w.local, date).value)
       && RemoteEvidence(w, kind, date, ReceiptOf(w.local, date).value) && !luck.intent.IntentFailed? {
      var _, gone := DeletingLeaves(sort, w1, kind, date, ReceiptOf(w.local, date).value,
                                    PinnedRevision(w, ReceiptOf(w.local, date).value), luck);
      assert ReceiptFile(d) !in gone;
    }
    hide Deleting;
  }

  lemma NextKeepsInv(repo: string, sort: set<Path> -> seq<Path>, w: World, e: Event, w': World)
    requires Sorts(sort) && Inv(w) && Next(repo, sort, w, e, w')
    ensures Inv(w') && w.remote <= w'.remote
  {
    match e
    case Prune(kind, date, luck) =>
      PruneKeepsSafe(repo, sort, w, kind, date, luck);
      forall d
        ensures ReceiptOf(w'.local, d) == ReceiptOf(w.local, d)
      {
        PruneKeepsReceipts(repo, sort, w, kind, date, luck, d);
      }
      hide Pruning, Sorts, ReceiptOf;
    case Backup(date, _, backup, _) =>
      MoreRevisionsSafe(w, w');
      hide ReceiptOf, ReceiptSound, RevisionFrom, FilesFrom;
    case Others(d) =>
      MoreRevisionsSafe(w, w');
      forall date
        ensures ReceiptOf(w'.local, date) == ReceiptOf(w.local, date)
      {
        DisturbedReceipts(w, d, date);
      }
      hide Disturbed, ReceiptOf;
    case Spooled(spool) =>
      MoreRevisionsSafe(w, w');
  }

  /** The worlds of a run, one before each event and one at the end. */
  ghost predicate Runs(repo: string, sort: set<Path> -> seq<Path>, ws: seq<World>, events: seq<Event>)
    requires Sorts(sort)
  {
    |ws| == |events| + 1 && forall i :: 0 <= i < |events| ==> Next(repo, sort, ws[i], events[i], ws[i + 1])
  }

  /** In every reachable state everything the pruner ever unlinked is at an immutable revision with
      the content it had, and every receipt that pins a revision describes that revision. */
  lemma {:induction false} RunKeepsInv(repo: string, sort: set<Path> -> seq<Path>, ws: seq<World>, events: seq<Event>,
                                       n: nat)
    requires Sorts(sort) && Runs(repo, sort, ws, events) && n < |ws| && Inv(ws[0])
    ensures Inv(ws[n])
  {
    hide Inv, Next, Sorts;
    if n > 0 {
      RunKeepsInv(repo, sort, ws, events, n - 1);
      NextKeepsInv(repo, sort, ws[n - 1], events[n - 1], ws[n]);
    }
  }

  /** Others leave a date alone: its files, manifest and receipt stay, and its receipt stays at the
      head of the remote. They may do anything to every other file. */
  ghost predicate Spared(w: World, d: Disturbance, kind: Kind, date: Date, r: Receipt) {
    Untouched(w, Disturbed(w, d), kind, date) && forall s :: s in d.commits ==> HeadKeeps(s, kind, date, r)
  }

  /** What a date's evidence at the head of the remote consists of. */
  function HeadPaths(kind: Kind, date: Date, r: Receipt): set<Path> {
    {ReceiptFile(date)} + if r.remoteRevision.None? then Paths(Expected(r, kind)) else {}
  }

  /** No condition on prunes or backups themselves but that what others do meanwhile spares the date,
      and that a backup of another date does not upload this date's evidence. */
  ghost predicate Spares(repo: string, w: World, e: Event, kind: Kind, date: Date, r: Receipt) {
    match e
    case Prune(_, _, luck) => Spared(w, luck.disturbance, kind, date, r)
    case Backup(d, own, backup, _) =>
      d != date ==> own !! HeadPaths(kind, date, r) && forall k :: Spared(w, backup.others(k), kind, date, r)
    case Others(d) => Spared(w, d, kind, date, r)
    case Spooled(_) => true
  }

  lemma SparedKept(repo: string, w: World, d: Disturbance, kind: Kind, date: Date, r: Receipt)
    requires Ready(repo, w, kind, date, r) && Spared(w, d, kind, date, r)
    ensures Untouched(w, Disturbed(w, d), kind, date) && RemoteKept(w, Disturbed(w, d), kind, date, r)
    ensures Ready(repo, Disturbed(w, d), kind, date, r)
  {
    var w1 := Disturbed(w, d);
    assert w1.intents == w.intents && w1.remote == w.remote + d.commits;
    AcceptsKept(repo, w.(spool := {}), kind, date, r);
    hide Disturbed, Ready;
    assert d.commits != [] ==> w1.remote[|w1.remote| - 1] == d.commits[|d.commits| - 1];
    hide HeadKeeps;
    DisturbedIsReady(repo, w, w1, kind, date, r);
  }

  lemma AcceptsKept(repo: string, w: World, kind: Kind, date: Date, r: Receipt)
    requires Accepts(repo, w, kind, date, r)
    ensures RemoteKept(w, w, kind, date, r)
    ensures date in Confirmed(repo, w.local)
  {
    assert ReceiptFile(date) in w.local;
  }

  /** A prune of another kind or date touches neither files nor intent of this one. */
  lemma PruneElsewhere(repo: string, sort: set<Path> -> seq<Path>, w: World, k: Kind, d: Date, luck: PruneLuck,
                       kind: Kind, date: Date)
    requires Sorts(sort) && (k != kind || d != date)
    ensures var w', w1 := Pruning(repo, sort, w, k, d, luck).1, Disturbed(w, luck.disturbance);
            w' == w ||
            (&& Untouched(w1, w', kind, date) && w'.spool == w1.spool && w'.remote == w1.remote
             && ((kind, date) in w'.intents <==> (kind, date) in w1.intents)
             && ((kind, date) in w1.intents ==> w'.intents[(kind, date)] == w1.intents[(kind, date)]))
  {
    var w1 := Disturbed(w, luck.disturbance);
    hide Disturbed, LocalEvidence, AllMatch, Unchanged;
    assert Sorted(sort, Inventory(w1.local, k, d));
    var w' := Pruning(repo, sort, w, k, d, luck).1;
    if w' != w && w' != w1 {
      var r := ReceiptOf(w.local, d).value;
      var gone := DeletingElsewhere(sort, w1, k, d, r, PinnedRevision(w, r), luck);
      hide Deleting, Pruning;
      ShrankBy(w1, w', kind, date, gone);
    }
  }

  lemma DeletingElsewhere(sort: set<Path> -> seq<Path>, w: World, k: Kind, d: Date, r: Receipt, revision: nat,
                          luck: PruneLuck)
    returns (gone: set<Path>)
    requires Sorted(sort, Inventory(w.local, k, d))
    ensures var w' := Deleting(sort, w, k, d, r, revision, luck).1;
            && gone <= Inventory(w.local, k, d) && w'.local == w.local - gone
            && w'.remote == w.remote && w'.spool == w.spool
            && (forall key :: key != (k, d) ==> (key in w'.intents <==> key in w.intents))
            && (forall key :: key != (k, d) && key in w.intents ==> w'.intents[key] == w.intents[key])
  {
    if luck.intent.IntentFailed? {
      gone := {};
      assert w.local - {} == w.local;
    } else {
      var w';
      w', gone := DeletingLeaves(sort, w, k, d, r, revision, luck);
    }
  }

  /** The head still has a date's evidence after a backup of another date. */
  lemma {:induction false} BackupKeepsHead(remote: seq<Snapshot>, remote': seq<Snapshot>, own: set<Path>,
                                           luck: BackupLuck, kind: Kind, date: Date, r: Receipt, n: nat)
    requires RevisionsFrom(remote, remote', own, luck) && own !! HeadPaths(kind, date, r)
    requires remote != [] && HeadKeeps(Head(remote), kind, date, r)
    requires forall k, s :: s in luck.others(k).commits ==> HeadKeeps(s, kind, date, r)
    requires |remote| <= n <= |remote'|
    ensures HeadKeeps(Head(remote'[..n]), kind, date, r)
    decreases n
  {
    if n == |remote| {
      assert remote'[..n] == remote;
    } else {
      BackupKeepsHead(remote, remote', own, luck, kind, date, r, n - 1);
      assert Head(remote'[..n]) == remote'[n - 1] && RevisionFrom(remote', n - 1, own, luck);
      var before := Head(remote'[..n - 1]);
      if p :| p in own && p in remote'[n - 1] && remote'[n - 1] == before[p := remote'[n - 1][p]] {
        HeadKeepsOther(before, p, remote'[n - 1][p], kind, date, r);
      }
    }
  }

  lemma HeadKeepsOther(head: Snapshot, p: Path, c: Content, kind: Kind, date: Date, r: Receipt)
    requires HeadKeeps(head, kind, date, r) && p !in HeadPaths(kind, date, r)
    ensures HeadKeeps(head[p := c], kind, date, r)
  {
    if r.remoteRevision.None? {
      forall a | a in Expected(r, kind)
        ensures Matches(head[p := c], a)
      {
        assert a.path in Paths(Expected(r, kind)) && Matches(head, a);
      }
    }
  }

  lemma SameAsDisturbed(w: World, d: Disturbance, w': World)
    requires SameFiles(d.local, w'.local)
    ensures SameFiles(Disturbed(w, d).local, w'.local)
  {
    var w1 := Disturbed(w, d);
    forall p: Path | !p.ReceiptFile?
      ensures SameAt(w1.local, w'.local, p)
    {
      assert SameAt(d.local, w'.local, p);
    }
  }

  /** The files a date's prune looks at are those others left. */
  lemma BackupLeavesFiles(w: World, w': World, luck: BackupLuck, kind: Kind, date: Date)
    requires FilesFrom(w.local, w'.local, luck) && ReceiptOf(w'.local, date) == ReceiptOf(w.local, date)
    requires forall k :: Untouched(w, Disturbed(w, luck.others(k)), kind, date)
    ensures Untouched(w, w', kind, date)
  {
    if SameFiles(w.local, w'.local) {
      SameIsUntouched(w, w, w', kind, date);
    } else {
      var k: nat :| SameFiles(luck.others(k).local, w'.local);
      SameAsDisturbed(w, luck.others(k), w');
      hide Disturbed, SameFiles, OnlyShrank;
      SameIsUntouched(w, Disturbed(w, luck.others(k)), w', kind, date);
    }
  }

  lemma SameIsUntouched(w: World, w1: World, w': World, kind: Kind, date: Date)
    requires SameFiles(w1.local, w'.local) && Untouched(w, w1, kind, date)
    requires ReceiptOf(w'.local, date) == ReceiptOf(w.local, date)
    ensures Untouched(w, w', kind, date)
  {
    forall p: Path | !p.ReceiptFile?
      ensures (p in w1.local <==> p in w'.local) && (p in w1.local ==> w1.local[p] == w'.local[p])
    {
      assert SameAt(w1.local, w'.local, p);
    }
    assert ManifestFile(date) in w.local ==> SameAt(w1.local, w'.local, ManifestFile(date));
    assert Inventory(w'.local, kind, date) == Inventory(w1.local, kind, date);
    hide ReceiptOf, SameFiles;
  }

  lemma BackupKeepsAccepted(repo: string, w: World, w': World, d: Date, own: set<Path>, luck: BackupLuck, success: bool,
                            kind: Kind, date: Date, r: Receipt)
    requires Accepts(repo, w, kind, date, r) && BackedUp(repo, w, w', d, own, luck, success) && d != date
    requires own !! HeadPaths(kind, date, r) && forall k :: Spared(w, luck.others(k), kind, date, r)
    requires SpoolClear(w'.spool, date)
    ensures Accepts(repo, w', kind, date, r)
  {
    AcceptsKept(repo, w, kind, date, r);
    hide Accepts, Disturbed, HeadKeeps, HeadPaths, ReceiptOf, Inventory;
    BackupLeavesFiles(w, w', luck, kind, date);
    assert forall k, s :: s in luck.others(k).commits ==> Spared(w, luck.others(k), kind, date, r);
    BackupKeepsHead(w.remote, w'.remote, own, luck, kind, date, r, |w'.remote|);
    assert w'.remote[..|w'.remote|] == w'.remote;
    SameEvidence(repo, w, w', kind, date, r);
  }

  /** An untouched date stays accepted. */
  lemma SameEvidence(repo: string, w: World, w': World, kind: Kind, date: Date, r: Receipt)
    requires Accepts(repo, w, kind, date, r) && Untouched(w, w', kind, date) && SpoolClear(w'.spool, date)
    requires (kind, date) in w.intents ==>
               (kind, date) in w'.intents && w'.intents[(kind, date)] == w.intents[(kind, date)]
    requires RemoteKept(w, w', kind, date, r)
    ensures Accepts(repo, w', kind, date, r)
  {
    ResumptionAccepted(repo, w, kind, date, r, w');
  }

  lemma SparedWithoutSpool(w: World, d: Disturbance, kind: Kind, date: Date, r: Receipt)
    ensures Spared(w.(spool := {}), d, kind, date, r) <==> Spared(w, d, kind, date, r)
  {
    hide HeadKeeps;
  }

  lemma PruneKeepsReady(repo: string, sort: set<Path> -> seq<Path>, w: World, k: Kind, d: Date, luck: PruneLuck,
                        kind: Kind, date: Date, r: Receipt)
    requires Sorts(sort) && Ready(repo, w, kind, date, r) && Spared(w, luck.disturbance, kind, date, r)
    ensures Ready(repo, Pruning(repo, sort, w, k, d, luck).1, kind, date, r)
  {
    var w', w1 := Pruning(repo, sort, w, k, d, luck).1, Disturbed(w, luck.disturbance);
    ReadyIsAccepted(repo, w, kind, date, r);
    ReadyIsAccepted(repo, w', kind, date, r);
    SparedKept(repo, w, luck.disturbance, kind, date, r);
    if k == kind && d == date {
      if SpoolClear(w.spool, date) {
        InterruptedIsAccepted(repo, sort, w, kind, date, r, luck);
      } else {
        assert w' == w;
      }
    } else {
      hide Accepts, Spared, Disturbed, Pruning, Untouched, RemoteKept, SpoolClear;
      PruneElsewhere(repo, sort, w, k, d, luck, kind, date);
      if w' != w {
        UntouchedWithoutSpool(w1, w', kind, date);
        StillAccepted(repo, w1.(spool := {}), w'.(spool := {}), kind, date, r);
      }
    }
  }

  lemma UntouchedWithoutSpool(w: World, w': World, kind: Kind, date: Date)
    requires Untouched(w, w', kind, date)
    ensures Untouched(w.(spool := {}), w'.(spool := {}), kind, date)
  {
  }

  lemma BackupWithoutSpool(repo: string, w: World, w': World, d: Date, own: set<Path>, luck: BackupLuck, success: bool)
    requires BackedUp(repo, w, w', d, own, luck, success)
    ensures BackedUp(repo, w.(spool := {}), w'.(spool := {}), d, own, luck, success)
  {
    hide RevisionsFrom, FilesFrom, ReceiptOf, Confirmed, ReceiptSound;
  }

  lemma NextKeepsReady(repo: string, sort: set<Path> -> seq<Path>, w: World, e: Event, w': World,
                       kind: Kind, date: Date, r: Receipt)
    requires Sorts(sort) && Next(repo, sort, w, e, w')
    requires Ready(repo, w, kind, date, r) && Spares(repo, w, e, kind, date, r)
    ensures Ready(repo, w', kind, date, r)
  {
    var w0 := w.(spool := {});
    match e
    case Prune(k, d, luck) =>
      hide Ready, Spared, Pruning;
      PruneKeepsReady(repo, sort, w, k, d, luck, kind, date, r);
    case Backup(d, own, backup, success) =>
      AcceptsKept(repo, w0, kind, date, r);
      if d != date {
        BackupWithoutSpool(repo, w, w', d, own, backup, success);
        forall k: nat
          ensures Spared(w0, backup.others(k), kind, date, r)
        {
          SparedWithoutSpool(w, backup.others(k), kind, date, r);
        }
        hide Accepts, Spared, BackedUp, HeadPaths, Confirmed, RemoteKept;
        BackupKeepsAccepted(repo, w0, w'.(spool := {}), d, own, backup, success, kind, date, r);
      }
    case Others(d) =>
      hide Ready, Spared, Disturbed, Untouched, RemoteKept;
      SparedKept(repo, w, d, kind, date, r);
    case Spooled(spool) =>
  }

  lemma StillAccepted(repo: string, w: World, w': World, kind: Kind, date: Date, r: Receipt)
    requires Accepts(repo, w, kind, date, r) && Untouched(w, w', kind, date)
    requires w'.spool == w.spool && w'.remote == w.remote
    requires (kind, date) in w.intents ==>
               (kind, date) in w'.intents && w'.intents[(kind, date)] == w.intents[(kind, date)]
    ensures Accepts(repo, w', kind, date, r)
  {
    AcceptsKept(repo, w, kind, date, r);
    SameEvidence(repo, w, w', kind, date, r);
  }

  lemma {:induction false} ReadyStaysReady(repo: string, sort: set<Path> -> seq<Path>, ws: seq<World>,
                                           events: seq<Event>, n: nat, kind: Kind, date: Date, r: Receipt)
    requires Sorts(sort) && Runs(repo, sort, ws, events) && n < |ws| && Ready(repo, ws[0], kind, date, r)
    requires forall i :: 0 <= i < |events| ==> Spares(repo, ws[i], events[i], kind, date, r)
    ensures Ready(repo, ws[n], kind, date, r)
  {
    hide Ready, Next, Sorts, Spares;
    if n > 0 {
      ReadyStaysReady(repo, sort, ws, events, n - 1, kind, date, r);
      NextKeepsReady(repo, sort, ws[n - 1], events[n - 1], ws[n], kind, date, r);
    }
  }

  /** However a run of prunes (of this date too, cut short anywhere), backups, collector writes, foreign
      commits and staging goes, as long as what others do leaves this date alone: a date the pruner
      accepted is accepted again at any point of the run at which no row of it waits in the spool. An
      interrupted date can always be resumed. */
  lemma AcceptedStaysAccepted(repo: string, sort: set<Path> -> seq<Path>, ws: seq<World>, events: seq<Event>, n: nat,
                              kind: Kind, date: Date, r: Receipt)
    requires Sorts(sort) && Runs(repo, sort, ws, events) && n < |ws| && Accepts(repo, ws[0], kind, date, r)
    requires forall i :: 0 <= i < |events| ==> Spares(repo, ws[i], events[i], kind, date, r)
    ensures Accepts(repo, ws[n], kind, date, r) <==> SpoolClear(ws[n].spool, date)
  {
    ReadyIsAccepted(repo, ws[0], kind, date, r);
    ReadyIsAccepted(repo, ws[n], kind, date, r);
    hide Ready, Accepts, Next, Sorts, Spares, Runs, SpoolClear;
    ReadyStaysReady(repo, sort, ws, events, n, kind, date, r);
  }

  /** So the first prune of it with a healthy remote and a clear spool, whenever it comes, removes
      whatever is left. */
  lemma InterruptedIsFinished(repo: string, sort: set<Path> -> seq<Path>, ws: seq<World>, events: seq<Event>, n: nat,
                              kind: Kind, date: Date, r: Receipt, luck: PruneLuck)
    requires Sorts(sort) && Runs(repo, sort, ws, events) && n < |ws| && Accepts(repo, ws[0], kind, date, r)
    requires forall i :: 0 <= i < |events| ==> Spares(repo, ws[i], events[i], kind, date, r)
    requires SpoolClear(ws[n].spool, date) && SpoolClear(luck.disturbance.spool, date)
    requires luck.network && Spared(ws[n], luck.disturbance, kind, date, r)
    requires luck.intent.IntentLogged? && luck.closes
    requires luck.unlinks >= |sort(Inventory(ws[n].local, kind, date))|
    ensures var (outcome, w') := Pruning(repo, sort, ws[n], kind, date, luck);
            && Inventory(w'.local, kind, date) == {}
            && (outcome.Removed? <==> Inventory(ws[n].local, kind, date) != {})
  {
    AcceptedStaysAccepted(repo, sort, ws, events, n, kind, date, r);
    hide Next, Spares, Runs, Sorts, Disturbed;
    if Inventory(ws[n].local, kind, date) != {} {
      AcceptedIsPruned(repo, sort, ws[n], kind, date, r, luck);
    }
  }

  /******* The maintenance process *******/

  function ManifestArtifact(local: Snapshot, date: Date): Artifact
    requires ManifestFile(date) in local
  {
    Artifact(ManifestFile(date), Metadata, Digest(local[ManifestFile(date)]))
  }

  /** Nobody else does anything. */
  ghost predicate Quiet(luck: BackupLuck, local: Snapshot) {
    forall i :: luck.others(i).local == local && luck.others(i).commits == []
  }

  /** A complete, sound manifest of the date whose artifacts are the local files. */
  ghost predicate Backable(local: Snapshot, date: Date, manifest: Manifest) {
    && manifest.complete && manifest.sound && manifest.date == date && ManifestFile(date) in local
    && forall a :: a in manifest.artifacts ==> Matches(local, a)
  }

  /** Revisions are added, files are ours or what others left, receipts and the rest stay. */
  ghost predicate Grew(w: World, w': World, own: set<Path>, luck: BackupLuck) {
    && RevisionsFrom(w.remote, w'.remote, own, luck) && FilesFrom(w.local, w'.local, luck)
    && w'.pruned == w.pruned && w'.intents == w.intents && SpoolFrom(w.spool, w'.spool, luck)
    && forall d :: ReceiptOf(w'.local, d) == ReceiptOf(w.local, d)
  }

  lemma OthersGrew(w: World, luck: BackupLuck, k: nat, own: set<Path>)
    ensures Grew(w, Disturbed(w, luck.others(k)), own, luck)
  {
    var w' := Disturbed(w, luck.others(k));
    forall d
      ensures ReceiptOf(w'.local, d) == ReceiptOf(w.local, d)
    {
      DisturbedReceipts(w, luck.others(k), d);
    }
    forall p: Path | !p.ReceiptFile?
      ensures SameAt(luck.others(k).local, w'.local, p)
    {
    }
    assert FilesFrom(w.local, w'.local, luck);
    forall i | |w.remote| <= i < |w'.remote|
      ensures RevisionFrom(w'.remote, i, own, luck)
    {
      assert w'.remote[i] == luck.others(k).commits[i - |w.remote|];
    }
    hide ReceiptOf, FilesFrom, RevisionsFrom;
  }

  lemma UploadGrew(w: World, w': World, path: Path, content: Content, own: set<Path>, luck: BackupLuck)
    requires path in own && w' == w.(remote := w.remote + [Head(w.remote)[path := content]])
    ensures Grew(w, w', own, luck)
  {
    var n := |w.remote|;
    assert w'.remote[..n] == w.remote;
    assert path in w'.remote[n] && w'.remote[n] == Head(w'.remote[..n])[path := w'.remote[n][path]];
    assert RevisionFrom(w'.remote, n, own, luck);
    assert SameFiles(w.local, w'.local);
  }

  lemma GrewTwice(w: World, w1: World, w': World, own: set<Path>, luck: BackupLuck)
    requires Grew(w, w1, own, luck) && Grew(w1, w', own, luck)
    ensures Grew(w, w', own, luck)
  {
    FilesTwice(w.local, w1.local, w'.local, luck);
    RevisionsTwice(w.remote, w1.remote, w'.remote, own, luck);
    hide FilesFrom, RevisionsFrom, ReceiptOf;
  }

  lemma FilesTwice(a: Snapshot, b: Snapshot, c: Snapshot, luck: BackupLuck)
    requires FilesFrom(a, b, luck) && FilesFrom(b, c, luck)
    ensures FilesFrom(a, c, luck)
  {
    if SameFiles(b, c) {
      if SameFiles(a, b) {
        SameTwice(a, b, c);
      } else {
        var k: nat :| SameFiles(luck.others(k).local, b);
        SameTwice(luck.others(k).local, b, c);
      }
    }
  }

  lemma SameTwice(a: Snapshot, b: Snapshot, c: Snapshot)
    requires SameFiles(a, b) && SameFiles(b, c)
    ensures SameFiles(a, c)
  {
    forall p: Path | !p.ReceiptFile?
      ensures SameAt(a, c, p)
    {
      assert SameAt(a, b, p) && SameAt(b, c, p);
    }
  }

  lemma RevisionsTwice(a: seq<Snapshot>, b: seq<Snapshot>, c: seq<Snapshot>, own: set<Path>, luck: BackupLuck)
    requires RevisionsFrom(a, b, own, luck) && RevisionsFrom(b, c, own, luck)
    ensures RevisionsFrom(a, c, own, luck)
  {
    forall i | |a| <= i < |c|
      ensures RevisionFrom(c, i, own, luck)
    {
      if i < |b| {
        assert RevisionFrom(b, i, own, luck);
        assert c[i] == b[i] && c[..i] == b[..i];
      }
    }
  }

  /** Nothing at all has happened. */
  lemma SameGrew(repo: string, w: World, date: Date, own: set<Path>, luck: BackupLuck)
    ensures Grew(w, w, own, luck)
    ensures BackedUp(repo, w, w, date, own, luck, date in Confirmed(repo, w.local))
    ensures BackedUp(repo, w, w, date, own, luck, false)
  {
    assert SameFiles(w.local, w.local);
  }

  lemma GrewHolds(w: World, w': World, own: set<Path>, luck: BackupLuck, r: Receipt)
    requires Grew(w, w', own, luck) && ReceiptHolds(w, r)
    ensures ReceiptHolds(w', r)
  {
    hide RevisionFrom, FilesFrom;
  }

  lemma NoReceiptWritten(repo: string, w: World, w': World, date: Date, own: set<Path>, luck: BackupLuck)
    requires Grew(w, w', own, luck)
    ensures BackedUp(repo, w, w', date, own, luck, false)
  {
    hide ReceiptOf, RevisionsFrom, FilesFrom;
  }

  lemma ReceiptWritten(repo: string, w: World, w1: World, w': World, date: Date, receipt: Receipt, own: set<Path>,
                       luck: BackupLuck, success: bool)
    requires Grew(w, w1, own, luck) && w' == w1.(local := w1.local[ReceiptFile(date) := ReceiptDoc(receipt)])
    requires ReceiptSound(repo, date, receipt) && receipt.remoteRevision.Some? && ReceiptHolds(w1, receipt)
    ensures BackedUp(repo, w, w', date, own, luck, success) && NewReceipt(repo, w', date)
    ensures ReceiptOf(w'.local, date) == Some(receipt)
  {
    assert SameFiles(w1.local, w'.local);
    FilesTwice(w.local, w1.local, w'.local, luck);
    hide RevisionsFrom, FilesFrom, SameFiles;
    assert ReceiptOf(w'.local, date) == Some(receipt);
    assert forall d :: d != date ==> ReceiptOf(w'.local, d) == ReceiptOf(w1.local, d);
    assert ReceiptFile(date) in w'.local && date in Confirmed(repo, w'.local);
    assert ReceiptHolds(w', receipt);
    hide Confirmed, ReceiptSound, ReceiptHolds, ReceiptOf;
  }

  /** What a backup may upload: the manifest's artifacts, the manifest and the receipt. */
  function BackupPaths(date: Date, manifest: Manifest): set<Path> {
    (set a | a in manifest.artifacts :: a.path) + {ManifestFile(date), ReceiptFile(date)}
  }

  /** The receipt has an entry for everything in the manifest and for the manifest itself, and no others. */
  ghost predicate ListsManifest(r: Receipt, date: Date, manifest: Manifest) {
    && (forall a :: a in manifest.artifacts ==> exists b :: b in r.artifacts && b.path == a.path)
    && (forall b :: b in r.artifacts ==> b in manifest.artifacts || b.path == ManifestFile(date))
    && (exists b :: b in r.artifacts && b.path == ManifestFile(date) && b.sha256 == r.manifestSha)
  }

  lemma AlreadyThere(artifacts: seq<Artifact>, hashed: set<Path>, head: Snapshot, already: set<Path>)
    requires DistinctPaths(artifacts)
    requires already == set a | a in artifacts && a.path in hashed && Matches(head, a) :: a.path
    ensures forall j :: 0 <= j < |artifacts| && artifacts[j].path in already ==> Matches(head, artifacts[j])
  {
    forall j | 0 <= j < |artifacts| && artifacts[j].path in already
      ensures Matches(head, artifacts[j])
    {
      var a :| a in artifacts && a.path in hashed && Matches(head, a) && a.path == artifacts[j].path;
      var i :| 0 <= i < |artifacts| && artifacts[i] == a;
    }
  }

  lemma SameElements(kept: seq<Artifact>, a: Artifact)
    requires forall i :: 0 <= i < |kept| ==> kept[i] == a
    ensures |kept| > 1 ==> !DistinctPaths(kept)
  {
    if |kept| > 1 {
      assert kept[0].path == kept[1].path;
    }
  }

  /** Distinct elements of a list are no more than the list. */
  lemma {:induction false} FewArtifacts(kept: seq<Artifact>, all: seq<Artifact>, last: Artifact)
    requires DistinctPaths(kept) && forall b :: b in kept ==> b in all || b == last
    ensures |kept| <= |all| + 1
    decreases |all|
  {
    if all == [] {
      assert forall i :: 0 <= i < |kept| ==> kept[i] in kept;
      SameElements(kept, last);
    } else {
      var front, a := all[..|all| - 1], all[|all| - 1];
      if a in kept && a != last {
        var i :| 0 <= i < |kept| && kept[i] == a;
        var rest := kept[..i] + kept[i + 1..];
        forall b | b in rest
          ensures b in front || b == last
        {
          assert b in kept && b.path != a.path;
          assert all == front + [a];
        }
        FewArtifacts(rest, front, last);
      } else {
        FewArtifacts(kept, front, last);
      }
    }
  }

  class Maintenance {
    const repo: string
    const sort: set<Path> -> seq<Path>
    var local: Snapshot
    var intents: map<(Kind, Date), Intent>
    var spool: set<(Feed, Date)>
    var remote: seq<Snapshot>
    ghost var pruned: seq<Pruned>

    ghost function View(): World
      reads this
    {
      World(local, intents, spool, remote, pruned)
    }

    constructor (repo: string, sort: set<Path> -> seq<Path>, local: Snapshot, spool: set<(Feed, Date)>,
                 remote: seq<Snapshot>)
      ensures this.repo == repo && this.sort == sort
      ensures View() == World(local, map[], spool, remote, [])
    {
      this.repo, this.sort, this.local, this.spool, this.remote := repo, sort, local, spool, remote;
      this.intents := map[];
      this.pruned := [];
    }

    method ValidateLocal(artifacts: seq<Artifact>) returns (ok: bool)
      ensures ok <==> forall a :: a in artifacts ==> Matches(local, a)
    {
      for i := 0 to |artifacts|
        invariant forall j :: 0 <= j < i ==> Matches(local, artifacts[j])
      {
        if artifacts[i].path !in local || Digest(local[artifacts[i].path]) != artifacts[i].sha256 {
          assert artifacts[i] in artifacts;
          return false;
        }
      }
      return true;
    }

    /** Asks for the paths a hundred at a time, then compares every artifact with what came back. */
    method VerifyRemote(artifacts: seq<Artifact>, revision: int) returns (ok: bool)
      ensures ok <==> 0 <= revision < |remote| && forall a :: a in artifacts ==> Matches(remote[revision], a)
    {
      if !(0 <= revision < |remote|) {
        return false;
      }
      var snapshot := remote[revision];
      var returned: Snapshot := map[];
      var start := 0;
      while start < |artifacts|
        invariant 0 <= start <= |artifacts|
        invariant forall p :: p in returned ==> p in snapshot && returned[p] == snapshot[p]
        invariant forall j :: 0 <= j < start && artifacts[j].path in snapshot ==> artifacts[j].path in returned
      {
        var end := if start + 100 <= |artifacts| then start + 100 else |artifacts|;
        var batch := artifacts[start..end];
        var infos := map p | p in snapshot && exists a :: a in batch && a.path == p :: snapshot[p];
        forall j | start <= j < end && artifacts[j].path in snapshot
          ensures artifacts[j].path in infos
        {
          assert batch[j - start] in batch;
        }
        returned := returned + infos;
        start := end;
      }
      for i := 0 to |artifacts|
        invariant forall j :: 0 <= j < i ==> Matches(snapshot, artifacts[j])
      {
        var a := artifacts[i];
        if a.path !in returned || Digest(returned[a.path]) != a.sha256 {
          assert !Matches(snapshot, a);
          return false;
        }
      }
      return true;
    }

    /** The artifacts by path, unless a path is there twice. */
    method IndexArtifacts(artifacts: seq<Artifact>) returns (ok: bool, indexed: map<Path, Artifact>)
      ensures ok <==> DistinctPaths(artifacts)
      ensures ok ==> forall a :: a in artifacts ==> a.path in indexed && indexed[a.path] == a
      ensures ok ==> forall p :: p in indexed ==> indexed[p] in artifacts && indexed[p].path == p
    {
      indexed := map[];
      for i := 0 to |artifacts|
        invariant forall k, j :: 0 <= k < j < i ==> artifacts[k].path != artifacts[j].path
        invariant forall j :: 0 <= j < i ==> artifacts[j].path in indexed && indexed[artifacts[j].path] == artifacts[j]
        invariant forall p :: p in indexed ==> indexed[p] in artifacts[..i] && indexed[p].path == p
      {
        if artifacts[i].path in indexed {
          assert indexed[artifacts[i].path] in artifacts[..i];
          return false, indexed;
        }
        indexed := indexed[artifacts[i].path := artifacts[i]];
        assert artifacts[..i + 1] == artifacts[..i] + [artifacts[i]];
      }
      assert artifacts[..|artifacts|] == artifacts;
      return true, indexed;
    }

    method Disturb(d: Disturbance)
      modifies `local, `spool, `remote
      ensures View() == Disturbed(old(View()), d)
    {
      var receipts := map p | p in local && p.ReceiptFile? :: local[p];
      local := (map p | p in d.local && !p.ReceiptFile? :: d.local[p]) + receipts;
      spool, remote := d.spool, remote + d.commits;
    }
  
    /** The checks that need no network; `candidates` are the receipt's entries for the files at hand. */
    method CheckLocal(kind: Kind, date: Date, actual: set<Path>)
      returns (evidence: Option<Receipt>, candidates: seq<Artifact>)
      requires Sorts(sort) && actual == Inventory(local, kind, date)
      requires SpoolClear(spool, date) && EntriesExpected(actual, kind)
      ensures evidence.Some? <==>
              ReceiptOf(local, date).Some? && LocalEvidence(repo, View(), kind, date, ReceiptOf(local, date).value)
      ensures evidence.Some? ==>
                && evidence == ReceiptOf(local, date)
                && forall a :: a in candidates <==> a in Candidates(View(), kind, date, evidence.value)
    {
      evidence, candidates := None, [];
      if ReceiptOf(local, date).None? {
        return;
      }
      var r := ReceiptOf(local, date).value;
      var distinct, indexed := IndexArtifacts(r.artifacts);
      if r.version != 2 || r.date != date || !r.remoteVerified || r.repo != repo || r.artifacts == [] || !distinct {
        return;
      }
      if !ManifestSound(local, date, r) {
        return;
      }
      var expected := Expected(r, kind);
      if !ExpectedSound(expected, kind, date) || !(actual <= Paths(expected)) {
        return;
      }
      if !(Paths(expected) <= actual) && !IntentFits(intents, kind, date, r) {
        return;
      }
      candidates := Entries(r, indexed, kind, actual);
      assert forall a :: a in candidates <==> a in Candidates(View(), kind, date, r);
      var ok := ValidateLocal(candidates);
      if ok {
        evidence := Some(r);
      }
    }

    /** The receipt's entries for the listed files, in sorted order. */
    method Entries(r: Receipt, indexed: map<Path, Artifact>, kind: Kind, actual: set<Path>)
      returns (candidates: seq<Artifact>)
      requires Sorts(sort) && actual <= Paths(Expected(r, kind))
      requires forall a :: a in r.artifacts ==> a.path in indexed && indexed[a.path] == a
      ensures forall a :: a in candidates <==> a in Expected(r, kind) && a.path in actual
    {
      assert Sorted(sort, actual);
      var names := sort(actual);
      candidates := [];
      for i := 0 to |names|
        invariant |candidates| == i
        invariant forall j :: 0 <= j < i ==> candidates[j] in Expected(r, kind) && candidates[j].path == names[j]
      {
        assert names[i] in Paths(Expected(r, kind));
        candidates := candidates + [indexed[names[i]]];
      }
      forall a | a in Expected(r, kind) && a.path in actual
        ensures a in candidates
      {
        assert a.path in names;
        var j :| 0 <= j < |names| && names[j] == a.path;
        assert indexed[candidates[j].path] == candidates[j];
        assert candidates[j] == a;
      }
    }

    /** Unlinks the listed files one by one. */
    method UnlinkFiles(paths: seq<Path>, revision: nat)
      requires forall p :: p in paths ==> p in local
      requires forall i, j :: 0 <= i < j < |paths| ==> paths[i] != paths[j]
      modifies `local, `pruned
      ensures View() == Unlink(old(View()), paths, revision)
    {
      ghost var w := View();
      for i := 0 to |paths|
        invariant local == w.local - (set p | p in paths[..i])
        invariant |pruned| == |w.pruned| + i && w.pruned <= pruned
        invariant forall j :: 0 <= j < i ==> pruned[|w.pruned| + j] == Pruned(paths[j], w.local[paths[j]], revision)
      {
        assert paths[i] in paths && paths[i] in local;
        pruned := pruned + [Pruned(paths[i], local[paths[i]], revision)];
        local := local - {paths[i]};
        assert paths[..i + 1] == paths[..i] + [paths[i]];
      }
      assert paths[..|paths|] == paths;
      assert pruned == Unlink(w, paths, revision).pruned;
    }

    method PruneDate(kind: Kind, date: Date, luck: PruneLuck) returns (outcome: PruneOutcome)
      requires Sorts(sort)
      modifies `local, `intents, `spool, `remote, `pruned
      ensures (outcome, View()) == Pruning(repo, sort, old(View()), kind, date, luck)
    {
      var actual := Inventory(local, kind, date);
      if !SpoolClear(spool, date) || !EntriesExpected(actual, kind) {
        return Refused;
      }
      if actual == {} {
        return Nothing;
      }
      var evidence, candidates := CheckLocal(kind, date, actual);
      if evidence.None? {
        return Refused;
      }
      var r := evidence.value;
      var verified := VerifyReceipt(kind, date, r);
      var revision := if r.remoteRevision.Some? then r.remoteRevision.value else |remote| - 1;
      ghost var w := View();
      Disturb(luck.disturbance);
      if !luck.network || !verified {
        return Refused;
      }
      var still := ValidateLocal(candidates);
      if !still || !SpoolClear(spool, date) || Inventory(local, kind, date) != actual
         || ReceiptOf(local, date) != Some(r) {
        assert !Unchanged(w, View(), kind, date, r);
        return Refused;
      }
      assert Unchanged(w, View(), kind, date, r);
      outcome := Delete(kind, date, r, revision, luck);
    }

    /** The receipt at the head, and everything it promises of this kind at the pinned revision. */
    method VerifyReceipt(kind: Kind, date: Date, r: Receipt) returns (ok: bool)
      requires Sorts(sort)
      ensures ok <==> RemoteEvidence(View(), kind, date, r)
    {
      var receipt := Artifact(ReceiptFile(date), Metadata, Digest(ReceiptDoc(r)));
      var atHead := VerifyRemote([receipt], |remote| - 1);
      var expected: seq<Artifact> := [];
      for i := 0 to |r.artifacts|
        invariant forall a :: a in expected <==> a in r.artifacts[..i] && a.kind == kind
      {
        assert r.artifacts[..i + 1] == r.artifacts[..i] + [r.artifacts[i]];
        if r.artifacts[i].kind == kind {
          expected := expected + [r.artifacts[i]];
        }
      }
      assert r.artifacts[..|r.artifacts|] == r.artifacts;
      var pinned := VerifyRemote(expected, if r.remoteRevision.Some? then r.remoteRevision.value else |remote| - 1);
      ok := atHead && pinned;
      assert receipt in [receipt];
    }

    method Delete(kind: Kind, date: Date, r: Receipt, revision: nat, luck: PruneLuck) returns (outcome: PruneOutcome)
      requires Sorts(sort)
      modifies `local, `intents, `pruned
      ensures Sorted(sort, Inventory(old(local), kind, date))
      ensures (outcome, View()) == Deleting(sort, old(View()), kind, date, r, revision, luck)
    {
      assert Sorted(sort, Inventory(local, kind, date));
      if luck.intent.IntentFailed? {
        return Refused;
      }
      var planned := Paths(Expected(r, kind));
      var all := sort(Inventory(local, kind, date));
      intents := intents[(kind, date) := Intent(kind, date, Digest(ReceiptDoc(r)), revision, planned, Validated, [])];
      if luck.intent.IntentOnly? {
        return Refused;
      }
      var n := if luck.unlinks <= |all| then luck.unlinks else |all|;
      assert forall p :: p in all[..n] ==> p in all;
      UnlinkFiles(all[..n], revision);
      if luck.closes {
        var status := if n == |all| then Complete else Interrupted;
        var closing := Intent(kind, date, Digest(ReceiptDoc(r)), revision, planned, status, all[..n]);
        intents := intents[(kind, date) := closing];
      }
      outcome := if n == |all| && luck.closes then Removed(all[..n]) else Stopped(all[..n]);
    }
  
    /** One entry a path; a later one replaces an earlier one. */
    method Deduplicate(all: seq<Artifact>) returns (kept: map<Path, Artifact>)
      requires all != []
      ensures forall p :: p in kept ==> kept[p].path == p && kept[p] in all
      ensures forall a :: a in all ==> a.path in kept
      ensures kept[all[|all| - 1].path] == all[|all| - 1]
    {
      kept := map[];
      for i := 0 to |all|
        invariant forall p :: p in kept ==> kept[p].path == p && kept[p] in all
        invariant forall j :: 0 <= j < i ==> all[j].path in kept
        invariant i > 0 ==> kept[all[i - 1].path] == all[i - 1]
      {
        kept := kept[all[i].path := all[i]];
      }
    }

    /** The manifest's artifacts and the manifest itself, one entry a path, in sorted order. */
    method LocalArtifacts(date: Date, manifest: Manifest) returns (artifacts: seq<Artifact>)
      requires Sorts(sort) && ManifestFile(date) in local
      ensures DistinctPaths(artifacts)
      ensures ManifestArtifact(local, date) in artifacts
      ensures forall a :: a in manifest.artifacts ==> exists b :: b in artifacts && b.path == a.path
      ensures forall b :: b in artifacts ==> b in manifest.artifacts || b == ManifestArtifact(local, date)
    {
      var all := manifest.artifacts + [ManifestArtifact(local, date)];
      assert all[|all| - 1] == ManifestArtifact(local, date);
      var kept := Deduplicate(all);
      assert Sorted(sort, kept.Keys);
      var names := sort(kept.Keys);
      assert forall k :: 0 <= k < |names| ==> names[k] in names;
      artifacts := seq(|names|, i requires 0 <= i < |names| => kept[names[i]]);
      forall p | p in kept
        ensures kept[p] in artifacts
      {
        assert p in names;
        var k :| 0 <= k < |names| && names[k] == p;
        assert artifacts[k] == kept[p];
      }
      hide Sorted, Sorts;
      forall a | a in manifest.artifacts
        ensures exists b :: b in artifacts && b.path == a.path
      {
        assert a in all;
        assert kept[a.path] in artifacts;
      }
    }

    /** Our own paths and what others do are added, and nothing the maintenance process relies on changes. */
    twostate predicate OnlyGrew(own: set<Path>, luck: BackupLuck)
      reads this
    {
      Grew(old(View()), View(), own, luck)
    }

    /** What others do before a remote operation, and whether the operation works. */
    method Operation(luck: BackupLuck, done: nat, ghost own: set<Path>) returns (ok: bool)
      modifies `local, `spool, `remote
      ensures OnlyGrew(own, luck)
      ensures ok <==> done < luck.operations
      ensures Quiet(luck, old(local)) ==> local == old(local) && remote == old(remote)
    {
      if luck.others(done).local == local && luck.others(done).commits == [] {
        Undisturbed(View(), luck.others(done));
      }
      Disturb(luck.others(done));
      OthersGrew(old(View()), luck, done, own);
      ok := done < luck.operations;
    }

    /** Adds a revision in which `path` holds `content`. */
    method Upload(path: Path, content: Content)
      modifies `remote
      ensures remote == old(remote) + [Head(old(remote))[path := content]]
    {
      remote := remote + [Head(remote)[path := content]];
    }

    /** Uploads whatever the remote has not already got under a matching hash of its own. Every revision
        it adds changes one artifact in the revision before it, or is somebody else's. Left alone, it
        leaves a head that holds every artifact. */
    method UploadAll(artifacts: seq<Artifact>, ghost own: set<Path>, luck: BackupLuck) returns (ok: bool, done: nat)
      requires forall a :: a in artifacts ==> a.path in own
      modifies `local, `spool, `remote
      ensures OnlyGrew(own, luck) && done <= |artifacts| + 1
      ensures Quiet(luck, old(local)) && luck.operations > |artifacts| && DistinctPaths(artifacts)
              && (forall a :: a in artifacts ==> Matches(old(local), a)) ==>
                && ok && local == old(local)
                && forall a :: a in artifacts ==> Matches(Head(remote), a)
    {
      ghost var quiet := Quiet(luck, local) && luck.operations > |artifacts| && DistinctPaths(artifacts)
                         && forall a :: a in artifacts ==> Matches(local, a);
      ok := Operation(luck, 0, own);
      done := 1;
      if !ok {
        return;
      }
      var already := set a | a in artifacts && a.path in luck.hashed && Matches(Head(remote), a) :: a.path;
      assert quiet ==> forall j :: 0 <= j < |artifacts| && artifacts[j].path in already ==>
                                     Matches(Head(remote), artifacts[j]) by {
        if quiet {
          AlreadyThere(artifacts, luck.hashed, Head(remote), already);
        }
      }
      for i := 0 to |artifacts|
        invariant OnlyGrew(own, luck) && 0 < done <= i + 1
        invariant quiet ==> local == old(local)
        invariant quiet ==> forall j :: 0 <= j < |artifacts| && (j < i || artifacts[j].path in already) ==>
                                          Matches(Head(remote), artifacts[j])
      {
        if artifacts[i].path !in already {
          assert artifacts[i] in artifacts;
          ghost var w1 := View();
          ok := Operation(luck, done, own);
          done := done + 1;
          ghost var w2 := View();
          GrewTwice(old(View()), w1, w2, own, luck);
          if !ok || artifacts[i].path !in local {
            assert artifacts[i] in artifacts;
            return false, done;
          }
          assert quiet ==> Matches(local, artifacts[i]) by {
            assert artifacts[i] in artifacts;
          }
          Upload(artifacts[i].path, local[artifacts[i].path]);
          UploadGrew(w2, View(), artifacts[i].path, local[artifacts[i].path], own, luck);
          GrewTwice(old(View()), w2, View(), own, luck);
        }
      }
      ok := true;
    }

    /** Writes the receipt where it counts only after every artifact, and then the receipt itself, has
        been read back from the remote; a failure after that still leaves a good receipt. Left alone
        by others and by the network, a sound date is confirmed. */
    method BackupDate(date: Date, manifest: Manifest, luck: BackupLuck) returns (success: bool)
      requires Sorts(sort)
      modifies `local, `spool, `remote
      ensures BackedUp(repo, old(View()), View(), date, BackupPaths(date, manifest), luck, success)
      ensures old(date in Confirmed(repo, local)) ==> success && View() == old(View())
      ensures !old(date in Confirmed(repo, local)) && success ==>
                NewReceipt(repo, View(), date) && ListsManifest(ReceiptOf(local, date).value, date, manifest)
      ensures (Backable(old(local), date, manifest) && Quiet(luck, old(local)) && luck.recorded
               && luck.operations > |manifest.artifacts| + 5) ==> success
    {
      ghost var healthy := Backable(local, date, manifest) && Quiet(luck, local)
                           && luck.operations > |manifest.artifacts| + 5;
      hide Grew, BackedUp, RevisionsFrom, RevisionFrom, FilesFrom, SameFiles, NewReceipt;
      ghost var w, own := View(), BackupPaths(date, manifest);
      SameGrew(repo, w, date, own, luck);
      if date in Confirmed(repo, local) {
        return true;
      }
      if !manifest.complete || manifest.date != date || !manifest.sound || ManifestFile(date) !in local {
        return false;
      }
      var artifacts := LocalArtifacts(date, manifest);
      var valid := ValidateLocal(artifacts);
      if !valid {
        return false;
      }
      FewArtifacts(artifacts, manifest.artifacts, ManifestArtifact(local, date));
      var ok, done := UploadAll(artifacts, own, luck);
      assert healthy ==> ok && local == old(local);
      NoReceiptWritten(repo, w, View(), date, own, luck);
      if !ok {
        return false;
      }
      ghost var uploaded := View();
      ok := Operation(luck, done, own);
      GrewTwice(w, uploaded, View(), own, luck);
      NoReceiptWritten(repo, w, View(), date, own, luck);
      var revision := |remote| - 1;
      var verified := VerifyRemote(artifacts, revision);
      valid := ValidateLocal(artifacts);
      if !ok || !verified || !valid {
        assert artifacts != [];
        return false;
      }
      var receipt := Receipt(2, date, repo, true, Some(revision), Digest(local[ManifestFile(date)]), artifacts);
      assert ManifestArtifact(old(local), date) in artifacts && Matches(local, ManifestArtifact(old(local), date));
      success := RecordReceipt(date, receipt, w, own, luck, done + 1);
    }

    /** The last part of a backup that began in the world `w`. */
    method RecordReceipt(date: Date, receipt: Receipt, ghost w: World, ghost own: set<Path>, luck: BackupLuck,
                         done: nat)
      returns (success: bool)
      requires ReceiptFile(date) in own && Grew(w, View(), own, luck)
      requires ReceiptSound(repo, date, receipt) && receipt.remoteRevision.Some? && ReceiptHolds(View(), receipt)
      modifies `local, `spool, `remote
      ensures BackedUp(repo, w, View(), date, own, luck, success)
      ensures success ==> NewReceipt(repo, View(), date) && ReceiptOf(local, date) == Some(receipt)
      ensures Quiet(luck, old(local)) && luck.operations > done + 1 && luck.recorded ==> success
    {
      hide ReceiptSound, Grew, BackedUp, RevisionsFrom, ReceiptOf, NewReceipt, Disturbed;
      ghost var w0 := View();
      var ok := Operation(luck, done, own);
      ghost var w1 := View();
      GrewTwice(w, w0, w1, own, luck);
      if !ok {
        NoReceiptWritten(repo, w, w1, date, own, luck);
        return false;
      }
      Upload(ReceiptFile(date), ReceiptDoc(receipt));
      ghost var w2 := View();
      UploadGrew(w1, w2, ReceiptFile(date), ReceiptDoc(receipt), own, luck);
      GrewTwice(w, w1, w2, own, luck);
      ok := Operation(luck, done + 1, own);
      ghost var w3 := View();
      GrewTwice(w, w2, w3, own, luck);
      var copy := Artifact(ReceiptFile(date), Metadata, Digest(ReceiptDoc(receipt)));
      var atHead := VerifyRemote([copy], |remote| - 1);
      if !ok || !atHead {
        assert copy in [copy];
        NoReceiptWritten(repo, w, w3, date, own, luck);
        return false;
      }
      GrewHolds(w0, w1, own, luck, receipt);
      GrewHolds(w1, w2, own, luck, receipt);
      GrewHolds(w2, w3, own, luck, receipt);
      local := local[ReceiptFile(date) := ReceiptDoc(receipt)];
      success := luck.recorded;
      ReceiptWritten(repo, w, w3, View(), date, receipt, own, luck, success);
    }

    /** Prunes every confirmed date older than the cutoff; a refused date does not keep the next from
        its turn. While another pass holds the lock, nothing is done. */
    method PruneConfirmed(kind: Kind, afterDays: int, today: int, enabled: bool, locked: bool, dates: seq<Date>,
                          luck: nat -> PruneLuck)
      requires Sorts(sort) && kind != Metadata
      requires forall d :: d in dates <==> d in Confirmed(repo, local)
      modifies `local, `intents, `spool, `remote, `pruned
      ensures View() == if afterDays <= 0 || !enabled || locked then old(View())
                        else PruningAll(repo, sort, old(View()), kind, today - afterDays, dates, luck)
    {
      if afterDays <= 0 || !enabled || locked {
        return;
      }
      for i := 0 to |dates|
        invariant View() == PruningAll(repo, sort, old(View()), kind, today - afterDays, dates[..i], luck)
      {
        assert dates[..i + 1][..i] == dates[..i];
        if dates[i] < today - afterDays {
          hide Pruning;
          var _ := PruneDate(kind, dates[i], luck(i));
        }
      }
      assert dates[..|dates|] == dates;
    }
  }

  /** A pass keeps every unlinked file safe and unlinks only files of its kind, of listed dates before the cutoff. */
  lemma {:induction false} PassIsSafe(repo: string, sort: set<Path> -> seq<Path>, w: World, kind: Kind, cutoff: int,
                                      dates: seq<Date>, luck: nat -> PruneLuck)
    requires Sorts(sort) && PrunedSafe(w)
    ensures var w' := PruningAll(repo, sort, w, kind, cutoff, dates, luck);
            && PrunedSafe(w') && w.remote <= w'.remote && w.pruned <= w'.pruned
            && forall i :: |w.pruned| <= i < |w'.pruned| ==>
                 && w'.pruned[i].path.Partition? && w'.pruned[i].path.kind == kind
                 && w'.pruned[i].path.date in dates && w'.pruned[i].path.date < cutoff
  {
    if dates != [] {
      var n := |dates| - 1;
      PassIsSafe(repo, sort, w, kind, cutoff, dates[..n], luck);
      var w1 := PruningAll(repo, sort, w, kind, cutoff, dates[..n], luck);
      if dates[n] < cutoff {
        hide Pruning, PrunedSafe;
        PruneKeepsSafe(repo, sort, w1, kind, dates[n], luck(n));
        PruneTouchesOneDate(repo, sort, w1, kind, dates[n], luck(n));
      }
    }
  }

  /** The pass spares the date at its every step, and nobody stages rows of it. */
  ghost predicate PassSpares(repo: string, sort: set<Path> -> seq<Path>, w: World, kind: Kind, cutoff: int,
                             dates: seq<Date>, luck: nat -> PruneLuck, date: Date, r: Receipt)
    requires Sorts(sort)
  {
    forall m :: 0 <= m < |dates| && dates[m] < cutoff ==>
      && Spared(PruningAll(repo, sort, w, kind, cutoff, dates[..m], luck), luck(m).disturbance, kind, date, r)
      && SpoolClear(luck(m).disturbance.spool, date)
  }

  ghost predicate Healthy(sort: set<Path> -> seq<Path>, luck: PruneLuck) {
    luck.network && luck.intent.IntentLogged? && luck.closes
  }

  lemma PruneKeepsClear(repo: string, sort: set<Path> -> seq<Path>, w: World, kind: Kind, d: Date, luck: PruneLuck,
                        date: Date)
    requires Sorts(sort) && SpoolClear(w.spool, date) && SpoolClear(luck.disturbance.spool, date)
    ensures SpoolClear(Pruning(repo, sort, w, kind, d, luck).1.spool, date)
  {
    var w1 := Disturbed(w, luck.disturbance);
    assert w1.spool == luck.disturbance.spool;
    hide Disturbed, LocalEvidence, RemoteEvidence, Unchanged, SpoolClear;
    assert Sorted(sort, Inventory(w1.local, kind, d));
    DeletingSpool(sort, w1, kind, d, luck);
  }

  lemma DeletingSpool(sort: set<Path> -> seq<Path>, w: World, kind: Kind, d: Date, luck: PruneLuck)
    requires Sorted(sort, Inventory(w.local, kind, d))
    ensures forall r: Receipt, revision: nat :: Deleting(sort, w, kind, d, r, revision, luck).1.spool == w.spool
  {
    hide Inventory, NewIntent;
  }

  /** Until its turn an accepted date stays accepted. */
  lemma {:induction false} WaitsItsTurn(repo: string, sort: set<Path> -> seq<Path>, w: World, kind: Kind, cutoff: int,
                                        dates: seq<Date>, luck: nat -> PruneLuck, n: nat, date: Date, r: Receipt)
    requires Sorts(sort) && Accepts(repo, w, kind, date, r) && n <= |dates|
    requires PassSpares(repo, sort, w, kind, cutoff, dates, luck, date, r)
    ensures Accepts(repo, PruningAll(repo, sort, w, kind, cutoff, dates[..n], luck), kind, date, r)
  {
    hide *;
    if n == 0 {
      assert dates[..0] == [];
      NoTurn(repo, sort, w, kind, cutoff, luck);
    } else {
      WaitsItsTurn(repo, sort, w, kind, cutoff, dates, luck, n - 1, date, r);
      PassStep(repo, sort, w, kind, cutoff, dates, luck, n - 1);
      SparesTurn(repo, sort, w, kind, cutoff, dates, luck, n - 1, date, r);
      var w1 := PruningAll(repo, sort, w, kind, cutoff, dates[..n - 1], luck);
      if dates[n - 1] < cutoff {
        ReadyIsAccepted(repo, w1, kind, date, r);
        PruneKeepsReady(repo, sort, w1, kind, dates[n - 1], luck(n - 1), kind, date, r);
        PruneKeepsClear(repo, sort, w1, kind, dates[n - 1], luck(n - 1), date);
        ReadyIsAccepted(repo, Pruning(repo, sort, w1, kind, dates[n - 1], luck(n - 1)).1, kind, date, r);
      }
    }
  }

  lemma NoTurn(repo: string, sort: set<Path> -> seq<Path>, w: World, kind: Kind, cutoff: int, luck: nat -> PruneLuck)
    requires Sorts(sort)
    ensures PruningAll(repo, sort, w, kind, cutoff, [], luck) == w
  {
  }

  lemma PassStep(repo: string, sort: set<Path> -> seq<Path>, w: World, kind: Kind, cutoff: int, dates: seq<Date>,
                 luck: nat -> PruneLuck, n: nat)
    requires Sorts(sort) && n < |dates|
    ensures var w1 := PruningAll(repo, sort, w, kind, cutoff, dates[..n], luck);
            PruningAll(repo, sort, w, kind, cutoff, dates[..n + 1], luck) ==
            if dates[n] >= cutoff then w1 else Pruning(repo, sort, w1, kind, dates[n], luck(n)).1
  {
    assert dates[..n + 1][..n] == dates[..n];
    hide Pruning;
  }

  /** A pass gives every confirmed date before the cutoff its turn: one that is accepted when the pass
      begins has lost its last file when it ends, if its own turn is healthy, however the others' turns go. */
  lemma {:induction false} PassPrunes(repo: string, sort: set<Path> -> seq<Path>, w: World, kind: Kind, cutoff: int,
                                      dates: seq<Date>, luck: nat -> PruneLuck, i: nat, n: nat, r: Receipt)
    requires Sorts(sort) && i < n <= |dates| && dates[i] < cutoff && Accepts(repo, w, kind, dates[i], r)
    requires forall a, b :: 0 <= a < b < |dates| ==> dates[a] != dates[b]
    requires PassSpares(repo, sort, w, kind, cutoff, dates, luck, dates[i], r) && Healthy(sort, luck(i))
    requires var turn := PruningAll(repo, sort, w, kind, cutoff, dates[..i], luck);
             luck(i).unlinks >= |sort(Inventory(turn.local, kind, dates[i]))|
    ensures Inventory(PruningAll(repo, sort, w, kind, cutoff, dates[..n], luck).local, kind, dates[i]) == {}
    decreases n
  {
    hide *;
    var w1 := PruningAll(repo, sort, w, kind, cutoff, dates[..n - 1], luck);
    PassStep(repo, sort, w, kind, cutoff, dates, luck, n - 1);
    SparesTurn(repo, sort, w, kind, cutoff, dates, luck, n - 1, dates[i], r);
    if n - 1 == i {
      WaitsItsTurn(repo, sort, w, kind, cutoff, dates, luck, i, dates[i], r);
      TurnPrunes(repo, sort, w1, kind, dates[i], r, luck(i));
    } else {
      PassPrunes(repo, sort, w, kind, cutoff, dates, luck, i, n - 1, r);
      if dates[n - 1] < cutoff {
        TurnElsewhere(repo, sort, w1, kind, dates[n - 1], luck(n - 1), dates[i], r);
      }
    }
  }

  lemma SparesTurn(repo: string, sort: set<Path> -> seq<Path>, w: World, kind: Kind, cutoff: int, dates: seq<Date>,
                   luck: nat -> PruneLuck, m: nat, date: Date, r: Receipt)
    requires Sorts(sort) && PassSpares(repo, sort, w, kind, cutoff, dates, luck, date, r) && m < |dates|
    ensures dates[m] < cutoff ==>
              && Spared(PruningAll(repo, sort, w, kind, cutoff, dates[..m], luck), luck(m).disturbance, kind, date, r)
              && SpoolClear(luck(m).disturbance.spool, date)
  {
    hide PruningAll, Spared, SpoolClear;
  }

  lemma TurnPrunes(repo: string, sort: set<Path> -> seq<Path>, w: World, kind: Kind, date: Date, r: Receipt,
                   luck: PruneLuck)
    requires Sorts(sort) && Accepts(repo, w, kind, date, r) && Spared(w, luck.disturbance, kind, date, r)
    requires SpoolClear(luck.disturbance.spool, date) && Healthy(sort, luck)
    requires luck.unlinks >= |sort(Inventory(w.local, kind, date))|
    ensures Inventory(Pruning(repo, sort, w, kind, date, luck).1.local, kind, date) == {}
  {
    if Inventory(w.local, kind, date) != {} {
      AcceptedIsPruned(repo, sort, w, kind, date, r, luck);
    }
    hide Inventory, Accepts, Spared;
  }

  /** What is gone stays gone while another date has its turn. */
  lemma TurnElsewhere(repo: string, sort: set<Path> -> seq<Path>, w: World, kind: Kind, d: Date, luck: PruneLuck,
                      date: Date, r: Receipt)
    requires Sorts(sort) && d != date && Inventory(w.local, kind, date) == {}
    requires Spared(w, luck.disturbance, kind, date, r)
    ensures Inventory(Pruning(repo, sort, w, kind, d, luck).1.local, kind, date) == {}
  {
    PruneElsewhere(repo, sort, w, kind, d, luck, kind, date);
    hide Pruning, Inventory, Disturbed, OnlyShrank;
  }
}
