/** The presence stream on its files: appends that are cut short, repair of one date's file before each
    append to it, repair of two dates' files at startup, and what the manifest makes of each date. */
module PresenceLogs {
  import opened Common
  import RawLog
  import opened Presence

  /** An observation is stored as Presence.Stored says; a start of the process repairs today's file and
      the latest earlier one. */
  datatype Event =
    | Observation(rows: seq<Row>, full: bool, day: Day, record: Record, stamp: RawLog.Stamp,
                  repair: RawLog.RepairFate, append: RawLog.AppendFate)
    | Gap
    | Startup(streamId: Id, today: Day, repairs: Day -> RawLog.RepairFate)

  /** The files, with the records whose bytes all arrived in each. */
  type Files = map<Day, RawLog.World>

  /** `torn` are the dates whose file may end in part of a record. */
  datatype Disk = Disk(stream: World, files: Files, torn: set<Day>)

  const NO_LOG: RawLog.World := RawLog.World(NO_FILES, false, [])

  function FileAt(files: Files, day: Day): RawLog.World {
    if day in files then files[day] else NO_LOG
  }

  predicate Stores(e: Event) {
    e.Observation? && e.full && !AnyDeleted(e.rows)
  }

  function LogsOf(files: Files): map<Day, RawLog.LogFiles> {
    map d | d in files :: files[d].log
  }

  /** Today's file, or the latest earlier one there is. */
  predicate Recent(logs: map<Day, RawLog.LogFiles>, day: Day, today: Day) {
    && day in logs && logs[day].present
    && (day == today || (day < today && forall d :: d in logs && logs[d].present && d < today ==> d <= day))
  }

  /** `recent_partition_files`, the dates in any order. */
  method RecentPartitionFiles(logs: map<Day, RawLog.LogFiles>, today: Day) returns (recent: set<Day>)
    ensures forall d :: d in recent <==> Recent(logs, d, today)
  {
    var prior: Option<Day> := None;
    var remaining := logs.Keys;
    while remaining != {}
      invariant remaining <= logs.Keys
      invariant prior.Some? ==> prior.value in logs && logs[prior.value].present && prior.value < today
      invariant forall d :: d in logs && d !in remaining && logs[d].present && d < today ==>
                              prior.Some? && d <= prior.value
      decreases |remaining|
    {
      var d :| d in remaining;
      remaining := remaining - {d};
      if logs[d].present && d < today && (prior.None? || d > prior.value) {
        prior := Some(d);
      }
    }
    recent := if prior.Some? then {prior.value} else {};
    if today in logs && logs[today].present {
      recent := recent + {today};
    }
  }

  function Recovered(c: Codec, logs: map<Day, RawLog.LogFiles>, today: Day, repairs: Day -> RawLog.RepairFate)
    : map<Day, RawLog.LogFiles>
  {
    map d | d in logs :: if Recent(logs, d, today) then RawLog.Repaired(c.z, logs[d], repairs(d)).1 else logs[d]
  }

  /** `recover_recent_journal_tails` for the presence logs: a repair that raises does not keep the other
      file from its own. */
  method RecoverRecent(c: Codec, logs: map<Day, RawLog.LogFiles>, today: Day, repairs: Day -> RawLog.RepairFate)
    returns (recovered: map<Day, RawLog.LogFiles>)
    ensures recovered == Recovered(c, logs, today, repairs)
  {
    hide RawLog.Repaired;
    var remaining := RecentPartitionFiles(logs, today);
    recovered := logs;
    while remaining != {}
      invariant forall d :: d in remaining ==> Recent(logs, d, today)
      invariant recovered.Keys == logs.Keys
      invariant forall d :: d in logs ==>
                  recovered[d] == if Recent(logs, d, today) && d !in remaining
                                  then RawLog.Repaired(c.z, logs[d], repairs(d)).1 else logs[d]
      decreases |remaining|
    {
      var d :| d in remaining;
      remaining := remaining - {d};
      recovered := recovered[d := RawLog.Repaired(c.z, recovered[d], repairs(d)).1];
    }
  }

  /** The repair comes before the append, whether the file needs it or not. */
  function Append(c: Codec, w: RawLog.World, e: Event): RawLog.World
    requires e.Observation?
  {
    RawLog.Next(c.z, w.(needsRepair := true), RawLog.Archive(Framed(c, e.stamp, e.record), true, e.repair, e.append))
  }

  function FilesAfter(c: Codec, files: Files, e: Event): Files {
    match e
    case Observation(_, _, day, _, _, _, _) =>
      if Stores(e) then files[day := Append(c, FileAt(files, day), e)] else files
    case Gap => files
    case Startup(_, today, repairs) =>
      map d | d in files ::
        if Recent(LogsOf(files), d, today) then RawLog.Next(c.z, files[d], RawLog.Restart(repairs(d))) else files[d]
  }

  /** The repair gets as far as cutting an invalid tail. */
  predicate Cuts(fate: RawLog.RepairFate) {
    fate.Truncated? || fate.Finished?
  }

  predicate PartArrives(c: Codec, e: Event)
    requires e.Observation?
  {
    var raw := Framed(c, e.stamp, e.record);
    RawLog.Storable(c.z, raw) && 0 < e.append.reached < |RawLog.Frame(c.z, raw)|
  }

  /** An append leaves a torn tail when part of its record arrives, and a repair leaves one that it does
      not get round to cutting. Nothing else touches a file. */
  function TornAfter(c: Codec, files: Files, torn: set<Day>, e: Event): set<Day> {
    match e
    case Observation(_, _, day, _, _, repair, _) =>
      if !Stores(e) then torn else
      var failed := RawLog.Repaired(c.z, FileAt(files, day).log, repair).0.Failed?;
      if (day in torn && !Cuts(repair)) || (!failed && PartArrives(c, e)) then torn + {day} else torn - {day}
    case Gap => torn
    case Startup(_, today, repairs) => torn - (set d | d in torn && Recent(LogsOf(files), d, today) && Cuts(repairs(d)))
  }

  /** What the event is to the stream. */
  function ActionOf(c: Codec, files: Files, e: Event): Action {
    match e
    case Observation(rows, full, day, r, stamp, repair, append) =>
      Observe(rows, full, day, r, Stored(c, FileAt(files, day).log, stamp, r, repair, append).1)
    case Gap => Invalidate
    case Startup(streamId, _, _) => Restart(streamId)
  }

  function Step(c: Codec, d: Disk, e: Event): Disk {
    Disk(Presence.Next(d.stream, ActionOf(c, d.files, e)), FilesAfter(c, d.files, e), TornAfter(c, d.files, d.torn, e))
  }

  function RunDisk(c: Codec, streamId: Id, events: seq<Event>): Disk {
    if events == [] then Disk(Begin(streamId), map[], {}) else
    Step(c, RunDisk(c, streamId, events[..|events| - 1]), events[|events| - 1])
  }

  function Actions(c: Codec, streamId: Id, events: seq<Event>): seq<Action> {
    if events == [] then [] else
    var front, e := events[..|events| - 1], events[|events| - 1];
    Actions(c, streamId, front) + [ActionOf(c, RunDisk(c, streamId, front).files, e)]
  }

  lemma {:induction false} DiskFollowsStream(c: Codec, streamId: Id, events: seq<Event>)
    ensures RunDisk(c, streamId, events).stream == Run(streamId, Actions(c, streamId, events))
  {
    if events != [] {
      var front, e := events[..|events| - 1], events[|events| - 1];
      DiskFollowsStream(c, streamId, front);
      var a := ActionOf(c, RunDisk(c, streamId, front).files, e);
      assert (Actions(c, streamId, front) + [a])[..|Actions(c, streamId, front)|] == Actions(c, streamId, front);
      hide Presence.Next, ActionOf, FilesAfter, TornAfter;
    }
  }

  /** A date's file holds the stream's records of that date, and a torn tail exactly when it is said to. */
  ghost predicate FileInv(c: Codec, w: RawLog.World, log: seq<Record>, torn: bool) {
    && RawLog.Sound(c.z, w)
    && |log| == |w.complete|
    && (forall i :: 0 <= i < |log| ==> c.load(w.complete[i].record.payload) == Some(log[i]))
    && (torn <==> HasTail(c, w))
  }

  ghost predicate HasTail(c: Codec, w: RawLog.World) {
    RawLog.AllStorable(c.z, RawLog.Records(w.complete)) ==>
      w.log.file != RawLog.EncodeAll(c.z, RawLog.Records(w.complete))
  }

  /******* What one repair or append does to the tail *******/

  lemma RepairAndTail(c: Codec, w: RawLog.World, fate: RawLog.RepairFate)
    requires RawLog.Lossless(c.z) && RawLog.Sound(c.z, w)
    ensures var (outcome, l) := RawLog.Repaired(c.z, w.log, fate);
            var w' := RawLog.World(l, outcome.Failed?, w.complete);
            && RawLog.Sound(c.z, w')
            && (HasTail(c, w') <==> HasTail(c, w) && !Cuts(fate))
            && (HasTail(c, w') ==> outcome.Failed?)
  {
    var k :| RawLog.Inv(c.z, w, k);
    var k' := RawLog.RepairKeepsRecords(c.z, w, k, fate);
    RawLog.KeptIsComplete(c.z, w, k);
    var rs := RawLog.Records(w.complete);
    var whole := RawLog.EncodeAll(c.z, rs);
    assert w.log.file[..|whole|] == whole;
    assert w.log.file[|whole|..] == [] <==> w.log.file == whole;
    hide RawLog.EncodeAll, RawLog.Records, RawLog.Kept, RawLog.Torn;
  }

  lemma AppendAndTail(c: Codec, w: RawLog.World, r: RawLog.Record, fate: RawLog.AppendFate)
    requires RawLog.Lossless(c.z) && RawLog.Sound(c.z, w) && !w.needsRepair
    ensures var whole := RawLog.Storable(c.z, r) && RawLog.FrameBytesReached(c.z, r, fate) == |RawLog.Frame(c.z, r)|;
            var reported := RawLog.Reported(c.z, r, true, fate);
            var entries := if whole then w.complete + [RawLog.Entry(r, reported)] else w.complete;
            var w' := RawLog.World(RawLog.Appended(c.z, w.log, r, true, fate), !reported, entries);
            && RawLog.Sound(c.z, w')
            && (HasTail(c, w') <==> RawLog.Storable(c.z, r) && 0 < fate.reached < |RawLog.Frame(c.z, r)|)
  {
    var k :| RawLog.Inv(c.z, w, k);
    var k' := RawLog.AppendExtendsRecords(c.z, w, k, r, true, fate);
    var rs := RawLog.Records(w.complete);
    if RawLog.Storable(c.z, r) {
      var f := RawLog.Frame(c.z, r);
      var n := RawLog.FrameBytesReached(c.z, r, fate);
      if n == |f| {
        RawLog.WholeAppend(c.z, w, r, true, fate);
        var rs' := RawLog.Records(w.complete + [RawLog.Entry(r, RawLog.Reported(c.z, r, true, fate))]);
        assert rs' == rs + [r] && rs'[..|rs|] == rs;
        assert RawLog.EncodeAll(c.z, rs') == RawLog.EncodeAll(c.z, rs) + f;
      } else {
        assert |f[..n]| == n;
      }
    }
    hide RawLog.EncodeAll, RawLog.Frame, RawLog.Records, RawLog.Torn;
  }

  lemma SoundAnyway(c: Codec, w: RawLog.World)
    requires RawLog.Sound(c.z, w)
    ensures RawLog.Sound(c.z, w.(needsRepair := true))
    ensures HasTail(c, w.(needsRepair := true)) <==> HasTail(c, w)
  {
    var k :| RawLog.Inv(c.z, w, k);
    assert RawLog.Inv(c.z, w.(needsRepair := true), k);
  }

  /** The tail after an observation is stored, and whether its record is among the complete ones. */
  lemma StoreAndTail(c: Codec, w: RawLog.World, e: Event)
    requires RawLog.Lossless(c.z) && RawLog.Sound(c.z, w) && e.Observation?
    ensures var w' := Append(c, w, e);
            var failed := RawLog.Repaired(c.z, w.log, e.repair).0.Failed?;
            && RawLog.Sound(c.z, w')
            && (HasTail(c, w') <==> (HasTail(c, w) && !Cuts(e.repair)) || (!failed && PartArrives(c, e)))
            && w'.log == Stored(c, w.log, e.stamp, e.record, e.repair, e.append).0
            && var fate := Stored(c, w.log, e.stamp, e.record, e.repair, e.append).1;
               w'.complete == if fate.Lost? then w.complete
                              else w.complete + [RawLog.Entry(Framed(c, e.stamp, e.record), fate.Written?)]
  {
    SoundAnyway(c, w);
    var w0 := w.(needsRepair := true);
    RepairAndTail(c, w0, e.repair);
    var (outcome, l) := RawLog.Repaired(c.z, w.log, e.repair);
    var w1 := RawLog.World(l, outcome.Failed?, w.complete);
    if !outcome.Failed? {
      AppendAndTail(c, w1, Framed(c, e.stamp, e.record), e.append);
    }
    hide RawLog.Repaired, RawLog.Appended, RawLog.Frame, RawLog.Sound, HasTail;
  }

  /******* Every run *******/

  lemma StoreKeepsFile(c: Codec, w: RawLog.World, log: seq<Record>, torn: bool, e: Event)
    requires Faithful(c) && FileInv(c, w, log, torn) && e.Observation?
    ensures var fate := Stored(c, w.log, e.stamp, e.record, e.repair, e.append).1;
            var failed := RawLog.Repaired(c.z, w.log, e.repair).0.Failed?;
            FileInv(c, Append(c, w, e), if fate.Lost? then log else log + [e.record],
                    (torn && !Cuts(e.repair)) || (!failed && PartArrives(c, e)))
  {
    StoreAndTail(c, w, e);
    hide Append, Stored, RawLog.Repaired, PartArrives, RawLog.Sound, HasTail;
  }

  lemma StartupKeepsFile(c: Codec, w: RawLog.World, log: seq<Record>, torn: bool, fate: RawLog.RepairFate)
    requires Faithful(c) && FileInv(c, w, log, torn)
    ensures FileInv(c, RawLog.Next(c.z, w, RawLog.Restart(fate)), log, torn && !Cuts(fate))
  {
    RepairAndTail(c, w, fate);
    hide RawLog.Repaired, RawLog.Sound, HasTail;
  }

  ghost predicate Inv(c: Codec, d: Disk) {
    forall day :: FileInv(c, FileAt(d.files, day), LogOf(d.stream.logs, day), day in d.torn)
  }

  lemma StepKeepsInv(c: Codec, d: Disk, e: Event)
    requires Faithful(c) && Inv(c, d)
    ensures Inv(c, Step(c, d, e))
  {
    var d' := Step(c, d, e);
    hide FileInv, Append, Stored, RawLog.Repaired, PartArrives, RawLog.Next, Faithful, AnyDeleted, Advance;
    forall day
      ensures FileInv(c, FileAt(d'.files, day), LogOf(d'.stream.logs, day), day in d'.torn)
    {
      var w, log := FileAt(d.files, day), LogOf(d.stream.logs, day);
      assert FileInv(c, w, log, day in d.torn);
      match e
      case Gap =>
      case Observation(_, _, _, _, _, _, _) =>
        if Stores(e) && day == e.day {
          StoreKeepsFile(c, w, log, day in d.torn, e);
        }
      case Startup(_, today, repairs) =>
        if Recent(LogsOf(d.files), day, today) {
          StartupKeepsFile(c, w, log, day in d.torn, repairs(day));
        }
    }
  }

  lemma NoLogInv(c: Codec)
    ensures FileInv(c, NO_LOG, [], false)
  {
    assert RawLog.Inv(c.z, NO_LOG, 0);
  }

  lemma {:induction false} RunKeepsFiles(c: Codec, streamId: Id, events: seq<Event>)
    requires Faithful(c)
    ensures Inv(c, RunDisk(c, streamId, events))
  {
    NoLogInv(c);
    hide FileInv, Step, Faithful;
    if events != [] {
      RunKeepsFiles(c, streamId, events[..|events| - 1]);
      StepKeepsInv(c, RunDisk(c, streamId, events[..|events| - 1]), events[|events| - 1]);
    }
  }

  /** What the methods do to the files at an event: `Store` to an observed date's, `RecoverRecent` to the
      recent ones when a process starts. */
  function LogsAfter(c: Codec, logs: map<Day, RawLog.LogFiles>, e: Event): map<Day, RawLog.LogFiles> {
    match e
    case Gap => logs
    case Startup(_, today, repairs) => Recovered(c, logs, today, repairs)
    case Observation(_, _, day, r, stamp, repair, append) =>
      if Stores(e) then logs[day := Stored(c, FilesOf(logs, day), stamp, r, repair, append).0] else logs
  }

  /** The files of a run change as the methods change them, and nothing else changes them. */
  lemma RunFollowsMethods(c: Codec, streamId: Id, events: seq<Event>, e: Event)
    ensures LogsOf(RunDisk(c, streamId, events + [e]).files) ==
            LogsAfter(c, LogsOf(RunDisk(c, streamId, events).files), e)
  {
    var files := RunDisk(c, streamId, events).files;
    ActionsSnoc(c, streamId, events, e);
    assert RunDisk(c, streamId, events + [e]).files == FilesAfter(c, files, e);
    hide RunDisk, Step, RawLog.Repaired, RawLog.Appended, RawLog.Reported, RawLog.Storable, RawLog.Frame;
    hide Recent, Stores;
    if e.Observation? {
      assert FilesOf(LogsOf(files), e.day) == FileAt(files, e.day).log;
    }
  }

  /******* What the manifest makes of a date *******/

  /** The file reads back as the stream's records; it is clean exactly when it has no torn tail. */
  lemma FileReadsBack(c: Codec, w: RawLog.World, log: seq<Record>, torn: bool)
    requires Faithful(c) && FileInv(c, w, log, torn)
    ensures LoadAll(c, RawLog.Readable(c.z, w.log.file, 0)) == Some(log)
    ensures RawLog.ValidEnd(c.z, w.log.file, 0) != |w.log.file| <==> torn
    ensures !w.log.present ==> log == [] && !torn
  {
    var k :| RawLog.Inv(c.z, w, k);
    var rs := RawLog.Records(w.complete);
    var whole := RawLog.EncodeAll(c.z, rs);
    var tail := w.log.file[|whole|..];
    assert w.log.file == whole + tail;
    assert rs[..0] == [] && rs[0..] == rs && RawLog.EncodeAll(c.z, rs[..0]) == [];
    RawLog.ScanEncoded(c.z, rs, 0, tail);
    assert tail == [] <==> w.log.file == whole;
    NothingEncoded(c, rs);
    hide RawLog.EncodeAll, RawLog.ValidEnd, RawLog.Readable, RawLog.Torn;
    LoadEach(c, rs, log);
  }

  lemma NothingEncoded(c: Codec, rs: seq<RawLog.Record>)
    requires RawLog.AllStorable(c.z, rs)
    ensures RawLog.EncodeAll(c.z, rs) == [] ==> rs == []
  {
  }

  lemma {:induction false} LoadEach(c: Codec, rs: seq<RawLog.Record>, log: seq<Record>)
    requires |rs| == |log| && forall i :: 0 <= i < |log| ==> c.load(rs[i].payload) == Some(log[i])
    ensures LoadAll(c, rs) == Some(log)
  {
    if rs != [] {
      LoadEach(c, rs[..|rs| - 1], log[..|log| - 1]);
      assert log[..|log| - 1] + [log[|log| - 1]] == log;
    }
  }

  /** Every promise of the journal for this date is one the writer made; the journal may have lost some. */
  ghost predicate Promised(y: World, day: Day, promised: map<Id, (Id, nat)>) {
    forall p :: p in promised ==> exists i :: 0 <= i < |y.promises| && Promises(y.promises[i], day, p, promised[p])
  }

  ghost predicate Promises(made: Promise, day: Day, p: Id, place: (Id, nat)) {
    made.day == day && made.pollId == p && (made.streamId, made.sequence) == place
  }

  /** For any run on the files themselves, with appends and repairs cut short anywhere: the manifest
      check accepts a date if and only if its file has no torn tail left, that is, unless an append to it
      arrived in part and neither a later observation of that date nor a restart close enough to it has
      cut the tail since. Torn or not, the file reads back every record that arrived whole, and
      replaying it to a promised observation gives what was observed. */
  lemma AcceptedIffNotTorn(c: Codec, streamId: Id, events: seq<Event>, day: Day, promised: map<Id, (Id, nat)>)
    requires Faithful(c) && Possible(streamId, Actions(c, streamId, events))
    requires Promised(RunDisk(c, streamId, events).stream, day, promised)
    ensures var d := RunDisk(c, streamId, events);
            var l := FileAt(d.files, day).log;
            && (Accepted(c, l, promised) <==> day !in d.torn)
            && LoadAll(c, RawLog.Readable(c.z, l.file, 0)) == Some(LogOf(d.stream.logs, day))
            && forall i :: 0 <= i < |d.stream.promises| ==> Kept(promised.Keys, d.stream.logs, d.stream.promises[i])
  {
    var d := RunDisk(c, streamId, events);
    DiskFollowsStream(c, streamId, events);
    RunKeepsFiles(c, streamId, events);
    var w, log := FileAt(d.files, day), LogOf(d.stream.logs, day);
    assert FileInv(c, w, log, day in d.torn);
    EveryPromiseIsKept(promised.Keys, streamId, Actions(c, streamId, events));
    hide *;
    FileReadsBack(c, w, log, day in d.torn);
    PromisesAreSeen(d.stream, day, promised);
    FileAccepted(c, w.log, log, day in d.torn, promised);
  }

  lemma PromisesAreSeen(y: World, day: Day, promised: map<Id, (Id, nat)>)
    requires Promised(y, day, promised) && CheckLog(promised.Keys, LogOf(y.logs, day)).Some?
    requires forall i :: 0 <= i < |y.promises| && y.promises[i].day == day ==>
               var (p, seen) := (y.promises[i], CheckLog(promised.Keys, LogOf(y.logs, day)).value.seen);
               p.pollId in seen && seen[p.pollId] == (p.streamId, p.sequence)
    ensures forall p :: p in promised ==>
              var seen := CheckLog(promised.Keys, LogOf(y.logs, day)).value.seen;
              p in seen && seen[p] == promised[p]
  {
    hide CheckLog, LogOf;
    forall p | p in promised
      ensures var seen := CheckLog(promised.Keys, LogOf(y.logs, day)).value.seen;
              p in seen && seen[p] == promised[p]
    {
      var i :| 0 <= i < |y.promises| && Promises(y.promises[i], day, p, promised[p]);
    }
  }

  lemma FileAccepted(c: Codec, l: RawLog.LogFiles, log: seq<Record>, torn: bool, promised: map<Id, (Id, nat)>)
    requires LoadAll(c, RawLog.Readable(c.z, l.file, 0)) == Some(log)
    requires RawLog.ValidEnd(c.z, l.file, 0) != |l.file| <==> torn
    requires !l.present ==> log == [] && !torn
    requires CheckLog(promised.Keys, log).Some?
    requires forall p :: p in promised ==>
               p in CheckLog(promised.Keys, log).value.seen && CheckLog(promised.Keys, log).value.seen[p] == promised[p]
    ensures Accepted(c, l, promised) <==> !torn
  {
    hide LoadAll, RawLog.Readable, RawLog.ValidEnd, CheckRecord;
  }

  /** Nothing but an observation of the date itself or a restart that visits it changes a torn tail, so
      an append cut short just before midnight leaves a date rejected for as long as the process runs. */
  lemma TornStays(c: Codec, d: Disk, e: Event, day: Day)
    requires day in d.torn
    requires e.Observation? ==> e.day != day || !Stores(e) || !Cuts(e.repair)
    requires e.Startup? ==> !Recent(LogsOf(d.files), day, e.today) || !Cuts(e.repairs(day))
    ensures day in Step(c, d, e).torn
  {
    hide RawLog.Repaired, PartArrives, Stores;
  }

  /******* A date that is not accepted *******/

  const EPOCH: RawLog.Stamp := [0, 0, 0, 0, 0, 0, 0, 0]

  /** An observation of a feed without trips. */
  function Quiet(pollId: Id, day: Day, reached: nat): Event {
    Observation([], true, day, Record(CURRENT_FORMAT, pollId, "stream", 1, Baseline, 0, 0, [], Some([])), EPOCH,
                RawLog.Finished, RawLog.AppendFate(reached, true, true))
  }

  function TornLate(): (events: seq<Event>) {
    [Quiet("a", 1, 1), Quiet("b", 2, RawLog.MAX_COMPRESSED_RECORD_BYTES + RawLog.HEADER_BYTES)]
  }

  lemma QuietDescribed(w: Writer, pollId: Id, day: Day, reached: nat)
    requires w.members.None?
    ensures Describes(w, [], pollId, Quiet(pollId, day, reached).record)
  {
    assert CurrentMembers([]) == map[] && CurrentStamps([]) == map[];
    assert forall t :: !Differs(map[], map[], t);
  }

  lemma FirstTorn(c: Codec)
    requires RawLog.Storable(c.z, Framed(c, EPOCH, Quiet("a", 1, 1).record))
    ensures var d := Step(c, Disk(Begin("stream"), map[], {}), Quiet("a", 1, 1));
            && d.torn == {1} && d.files.Keys == {1} && d.files[1].log.present && d.stream.writer.members.None?
  {
    hide CurrentMembers, CurrentStamps;
  }

  lemma SecondElsewhere(c: Codec, d: Disk, e: Event)
    requires d.torn == {1} && d.files.Keys == {1} && d.files[1].log.present
    requires e == TornLate()[1]
    ensures var d' := Step(c, d, e);
            d'.torn == {1} && d'.files.Keys == {1, 2} && d'.files[1] == d.files[1]
  {
    hide RawLog.Repaired, RawLog.Next, CurrentMembers, CurrentStamps;
    var raw := Framed(c, e.stamp, e.record);
    assert RawLog.Storable(c.z, raw) ==> |RawLog.Frame(c.z, raw)| <= e.append.reached;
    assert !PartArrives(c, e);
  }

  lemma RestartCuts(c: Codec, d: Disk, streamId: Id)
    requires d.torn == {1} && d.files.Keys == {1, 2} && d.files[1].log.present
    ensures Step(c, d, Startup(streamId, 2, _ => RawLog.Finished)).torn == {}
  {
    assert Recent(LogsOf(d.files), 1, 2);
  }

  lemma PossibleSnoc(streamId: Id, front: seq<Action>, a: Action)
    requires Possible(streamId, front)
    requires a.Observe? ==> a.record.pollId !in PollIds(front)
    requires LeavesRecord(a) ==>
               Describes(OnDate(Run(streamId, front).writer, a.day), a.rows, a.record.pollId, a.record)
    ensures Possible(streamId, front + [a])
  {
    assert (front + [a])[..|front|] == front;
    hide Describes;
  }

  lemma ActionsSnoc(c: Codec, streamId: Id, front: seq<Event>, e: Event)
    ensures RunDisk(c, streamId, front + [e]) == Step(c, RunDisk(c, streamId, front), e)
    ensures Actions(c, streamId, front + [e]) ==
            Actions(c, streamId, front) + [ActionOf(c, RunDisk(c, streamId, front).files, e)]
  {
    assert (front + [e])[..|front|] == front;
    hide Step, ActionOf;
  }

  /** After an observation of date 1 the first of date 2 is a baseline, whatever became of the other. */
  lemma TwoDatesPossible(a: Action, b: Action)
    requires a.Observe? && b.Observe? && a.rows == b.rows == [] && a.full && b.full && a.day == 1 && b.day == 2
    requires a.record == Quiet("a", 1, 1).record && b.record == Quiet("b", 2, 1).record
    ensures Possible("stream", [a]) && Possible("stream", [a] + [b])
  {
    assert [] + [a] == [a] && [a][..0] == [];
    assert Run("stream", []) == Begin("stream");
    QuietDescribed(OnDate(Begin("stream").writer, 1), "a", 1, 1);
    hide Describes;
    PossibleSnoc("stream", [], a);
    assert Run("stream", [a]).writer.date == Some(1);
    assert PollIds([a]) == {"a"};
    hide Run, Possible;
    QuietDescribed(OnDate(Run("stream", [a]).writer, 2), "b", 2, 1);
    PossibleSnoc("stream", [a], b);
  }

  lemma TornLateIsPossible(c: Codec, restart: Event)
    requires restart.Startup?
    ensures Possible("stream", Actions(c, "stream", TornLate() + [restart]))
    ensures Possible("stream", Actions(c, "stream", TornLate()))
  {
    var first, second := TornLate()[0], TornLate()[1];
    ActionsSnoc(c, "stream", [], first);
    ActionsSnoc(c, "stream", [first], second);
    ActionsSnoc(c, "stream", TornLate(), restart);
    var a := ActionOf(c, map[], first);
    var b := ActionOf(c, RunDisk(c, "stream", [first]).files, second);
    assert [] + [a] == [a] && [] + [first] == [first] && [first] + [second] == TornLate();
    assert Actions(c, "stream", []) == [] && RunDisk(c, "stream", []).files == map[];
    hide Stored, RunDisk, Actions, Possible, Describes;
    TwoDatesPossible(a, b);
    PossibleSnoc("stream", [a] + [b], Restart(restart.streamId));
  }

  /** An input on which the check of a date fails: one byte of the last record of date 1 arrives, and the
      next observation is of date 2. The restart that follows makes date 1 acceptable again. */
  lemma TornBeforeMidnight(c: Codec)
    requires Faithful(c) && RawLog.Storable(c.z, Framed(c, EPOCH, Quiet("a", 1, 1).record))
    ensures var restarted := TornLate() + [Startup("new", 2, _ => RawLog.Finished)];
            && Possible("stream", Actions(c, "stream", restarted))
            && !Accepted(c, FileAt(RunDisk(c, "stream", TornLate()).files, 1).log, map[])
            && Accepted(c, FileAt(RunDisk(c, "stream", restarted).files, 1).log, map[])
  {
    var first, second, restart := Quiet("a", 1, 1), TornLate()[1], Startup("new", 2, _ => RawLog.Finished);
    var events, restarted := TornLate(), TornLate() + [restart];
    assert events[..1] == [first] && [first][..0] == [] && restarted[..2] == events;
    var d0 := Disk(Begin("stream"), map[], {});
    var d1 := Step(c, d0, first);
    var d2 := Step(c, d1, second);
    assert RunDisk(c, "stream", []) == d0;
    assert RunDisk(c, "stream", [first]) == d1;
    assert RunDisk(c, "stream", events) == d2;
    assert RunDisk(c, "stream", restarted) == Step(c, d2, restart);
    FirstTorn(c);
    SecondElsewhere(c, d1, second);
    RestartCuts(c, d2, "new");
    TornLateIsPossible(c, restart);
    hide Step, Promises;
    assert Promised(d2.stream, 1, map[]);
    AcceptedIffNotTorn(c, "stream", events, 1, map[]);
    AcceptedIffNotTorn(c, "stream", restarted, 1, map[]);
  }
}
