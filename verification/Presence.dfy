/** The TripUpdates presence stream: a writer that logs the difference between consecutive
    memberships, the replay that applies the differences, and the independent manifest checker.

    Here a log is the sequence of its complete records; module PresenceLogs ties it to the bytes of
    the files, torn tails included. */
module Presence {
  import opened Common
  import RawLog

  type Day = nat
  type Id = string

  datatype Trip = Trip(entityId: Option<string>, tripId: Option<string>, startDate: Option<string>,
                       startTime: Option<string>)
  datatype Stop = Stop(stopSequence: Option<int>, visitIndex: Option<int>, stopId: Option<string>)

  type Members = map<Trip, set<Stop>>

  /** Source timestamps are unsigned in the feed; a trip may have none. */
  type Stamps = map<Trip, Option<nat>>

  /** A parsed row; `stop` is None for a trip-only entity. */
  datatype Row = Row(deleted: bool, trip: Trip, timestamp: Option<nat>, stop: Option<Stop>)

  datatype Kind = Baseline | Delta
  datatype Change = Change(trip: Trip, tripEntered: bool, tripWithdrawn: bool, entered: set<Stop>, withdrawn: set<Stop>)
  datatype Update = Update(trip: Trip, timestamp: Option<nat>)

  const PRESENCE_VERSION: nat := 1
  const SOURCE_TIMESTAMPS_VERSION: nat := 1
  const TRIP_IDENTITY_FIELDS: seq<string> := ["entity_id", "trip_id", "start_date", "start_time"]
  const STOP_IDENTITY_FIELDS: seq<string> := ["stop_sequence", "stop_visit_fallback_index", "stop_id"]

  /** The versions and field lists a record names. */
  datatype Format = Format(version: nat, tripFields: seq<string>, stopFields: seq<string>, stampsVersion: nat)

  const CURRENT_FORMAT: Format :=
    Format(PRESENCE_VERSION, TRIP_IDENTITY_FIELDS, STOP_IDENTITY_FIELDS, SOURCE_TIMESTAMPS_VERSION)

  predicate Supported(f: Format) {
    f.version == PRESENCE_VERSION && f.tripFields == TRIP_IDENTITY_FIELDS && f.stopFields == STOP_IDENTITY_FIELDS
  }

  /** `updates` is None in records written before source timestamps were recorded. */
  datatype Record = Record(
    format: Format, pollId: Id, streamId: Id, sequence: nat, kind: Kind,
    tripCount: nat, stopCount: nat, changes: seq<Change>, updates: Option<seq<Update>>)

  function StopCount(m: Members): nat {
    |set t, s | t in m && s in m[t] :: (t, s)|
  }

  /******* Replay *******/

  function ApplyChange(m: Members, c: Change): Option<Members> {
    if c.tripEntered && c.trip in m then None else
    var prior := if c.tripEntered then Some({}) else if c.trip in m then Some(m[c.trip]) else None;
    if prior.None? || c.entered * prior.value != {} || !(c.withdrawn <= prior.value) then None else
    var stops := (prior.value - c.withdrawn) + c.entered;
    if c.tripWithdrawn then
      if stops != {} || c.trip !in m then None else Some(m - {c.trip})
    else Some(m[c.trip := stops])
  }

  function TripsOf(changes: seq<Change>): set<Trip> {
    set i | 0 <= i < |changes| :: changes[i].trip
  }

  function ApplyChanges(m: Members, changes: seq<Change>): Option<Members> {
    if changes == [] then Some(m) else
    var front, c := changes[..|changes| - 1], changes[|changes| - 1];
    var before := ApplyChanges(m, front);
    if before.None? || c.trip in TripsOf(front) then None else ApplyChange(before.value, c)
  }

  /** None is the raised error. */
  function ApplyPresence(m: Members, r: Record): Option<Members> {
    if !Supported(r.format) then None else
    var after := ApplyChanges(if r.kind.Baseline? then map[] else m, r.changes);
    if after.None? || |after.value| != r.tripCount || StopCount(after.value) != r.stopCount then None else after
  }

  function ApplyUpdates(ts: Stamps, m: Members, updates: seq<Update>): Option<Stamps> {
    if updates == [] then Some(ts) else
    var front, u := updates[..|updates| - 1], updates[|updates| - 1];
    var before := ApplyUpdates(ts, m, front);
    if before.None? || u.trip !in m || (exists i :: 0 <= i < |front| && front[i].trip == u.trip) then None
    else Some(before.value[u.trip := u.timestamp])
  }

  function Withdrawn(changes: seq<Change>): set<Trip> {
    set i | 0 <= i < |changes| && changes[i].tripWithdrawn :: changes[i].trip
  }

  /** Err is the raised error; Ok(None) means that this record carries no timestamps. */
  function ApplyStamps(ts: Option<Stamps>, r: Record, m: Members): Result<Option<Stamps>, ()> {
    if r.updates.None? then Ok(None)
    else if r.format.stampsVersion != SOURCE_TIMESTAMPS_VERSION then Err(())
    else if r.kind.Delta? && ts.None? then Err(())
    else
      var base := if r.kind.Baseline? then map[] else ts.value;
      var after := ApplyUpdates(base - Withdrawn(r.changes), m, r.updates.value);
      if after.None? || after.value.Keys != m.Keys then Err(()) else Ok(after)
  }

  method ApplyPresenceRecord(before: Members, r: Record) returns (after: Option<Members>)
    ensures after == ApplyPresence(before, r)
  {
    if !Supported(r.format) {
      return None;
    }
    var members := if r.kind.Baseline? then map[] else before;
    ghost var base := members;
    var changed: set<Trip> := {};
    for i := 0 to |r.changes|
      invariant ApplyChanges(base, r.changes[..i]) == Some(members)
      invariant changed == TripsOf(r.changes[..i])
    {
      assert r.changes[..i + 1][..i] == r.changes[..i];
      var c := r.changes[i];
      if c.trip in changed || ApplyChange(members, c).None? {
        FailsOn(base, r.changes, i + 1);
        return None;
      }
      changed := changed + {c.trip};
      members := ApplyChange(members, c).value;
    }
    assert r.changes[..|r.changes|] == r.changes;
    if |members| != r.tripCount || StopCount(members) != r.stopCount {
      return None;
    }
    return Some(members);
  }

  /** A replay that has failed stays failed. */
  lemma {:induction false} FailsOn(m: Members, changes: seq<Change>, n: nat)
    requires n <= |changes| && ApplyChanges(m, changes[..n]).None?
    ensures ApplyChanges(m, changes).None?
    decreases |changes|
  {
    if n < |changes| {
      var front := changes[..|changes| - 1];
      assert front[..n] == changes[..n];
      FailsOn(m, front, n);
    } else {
      assert changes[..n] == changes;
    }
  }

  /******* What one observation contains *******/

  function CurrentMembers(rows: seq<Row>): Members {
    if rows == [] then map[] else
    var m, row := CurrentMembers(rows[..|rows| - 1]), rows[|rows| - 1];
    var stops := if row.trip in m then m[row.trip] else {};
    m[row.trip := if row.stop.Some? then stops + {row.stop.value} else stops]
  }

  function CurrentStamps(rows: seq<Row>): Stamps {
    if rows == [] then map[] else
    CurrentStamps(rows[..|rows| - 1])[rows[|rows| - 1].trip := rows[|rows| - 1].timestamp]
  }

  predicate AnyDeleted(rows: seq<Row>) {
    exists i :: 0 <= i < |rows| && rows[i].deleted
  }

  lemma {:induction false} SameTrips(rows: seq<Row>)
    ensures CurrentStamps(rows).Keys == CurrentMembers(rows).Keys
  {
    if rows != [] {
      SameTrips(rows[..|rows| - 1]);
    }
  }

  ghost predicate Named(rows: seq<Row>, t: Trip) {
    exists i :: 0 <= i < |rows| && rows[i].trip == t
  }

  ghost predicate Visits(rows: seq<Row>, t: Trip, s: Stop) {
    exists i :: 0 <= i < |rows| && rows[i].trip == t && rows[i].stop == Some(s)
  }

  /** What is observed, in plain words: the trips named by some row, each with the stops of its rows. */
  lemma {:induction false} CurrentMeaning(rows: seq<Row>, t: Trip, s: Stop)
    ensures var m := CurrentMembers(rows);
            && (t in m <==> Named(rows, t))
            && (s in StopsAt(m, t) <==> Visits(rows, t, s))
  {
    if rows != [] {
      var front, last := rows[..|rows| - 1], rows[|rows| - 1];
      CurrentMeaning(front, t, s);
      assert Named(rows, t) <==> Named(front, t) || last.trip == t by {
        assert rows[|rows| - 1].trip == last.trip;
        if Named(front, t) {
          var i :| 0 <= i < |front| && front[i].trip == t;
          assert rows[i].trip == t;
        }
      }
      assert Visits(rows, t, s) <==> Visits(front, t, s) || (last.trip == t && last.stop == Some(s)) by {
        assert rows[|rows| - 1].stop == last.stop;
        if Visits(front, t, s) {
          var i :| 0 <= i < |front| && front[i].trip == t && front[i].stop == Some(s);
          assert rows[i].stop == Some(s);
        }
      }
    }
  }

  /** Row `i` is the last to name the trip. */
  ghost predicate LastNaming(rows: seq<Row>, t: Trip, i: nat) {
    i < |rows| && rows[i].trip == t && forall j :: i < j < |rows| ==> rows[j].trip != t
  }

  /** What timestamps are observed, in plain words: a trip named by some row has that of the last row that
      names it, and no other trip has one. */
  lemma {:induction false} StampMeaning(rows: seq<Row>, t: Trip)
    ensures var stamps := CurrentStamps(rows);
            && (t in stamps <==> Named(rows, t))
            && (t in stamps ==> exists i: nat :: LastNaming(rows, t, i) && stamps[t] == rows[i].timestamp)
  {
    if rows != [] {
      var front, n := rows[..|rows| - 1], |rows| - 1;
      StampMeaning(front, t);
      if rows[n].trip == t {
        assert LastNaming(rows, t, n);
      } else if t in CurrentStamps(front) {
        var i: nat :| LastNaming(front, t, i) && CurrentStamps(front)[t] == front[i].timestamp;
        assert LastNaming(rows, t, i);
      }
      assert Named(front, t) ==> Named(rows, t) by {
        if Named(front, t) {
          var i :| 0 <= i < |front| && front[i].trip == t;
          assert rows[i].trip == t;
        }
      }
      assert Named(rows, t) ==> Named(front, t) || rows[n].trip == t by {
        if Named(rows, t) {
          var i :| 0 <= i < |rows| && rows[i].trip == t;
          assert i < n ==> front[i].trip == t;
        }
      }
    }
  }

  /** The observed stop visits are counted trip by trip. */
  lemma StopCountMeaning(m: Members, t: Trip, stops: set<Stop>)
    requires t !in m
    ensures m == map[] ==> StopCount(m) == 0
    ensures StopCount(m[t := stops]) == StopCount(m) + |stops|
  {
    var more := set s | s in stops :: (t, s);
    SameSize(t, stops);
    var m' := m[t := stops];
    var before := set u, s | u in m && s in m[u] :: (u, s);
    var after := set u, s | u in m' && s in m'[u] :: (u, s);
    forall p | p in after
      ensures p in before + more
    {
      assert p.0 == t ==> p.1 in stops;
    }
    forall p | p in before + more
      ensures p in after
    {
      assert p in more ==> p.0 == t && p.1 in m'[t];
      assert p in before ==> p.0 in m' && p.1 in m'[p.0];
    }
    assert after == before + more && before !! more;
    assert |after| == |before| + |more|;
  }

  lemma {:induction false} SameSize(t: Trip, stops: set<Stop>)
    ensures |set s | s in stops :: (t, s)| == |stops|
  {
    var pairs := set s | s in stops :: (t, s);
    if stops != {} {
      var s :| s in stops;
      SameSize(t, stops - {s});
      assert pairs == (set s' | s' in stops - {s} :: (t, s')) + {(t, s)};
    }
  }

  /** What a change does to a membership, and that it does it exactly when it fits. */
  lemma ApplyChangeMeaning(m: Members, c: Change)
    ensures var after := ApplyChange(m, c);
            var prior := if c.trip in m then m[c.trip] else {};
            && (after.Some? <==>
                  && (c.tripEntered <==> c.trip !in m)
                  && (forall s :: s in c.entered ==> s !in prior) && c.withdrawn <= prior
                  && (c.tripWithdrawn ==> !c.tripEntered && c.entered == {} && c.withdrawn == prior))
            && (after.Some? ==>
                  && (forall t :: t != c.trip ==>
                        (t in after.value <==> t in m) && (t in m ==> after.value[t] == m[t]))
                  && (c.trip in after.value <==> !c.tripWithdrawn)
                  && (!c.tripWithdrawn ==> forall s :: s in after.value[c.trip] <==>
                                             s in c.entered || (s in prior && s !in c.withdrawn)))
  {
    var prior := if c.trip in m then m[c.trip] else {};
    var both := c.entered * prior;
    assert forall s :: s in both <==> s in c.entered && s in prior;
    if both != {} {
      var s :| s in both;
      assert s in c.entered && s in prior;
    }
    var left := (prior - c.withdrawn) + c.entered;
    assert c.withdrawn <= prior ==> (left == {} <==> c.entered == {} && c.withdrawn == prior);
  }

  /******* The writer *******/

  function StopsAt(m: Members, t: Trip): set<Stop> {
    if t in m then m[t] else {}
  }

  predicate Differs(prev: Members, cur: Members, t: Trip) {
    (t in prev || t in cur) && !(t in prev && t in cur && prev[t] == cur[t])
  }

  function ChangeFor(prev: Members, cur: Members, t: Trip): Change {
    Change(t, t !in prev, t !in cur, StopsAt(cur, t) - StopsAt(prev, t), StopsAt(prev, t) - StopsAt(cur, t))
  }

  /** One change for every trip that differs, in whatever order `_ordered` puts them; the trips
      in `remaining` have not been looked at. */
  ghost predicate DiffExcept(prev: Members, cur: Members, changes: seq<Change>, remaining: set<Trip>) {
    && (forall i, j :: 0 <= i < j < |changes| ==> changes[i].trip != changes[j].trip)
    && (forall i :: 0 <= i < |changes| ==>
          && changes[i].trip !in remaining
          && Differs(prev, cur, changes[i].trip)
          && changes[i] == ChangeFor(prev, cur, changes[i].trip))
    && (forall t :: Differs(prev, cur, t) && t !in remaining ==> t in TripsOf(changes))
  }

  ghost predicate IsDiff(prev: Members, cur: Members, changes: seq<Change>) {
    DiffExcept(prev, cur, changes, {})
  }

  predicate NeedsStamp(prev: Option<Members>, cur: Members, before: Stamps, stamps: Stamps, t: Trip) {
    && t in cur && t in stamps
    && (prev.None? || t !in prev.value || stamps[t] != (if t in before then before[t] else None))
  }

  function UpdatedTrips(updates: seq<Update>): set<Trip> {
    set i | 0 <= i < |updates| :: updates[i].trip
  }

  ghost predicate StampDiffExcept(prev: Option<Members>, cur: Members, before: Stamps, stamps: Stamps,
                                  updates: seq<Update>, remaining: set<Trip>) {
    && (forall i, j :: 0 <= i < j < |updates| ==> updates[i].trip != updates[j].trip)
    && (forall i :: 0 <= i < |updates| ==>
          && updates[i].trip !in remaining
          && NeedsStamp(prev, cur, before, stamps, updates[i].trip)
          && updates[i].timestamp == stamps[updates[i].trip])
    && (forall t :: NeedsStamp(prev, cur, before, stamps, t) && t !in remaining ==> t in UpdatedTrips(updates))
  }

  ghost predicate IsStampDiff(prev: Option<Members>, cur: Members, before: Stamps, stamps: Stamps,
                              updates: seq<Update>) {
    StampDiffExcept(prev, cur, before, stamps, updates, {})
  }

  /** What the writer remembers; `members` is None when the next record must be a baseline. */
  datatype Writer = Writer(date: Option<Day>, members: Option<Members>, stamps: Stamps, streamId: Id, sequence: nat)

  function OnDate(w: Writer, day: Day): Writer {
    if w.date != Some(day) then w.(date := Some(day), members := None) else w
  }

  /** `r` is a record the writer may produce for this observation. */
  ghost predicate Describes(w: Writer, rows: seq<Row>, pollId: Id, r: Record) {
    var cur, stamps := CurrentMembers(rows), CurrentStamps(rows);
    && r.format == CURRENT_FORMAT
    && r.pollId == pollId
    && r.kind == (if w.members.None? then Baseline else Delta)
    && r.sequence == (if w.members.None? then 1 else w.sequence + 1)
    && (w.members.Some? ==> r.streamId == w.streamId)
    && r.tripCount == |cur| && r.stopCount == StopCount(cur)
    && IsDiff(if w.members.None? then map[] else w.members.value, cur, r.changes)
    && r.updates.Some?
    && IsStampDiff(w.members, cur, w.stamps, stamps, r.updates.value)
  }

  /** How the repair and append of one record ended: on disk and reported; not on disk; or on
      disk although the append was reported as failed. */
  datatype Fate = Written | Lost | Hidden

  /** `full` is false for an incrementality the stream does not support. */
  datatype Action =
    | Observe(rows: seq<Row>, full: bool, day: Day, record: Record, fate: Fate)
    | Invalidate
    | Restart(streamId: Id)

  type Logs = map<Day, seq<Record>>

  function LogOf(logs: Logs, day: Day): seq<Record> {
    if day in logs then logs[day] else []
  }

  /** The observation that was reported as written. */
  datatype Promise = Promise(day: Day, pollId: Id, streamId: Id, sequence: nat, members: Members, stamps: Stamps)

  datatype World = World(writer: Writer, logs: Logs, promises: seq<Promise>)

  /** What the writer remembers after one action. */
  function Advance(writer: Writer, a: Action): Writer {
    match a
    case Invalidate => writer.(members := None)
    case Restart(streamId) => Writer(None, None, map[], streamId, 0)
    case Observe(rows, full, day, r, fate) =>
      if !full then writer.(members := None) else
      var w := OnDate(writer, day);
      if AnyDeleted(rows) || !fate.Written? then w.(members := None)
      else Writer(Some(day), Some(CurrentMembers(rows)), CurrentStamps(rows), r.streamId, r.sequence)
  }

  /** The records on disk after one action. */
  function Extend(logs: Logs, a: Action): Logs {
    if LeavesRecord(a) && !a.fate.Lost? then logs[a.day := LogOf(logs, a.day) + [a.record]] else logs
  }

  predicate ReportedWritten(a: Action) {
    a.Observe? && a.full && !AnyDeleted(a.rows) && a.fate.Written?
  }

  function Next(y: World, a: Action): World {
    World(Advance(y.writer, a), Extend(y.logs, a),
          if ReportedWritten(a)
          then y.promises + [Promise(a.day, a.record.pollId, a.record.streamId, a.record.sequence,
                                     CurrentMembers(a.rows), CurrentStamps(a.rows))]
          else y.promises)
  }

  /******* One record on disk *******/

  /** A record is a JSON text in a timestamped, compressed frame. */
  datatype Codec = Codec(z: RawLog.Gzip, dump: Record -> Bytes, load: Bytes -> Option<Record>)

  ghost predicate Faithful(c: Codec) {
    RawLog.Lossless(c.z) && forall r :: c.load(c.dump(r)) == Some(r)
  }

  function Framed(c: Codec, stamp: RawLog.Stamp, r: Record): RawLog.Record {
    RawLog.Record(stamp, c.dump(r))
  }

  const NO_FILES: RawLog.LogFiles := RawLog.LogFiles(false, [], None, [])

  function FilesOf(files: map<Day, RawLog.LogFiles>, day: Day): RawLog.LogFiles {
    if day in files then files[day] else NO_FILES
  }

  /** The file of the record's date is repaired before the append. A repair that raises and bytes that
      are missing lose the record; bytes that all arrive leave it, reported or not. */
  function Stored(c: Codec, l: RawLog.LogFiles, stamp: RawLog.Stamp, r: Record, repair: RawLog.RepairFate,
                  append: RawLog.AppendFate): (RawLog.LogFiles, Fate)
  {
    var (outcome, l1) := RawLog.Repaired(c.z, l, repair);
    if outcome.Failed? then (l1, Lost) else
    var raw := Framed(c, stamp, r);
    (RawLog.Appended(c.z, l1, raw, true, append),
     if RawLog.Reported(c.z, raw, true, append) then Written
     else if RawLog.Storable(c.z, raw) && RawLog.FrameBytesReached(c.z, raw, append) == |RawLog.Frame(c.z, raw)|
     then Hidden
     else Lost)
  }

  /** When an observation counts as written. */
  lemma WrittenMeaning(c: Codec, l: RawLog.LogFiles, stamp: RawLog.Stamp, r: Record, repair: RawLog.RepairFate,
                       append: RawLog.AppendFate)
    ensures var size := |c.z.compress(c.dump(r))|;
            Stored(c, l, stamp, r, repair, append).1.Written? <==>
              && !RawLog.Repaired(c.z, l, repair).0.Failed?
              && size <= RawLog.MAX_COMPRESSED_RECORD_BYTES && append.reached >= RawLog.HEADER_BYTES + size
              && append.synced && append.checkpointed
  {
    hide RawLog.Repaired, RawLog.Appended;
  }

  class TripUpdatePresence {
    const codec: Codec
    var date: Option<Day>
    var members: Option<Members>
    var sourceTimestamps: Stamps
    var streamId: Id
    var sequence: nat
    /** The presence logs on disk; this object is their only writer. */
    var files: map<Day, RawLog.LogFiles>

    ghost function View(): Writer
      reads this
    {
      Writer(date, members, sourceTimestamps, streamId, sequence)
    }

    constructor (codec: Codec, files: map<Day, RawLog.LogFiles>, streamId: Id)
      ensures View() == Writer(None, None, map[], streamId, 0)
      ensures this.codec == codec && this.files == files
    {
      this.codec := codec;
      date, members, sourceTimestamps, sequence := None, None, map[], 0;
      this.streamId, this.files := streamId, files;
    }

    method InvalidateMembers()
      modifies this`members
      ensures View() == old(View()).(members := None)
    {
      members := None;
    }

    /** The loop over the rows of one observation; false when one of them is a deletion. */
    method ReadRows(rows: seq<Row>) returns (ok: bool, current: Members, stamps: Stamps)
      ensures ok == !AnyDeleted(rows)
      ensures ok ==> current == CurrentMembers(rows) && stamps == CurrentStamps(rows)
    {
      current, stamps := map[], map[];
      for i := 0 to |rows|
        invariant current == CurrentMembers(rows[..i]) && stamps == CurrentStamps(rows[..i])
        invariant forall k :: 0 <= k < i ==> !rows[k].deleted
      {
        assert rows[..i + 1][..i] == rows[..i];
        if rows[i].deleted {
          return false, current, stamps;
        }
        var row := rows[i];
        var stops := if row.trip in current then current[row.trip] else {};
        current := current[row.trip := if row.stop.Some? then stops + {row.stop.value} else stops];
        stamps := stamps[row.trip := row.timestamp];
      }
      assert rows[..|rows|] == rows;
      return true, current, stamps;
    }

    /** Returns the stream position of a written record; None is the raised error. Only the file of
        the observed date is touched. */
    method Observe(rows: seq<Row>, full: bool, day: Day, pollId: Id, newStream: Id, stamp: RawLog.Stamp,
                   repair: RawLog.RepairFate, append: RawLog.AppendFate)
      returns (details: Option<(Id, nat)>, ghost r: Record)
      modifies this
      ensures full && !AnyDeleted(rows) ==> Describes(OnDate(old(View()), day), rows, pollId, r)
      ensures full && !AnyDeleted(rows) && r.kind.Baseline? ==> r.streamId == newStream
      ensures var (l, fate) := Stored(codec, FilesOf(old(files), day), stamp, r, repair, append);
              var a := Action.Observe(rows, full, day, r, fate);
              && View() == Advance(old(View()), a)
              && files == (if LeavesRecord(a) then old(files)[day := l] else old(files))
              && details == (if ReportedWritten(a) then Some((r.streamId, r.sequence)) else None)
              && (details.Some? <==>
                    full && (forall i :: 0 <= i < |rows| ==> !rows[i].deleted) && fate.Written?)
    {
      r := Record(CURRENT_FORMAT, "", "", 0, Baseline, 0, 0, [], None);
      hide Stored;
      if !full {
        InvalidateMembers();
        return None, r;
      }
      if date != Some(day) {
        date := Some(day);
        members := None;
      }
      var ok, current, stamps := ReadRows(rows);
      if !ok {
        InvalidateMembers();
        return None, r;
      }
      hide AnyDeleted, Describes;
      var record := Describe(rows, current, stamps, pollId, newStream);
      r := record;
      var written := Store(day, stamp, record, repair, append);
      if !written {
        InvalidateMembers();
        return None, r;
      }
      members := Some(current);
      sourceTimestamps := stamps;
      streamId := record.streamId;
      sequence := record.sequence;
      return Some((streamId, sequence)), r;
    }

    /** The record of an observation, from what is remembered. */
    method Describe(ghost rows: seq<Row>, current: Members, stamps: Stamps, pollId: Id, newStream: Id)
      returns (record: Record)
      requires current == CurrentMembers(rows) && stamps == CurrentStamps(rows)
      ensures Describes(View(), rows, pollId, record)
      ensures record.kind.Baseline? ==> record.streamId == newStream
    {
      SameTrips(rows);
      var changes, updates := Differences(current, stamps);
      hide IsDiff, IsStampDiff;
      var baseline := members.None?;
      record := Record(
        CURRENT_FORMAT, pollId, if baseline then newStream else streamId, if baseline then 1 else sequence + 1,
        if baseline then Baseline else Delta, |current|, StopCount(current), changes, Some(updates));
    }

    /** Repairs the date's file and appends to it; false is the raised error. */
    method Store(day: Day, stamp: RawLog.Stamp, r: Record, repair: RawLog.RepairFate, append: RawLog.AppendFate)
      returns (ok: bool)
      modifies this`files
      ensures var (l, fate) := Stored(codec, FilesOf(old(files), day), stamp, r, repair, append);
              files == old(files)[day := l] && ok == fate.Written?
    {
      hide RawLog.Repaired, RawLog.Appended, RawLog.Reported, RawLog.Frame;
      var (outcome, l) := RawLog.Repaired(codec.z, FilesOf(files, day), repair);
      files := files[day := l];
      if outcome.Failed? {
        return false;
      }
      var raw := Framed(codec, stamp, r);
      files := files[day := RawLog.Appended(codec.z, l, raw, true, append)];
      return RawLog.Reported(codec.z, raw, true, append);
    }

    /** The loop over the trips of both memberships, in any order. */
    method Differences(current: Members, stamps: Stamps) returns (changes: seq<Change>, updates: seq<Update>)
      requires stamps.Keys == current.Keys
      ensures IsDiff(if members.None? then map[] else members.value, current, changes)
      ensures IsStampDiff(members, current, sourceTimestamps, stamps, updates)
    {
      var previous := if members.None? then map[] else members.value;
      changes, updates := [], [];
      var remaining := current.Keys + previous.Keys;
      while remaining != {}
        invariant remaining <= current.Keys + previous.Keys
        invariant DiffExcept(previous, current, changes, remaining)
        invariant StampDiffExcept(members, current, sourceTimestamps, stamps, updates, remaining)
        decreases |remaining|
      {
        var trip :| trip in remaining;
        var oldStops := if trip in previous then previous[trip] else {};
        var newStops := if trip in current then current[trip] else {};
        var entered, withdrawn := newStops - oldStops, oldStops - newStops;
        var tripEntered, tripWithdrawn := trip !in previous, trip !in current;
        ghost var update := Update(trip, if trip in stamps then stamps[trip] else None);
        ghost var change := Change(trip, tripEntered, tripWithdrawn, entered, withdrawn);
        NextUpdate(members, current, sourceTimestamps, stamps, updates, remaining, update);
        NextChange(previous, current, changes, remaining, change);
        if trip in current
           && (members.None? || tripEntered
               || stamps[trip] != (if trip in sourceTimestamps then sourceTimestamps[trip] else None)) {
          updates := updates + [Update(trip, stamps[trip])];
        }
        hide StampDiffExcept, DiffExcept;
        if entered != {} || withdrawn != {} || tripEntered || tripWithdrawn {
          changes := changes + [Change(trip, tripEntered, tripWithdrawn, entered, withdrawn)];
        }
        remaining := remaining - {trip};
      }
    }
  }

  lemma NextChange(prev: Members, cur: Members, changes: seq<Change>, remaining: set<Trip>, c: Change)
    requires DiffExcept(prev, cur, changes, remaining)
    requires c.trip in remaining && (c.trip in prev || c.trip in cur) && c == ChangeFor(prev, cur, c.trip)
    ensures Differs(prev, cur, c.trip) <==> (c.entered != {} || c.withdrawn != {} || c.tripEntered || c.tripWithdrawn)
    ensures DiffExcept(prev, cur, if Differs(prev, cur, c.trip) then changes + [c] else changes, remaining - {c.trip})
  {
    if c.trip in prev && c.trip in cur && c.entered == {} && c.withdrawn == {} {
      assert prev[c.trip] == cur[c.trip];
    }
    TripsOfSnoc(changes, c);
  }

  lemma NextUpdate(prev: Option<Members>, cur: Members, before: Stamps, stamps: Stamps,
                   updates: seq<Update>, remaining: set<Trip>, u: Update)
    requires StampDiffExcept(prev, cur, before, stamps, updates, remaining)
    requires u.trip in remaining && u.timestamp == (if u.trip in stamps then stamps[u.trip] else None)
    ensures StampDiffExcept(prev, cur, before, stamps,
              if NeedsStamp(prev, cur, before, stamps, u.trip) then updates + [u] else updates, remaining - {u.trip})
  {
    UpdatedTripsSnoc(updates, u);
  }

  lemma TripsOfSnoc(changes: seq<Change>, c: Change)
    ensures TripsOf(changes + [c]) == TripsOf(changes) + {c.trip}
  {
    var all := changes + [c];
    forall t | t in TripsOf(changes) + {c.trip}
      ensures t in TripsOf(all)
    {
      if t == c.trip {
        assert all[|changes|].trip == t;
      } else {
        var i :| 0 <= i < |changes| && changes[i].trip == t;
        assert all[i].trip == t;
      }
    }
  }

  lemma UpdatedTripsSnoc(updates: seq<Update>, u: Update)
    ensures UpdatedTrips(updates + [u]) == UpdatedTrips(updates) + {u.trip}
  {
    var all := updates + [u];
    forall t | t in UpdatedTrips(updates) + {u.trip}
      ensures t in UpdatedTrips(all)
    {
      if t == u.trip {
        assert all[|updates|].trip == t;
      } else {
        var i :| 0 <= i < |updates| && updates[i].trip == t;
        assert all[i].trip == t;
      }
    }
  }

  /** A trip is listed exactly when it came, went, or has other stops; and what is listed is new or gone. */
  lemma DiffMeaning(prev: Members, cur: Members, changes: seq<Change>, t: Trip)
    requires IsDiff(prev, cur, changes)
    ensures (exists i :: 0 <= i < |changes| && changes[i].trip == t) <==>
            (t in prev && t !in cur) || (t !in prev && t in cur) || (t in prev && t in cur && prev[t] != cur[t])
    ensures forall i :: 0 <= i < |changes| && changes[i].trip == t ==>
              && (changes[i].tripEntered <==> t !in prev) && (changes[i].tripWithdrawn <==> t !in cur)
              && (forall s :: s in changes[i].entered <==> t in cur && s in cur[t] && (t in prev ==> s !in prev[t]))
              && (forall s :: s in changes[i].withdrawn <==> t in prev && s in prev[t] && (t in cur ==> s !in cur[t]))
  {
    assert Differs(prev, cur, t) ==> t in TripsOf(changes);
  }

  /** A timestamp is listed exactly for a trip that is new to the stream or has another timestamp. */
  lemma StampDiffMeaning(prev: Option<Members>, cur: Members, before: Stamps, stamps: Stamps, updates: seq<Update>,
                         t: Trip)
    requires IsStampDiff(prev, cur, before, stamps, updates) && stamps.Keys == cur.Keys
    requires prev.Some? ==> before.Keys == prev.value.Keys
    ensures (exists i :: 0 <= i < |updates| && updates[i].trip == t) <==>
            t in cur && (prev.None? || t !in prev.value || stamps[t] != before[t])
    ensures forall i :: 0 <= i < |updates| && updates[i].trip == t ==> updates[i].timestamp == stamps[t]
  {
    assert NeedsStamp(prev, cur, before, stamps, t) ==> t in UpdatedTrips(updates);
  }

  /******* Replaying a difference undoes it *******/

  /** The membership in which only the trips in `done` have moved from `prev` to `cur`. */
  ghost function Partly(prev: Members, cur: Members, done: set<Trip>): Members {
    map t | t in prev.Keys + cur.Keys && (if t in done then t in cur else t in prev) ::
      if t in done then cur[t] else prev[t]
  }

  lemma ChangeMovesTrip(prev: Members, cur: Members, done: set<Trip>, t: Trip)
    requires t !in done && Differs(prev, cur, t)
    ensures ApplyChange(Partly(prev, cur, done), ChangeFor(prev, cur, t)) == Some(Partly(prev, cur, done + {t}))
  {
    var m, m', c := Partly(prev, cur, done), Partly(prev, cur, done + {t}), ChangeFor(prev, cur, t);
    assert StopsAt(prev, t) - c.withdrawn + c.entered == StopsAt(cur, t);
    if t in cur {
      assert m' == m[t := cur[t]];
    } else {
      assert m' == m - {t};
    }
  }

  lemma {:induction false} DiffReplaysPrefix(prev: Members, cur: Members, changes: seq<Change>, n: nat)
    requires IsDiff(prev, cur, changes) && n <= |changes|
    ensures ApplyChanges(prev, changes[..n]) == Some(Partly(prev, cur, TripsOf(changes[..n])))
    decreases n
  {
    if n == 0 {
      assert changes[..0] == [] && TripsOf(changes[..0]) == {};
      assert Partly(prev, cur, {}) == prev;
    } else {
      DiffReplaysPrefix(prev, cur, changes, n - 1);
      var front, c := changes[..n - 1], changes[n - 1];
      assert changes[..n] == front + [c];
      assert (front + [c])[..n - 1] == front;
      assert c.trip !in TripsOf(front);
      TripsOfSnoc(front, c);
      ChangeMovesTrip(prev, cur, TripsOf(front), c.trip);
    }
  }

  /** Applying the differences to the old membership gives the new one, in any order. */
  lemma DiffReplays(prev: Members, cur: Members, changes: seq<Change>)
    requires IsDiff(prev, cur, changes)
    ensures ApplyChanges(prev, changes) == Some(cur)
  {
    DiffReplaysPrefix(prev, cur, changes, |changes|);
    assert changes[..|changes|] == changes;
    assert Partly(prev, cur, TripsOf(changes)) == cur by {
      forall t | t !in TripsOf(changes)
        ensures (t in prev <==> t in cur) && (t in prev ==> prev[t] == cur[t])
      {
        assert !Differs(prev, cur, t);
      }
    }
  }

  lemma WithdrawnTrips(prev: Members, cur: Members, changes: seq<Change>)
    requires IsDiff(prev, cur, changes)
    ensures Withdrawn(changes) == prev.Keys - cur.Keys
  {
    forall t | t in prev.Keys - cur.Keys
      ensures t in Withdrawn(changes)
    {
      assert Differs(prev, cur, t);
      var i :| 0 <= i < |changes| && changes[i].trip == t;
      assert changes[i].tripWithdrawn;
    }
  }

  lemma {:induction false} UpdatesOverwrite(base: Stamps, cur: Members, updates: seq<Update>)
    requires forall i, j :: 0 <= i < j < |updates| ==> updates[i].trip != updates[j].trip
    requires forall i :: 0 <= i < |updates| ==> updates[i].trip in cur
    ensures var after := ApplyUpdates(base, cur, updates);
            && after.Some?
            && after.value.Keys == base.Keys + UpdatedTrips(updates)
            && (forall i :: 0 <= i < |updates| ==>
                  updates[i].trip in after.value && after.value[updates[i].trip] == updates[i].timestamp)
            && (forall t :: t in base && t !in UpdatedTrips(updates) ==> after.value[t] == base[t])
  {
    if updates != [] {
      var front, u := updates[..|updates| - 1], updates[|updates| - 1];
      UpdatesOverwrite(base, cur, front);
      assert updates == front + [u];
      UpdatedTripsSnoc(front, u);
    }
  }

  lemma StampsReplay(prev: Option<Members>, cur: Members, before: Stamps, stamps: Stamps,
                     changes: seq<Change>, updates: seq<Update>)
    requires IsDiff(if prev.None? then map[] else prev.value, cur, changes)
    requires IsStampDiff(prev, cur, before, stamps, updates)
    requires stamps.Keys == cur.Keys && (prev.Some? ==> before.Keys == prev.value.Keys)
    ensures var base := (if prev.None? then map[] else before) - Withdrawn(changes);
            ApplyUpdates(base, cur, updates) == Some(stamps)
  {
    WithdrawnTrips(if prev.None? then map[] else prev.value, cur, changes);
    var base := (if prev.None? then map[] else before) - Withdrawn(changes);
    UpdatesOverwrite(base, cur, updates);
    var after := ApplyUpdates(base, cur, updates).value;
    forall t | t in cur
      ensures t in after && after[t] == stamps[t]
    {
      if t in UpdatedTrips(updates) {
        var i :| 0 <= i < |updates| && updates[i].trip == t;
      } else {
        assert !NeedsStamp(prev, cur, before, stamps, t);
      }
    }
    forall t | t in after
      ensures t in cur
    {
      if t in UpdatedTrips(updates) {
        var i :| 0 <= i < |updates| && updates[i].trip == t;
      }
    }
    assert after == stamps;
  }

  /******* The manifest checker *******/

  datatype Checked = Checked(members: Members, stamps: Option<Stamps>, stream: Option<Id>, sequence: nat,
                             seen: map<Id, (Id, nat)>)

  const START := Checked(map[], None, None, 0, map[])

  /** One record of `_presence_stats`; None is a recorded error. `promised` are the polls whose
      journal event promises timestamp evidence. */
  function CheckRecord(promised: set<Id>, st: Checked, r: Record): Option<Checked> {
    if r.kind.Baseline? && r.sequence != 1 then None else
    var stream := if r.kind.Baseline? then Some(r.streamId) else st.stream;
    var sequence := if r.kind.Baseline? then 0 else st.sequence;
    if Some(r.streamId) != stream || r.sequence != sequence + 1 then None else
    var members := ApplyPresence(st.members, r);
    if members.None? then None else
    var stamps := ApplyStamps(st.stamps, r, members.value);
    if stamps.Err? || (r.pollId in promised && r.updates.None?) || r.pollId in st.seen then None else
    Some(Checked(members.value, stamps.value, stream, r.sequence, st.seen[r.pollId := (r.streamId, r.sequence)]))
  }

  function CheckLog(promised: set<Id>, log: seq<Record>): Option<Checked> {
    if log == [] then Some(START) else
    var before := CheckLog(promised, log[..|log| - 1]);
    if before.None? then None else CheckRecord(promised, before.value, log[|log| - 1])
  }

  /** The records read from a file; None when one of them is not the JSON of a record. */
  function LoadAll(c: Codec, raws: seq<RawLog.Record>): Option<seq<Record>> {
    if raws == [] then Some([]) else
    var front, r := LoadAll(c, raws[..|raws| - 1]), c.load(raws[|raws| - 1].payload);
    if front.None? || r.None? then None else Some(front.value + [r.value])
  }

  /** What the check of one date's file comes to; None is a recorded error. A file with an invalid or
      truncated tail is an error whatever its complete records say. */
  function CheckFile(c: Codec, promised: set<Id>, l: RawLog.LogFiles): Option<Checked> {
    if !l.present then Some(START) else
    if RawLog.ValidEnd(c.z, l.file, 0) != |l.file| then None else
    var log := LoadAll(c, RawLog.Readable(c.z, l.file, 0));
    if log.None? then None else CheckLog(promised, log.value)
  }

  /** No error: the file is checked to its end and every promised observation is where it was promised. */
  predicate Accepted(c: Codec, l: RawLog.LogFiles, promised: map<Id, (Id, nat)>) {
    var st := CheckFile(c, promised.Keys, l);
    st.Some? && forall p :: p in promised ==> p in st.value.seen && st.value.seen[p] == promised[p]
  }

  /** The checker: scans the file, replays the log and then looks up every promised observation. */
  method PresenceStats(c: Codec, l: RawLog.LogFiles, promised: map<Id, (Id, nat)>) returns (ok: bool)
    ensures ok <==> Accepted(c, l, promised)
  {
    var st := START;
    if l.present {
      var scan := RawLog.ScanRawLogFrom(c.z, l.file, 0);
      if !scan.clean {
        return false;
      }
      var raws := RawLog.IterRecords(c.z, l.file);
      var next := CheckRaws(c, promised.Keys, raws);
      if next.None? {
        return false;
      }
      st := next.value;
    }
    return forall p :: p in promised ==> p in st.seen && st.seen[p] == promised[p];
  }

  /** Loads and replays record after record. */
  method CheckRaws(c: Codec, promised: set<Id>, raws: seq<RawLog.Record>) returns (checked: Option<Checked>)
    ensures var log := LoadAll(c, raws);
            checked == if log.None? then None else CheckLog(promised, log.value)
  {
    var st := START;
    ghost var log: seq<Record> := [];
    hide CheckRecord;
    assert raws[..0] == [];
    for i := 0 to |raws|
      invariant LoadAll(c, raws[..i]) == Some(log)
      invariant CheckLog(promised, log) == Some(st)
    {
      assert raws[..i + 1][..i] == raws[..i];
      var r := c.load(raws[i].payload);
      var next := if r.None? then None else CheckRecord(promised, st, r.value);
      if next.None? {
        FileFails(c, promised, raws, i, log);
        return None;
      }
      CheckedSnoc(promised, log, r.value);
      log := log + [r.value];
      st := next.value;
    }
    assert raws[..|raws|] == raws;
    return Some(st);
  }

  /** A record that does not load or is refused refuses the file. */
  lemma FileFails(c: Codec, promised: set<Id>, raws: seq<RawLog.Record>, i: nat, log: seq<Record>)
    requires i < |raws| && LoadAll(c, raws[..i]) == Some(log) && CheckLog(promised, log).Some?
    requires var r := c.load(raws[i].payload);
             r.None? || CheckRecord(promised, CheckLog(promised, log).value, r.value).None?
    ensures var all := LoadAll(c, raws); all.None? || CheckLog(promised, all.value).None?
  {
    hide CheckRecord;
    assert raws[..i + 1][..i] == raws[..i];
    var r := c.load(raws[i].payload);
    if LoadAll(c, raws).Some? {
      LoadedPrefix(c, raws, i + 1);
      assert (log + [r.value])[..|log|] == log;
      CheckFails(promised, LoadAll(c, raws).value, i + 1);
    }
  }

  lemma {:induction false} LoadedPrefix(c: Codec, raws: seq<RawLog.Record>, n: nat)
    requires n <= |raws| && LoadAll(c, raws).Some?
    ensures |LoadAll(c, raws).value| == |raws|
    ensures LoadAll(c, raws[..n]) == Some(LoadAll(c, raws).value[..n])
    decreases |raws|
  {
    if raws != [] {
      var front, all := raws[..|raws| - 1], LoadAll(c, raws).value;
      if n < |raws| {
        LoadedPrefix(c, front, n);
        assert front[..n] == raws[..n];
        assert all[..n] == LoadAll(c, front).value[..n];
      } else {
        LoadedPrefix(c, front, n - 1);
        assert raws[..n] == raws && all[..n] == all;
      }
    }
  }

  lemma {:induction false} CheckFails(promised: set<Id>, log: seq<Record>, n: nat)
    requires n <= |log| && CheckLog(promised, log[..n]).None?
    ensures CheckLog(promised, log).None?
    decreases |log|
  {
    if n < |log| {
      assert log[..|log| - 1][..n] == log[..n];
      CheckFails(promised, log[..|log| - 1], n);
    } else {
      assert log[..n] == log;
    }
  }

  /** The checker's state after a log is what the writer remembers. */
  ghost predicate InStep(st: Checked, w: Writer) {
    w.members.Some? ==>
      && st.members == w.members.value
      && st.stamps == Some(w.stamps)
      && st.stream == Some(w.streamId)
      && st.sequence == w.sequence
      && w.stamps.Keys == w.members.value.Keys
  }

  /** A record the writer may produce is accepted, and replays to exactly what was observed. */
  lemma RecordReplays(promised: set<Id>, st: Checked, w: Writer, rows: seq<Row>, pollId: Id, r: Record)
    requires Describes(w, rows, pollId, r) && InStep(st, w) && pollId !in st.seen
    ensures CheckRecord(promised, st, r) ==
            Some(Checked(CurrentMembers(rows), Some(CurrentStamps(rows)), Some(r.streamId), r.sequence,
                         st.seen[pollId := (r.streamId, r.sequence)]))
  {
    SameTrips(rows);
    MembersReplay(st, w, rows, pollId, r);
    StampsStep(st, w, rows, pollId, r);
    hide IsDiff, IsStampDiff, CurrentMembers, CurrentStamps, ApplyPresence, ApplyStamps, StopCount;
  }

  lemma StampsStep(st: Checked, w: Writer, rows: seq<Row>, pollId: Id, r: Record)
    requires Describes(w, rows, pollId, r) && InStep(st, w)
    ensures ApplyStamps(st.stamps, r, CurrentMembers(rows)) == Ok(Some(CurrentStamps(rows)))
  {
    SameTrips(rows);
    StampsReplay(w.members, CurrentMembers(rows), w.stamps, CurrentStamps(rows), r.changes, r.updates.value);
    hide IsDiff, IsStampDiff, CurrentMembers, CurrentStamps, ApplyUpdates, Withdrawn, StopCount;
  }

  lemma MembersReplay(st: Checked, w: Writer, rows: seq<Row>, pollId: Id, r: Record)
    requires Describes(w, rows, pollId, r) && InStep(st, w)
    ensures ApplyPresence(st.members, r) == Some(CurrentMembers(rows))
  {
    DiffReplays(if w.members.None? then map[] else w.members.value, CurrentMembers(rows), r.changes);
    hide IsDiff, IsStampDiff, CurrentMembers, CurrentStamps, ApplyChanges;
  }

  /******* Whole runs *******/

  function Begin(streamId: Id): World {
    World(Writer(None, None, map[], streamId, 0), map[], [])
  }

  function Run(streamId: Id, actions: seq<Action>): World {
    if actions == [] then Begin(streamId) else
    Next(Run(streamId, actions[..|actions| - 1]), actions[|actions| - 1])
  }

  /** Whether an action can leave a record, complete or torn. */
  predicate LeavesRecord(a: Action) {
    a.Observe? && a.full && !AnyDeleted(a.rows)
  }

  function PollIds(actions: seq<Action>): set<Id> {
    set i | 0 <= i < |actions| && actions[i].Observe? :: actions[i].record.pollId
  }

  /** Every record is one the writer could produce when it produced it, and every poll is observed once. */
  ghost predicate Possible(streamId: Id, actions: seq<Action>) {
    actions != [] ==>
      var front, a := actions[..|actions| - 1], actions[|actions| - 1];
      && Possible(streamId, front)
      && (a.Observe? ==> a.record.pollId !in PollIds(front))
      && (LeavesRecord(a) ==> Describes(OnDate(Run(streamId, front).writer, a.day), a.rows, a.record.pollId, a.record))
  }

  /** A promised observation is found in its date's log, and replaying up to it gives exactly what was observed. */
  ghost predicate Kept(promised: set<Id>, logs: Logs, p: Promise) {
    exists n ::
      && 0 <= n < |LogOf(logs, p.day)|
      && LogOf(logs, p.day)[n].pollId == p.pollId
      && var st := CheckLog(promised, LogOf(logs, p.day)[..n + 1]);
         && st.Some?
         && st.value.members == p.members
         && st.value.stamps == Some(p.stamps)
         && st.value.stream == Some(p.streamId)
         && st.value.sequence == p.sequence
  }

  ghost predicate LogsAccepted(promised: set<Id>, logs: Logs, used: set<Id>) {
    forall d :: var st := CheckLog(promised, LogOf(logs, d)); st.Some? && st.value.seen.Keys <= used
  }

  ghost predicate WriterInStep(promised: set<Id>, logs: Logs, w: Writer) {
    w.members.Some? ==>
      && w.date.Some?
      && CheckLog(promised, LogOf(logs, w.date.value)).Some?
      && InStep(CheckLog(promised, LogOf(logs, w.date.value)).value, w)
  }

  ghost predicate AllKept(promised: set<Id>, logs: Logs, promises: seq<Promise>) {
    forall i :: 0 <= i < |promises| ==> Kept(promised, logs, promises[i])
  }

  ghost predicate Inv(promised: set<Id>, y: World, used: set<Id>) {
    && LogsAccepted(promised, y.logs, used)
    && WriterInStep(promised, y.logs, y.writer)
    && AllKept(promised, y.logs, y.promises)
  }

  lemma KeptLonger(promised: set<Id>, logs: Logs, day: Day, r: Record, p: Promise)
    requires Kept(promised, logs, p)
    ensures Kept(promised, logs[day := LogOf(logs, day) + [r]], p)
  {
    var log := LogOf(logs, p.day);
    var n :| 0 <= n < |log| && log[n].pollId == p.pollId &&
      var st := CheckLog(promised, log[..n + 1]);
      st.Some? && st.value.members == p.members && st.value.stamps == Some(p.stamps)
      && st.value.stream == Some(p.streamId) && st.value.sequence == p.sequence;
    var log' := LogOf(logs[day := LogOf(logs, day) + [r]], p.day);
    assert log'[n] == log[n] && log'[..n + 1] == log[..n + 1];
    hide CheckLog;
  }

  lemma NewestKept(promised: set<Id>, logs: Logs, p: Promise)
    requires var log := LogOf(logs, p.day);
             && log != []
             && log[|log| - 1].pollId == p.pollId
             && CheckLog(promised, log).Some?
    requires var st := CheckLog(promised, LogOf(logs, p.day)).value;
             && st.members == p.members && st.stamps == Some(p.stamps)
             && st.stream == Some(p.streamId) && st.sequence == p.sequence
    ensures Kept(promised, logs, p)
  {
    var log := LogOf(logs, p.day);
    assert log[..|log| - 1 + 1] == log;
    hide CheckLog;
  }

  /** An accepted record extends its date's log and nothing else. */
  lemma RecordKeepsLogs(promised: set<Id>, y: World, used: set<Id>, a: Action)
    requires Inv(promised, y, used) && LeavesRecord(a) && a.record.pollId !in used
    requires Describes(OnDate(y.writer, a.day), a.rows, a.record.pollId, a.record)
    ensures var log := LogOf(y.logs, a.day) + [a.record];
            var seen := CheckLog(promised, LogOf(y.logs, a.day)).value.seen;
            CheckLog(promised, log) ==
            Some(Checked(CurrentMembers(a.rows), Some(CurrentStamps(a.rows)), Some(a.record.streamId),
                         a.record.sequence, seen[a.record.pollId := (a.record.streamId, a.record.sequence)]))
  {
    var log := LogOf(y.logs, a.day);
    assert (log + [a.record])[..|log|] == log;
    var st := CheckLog(promised, log).value;
    RecordReplays(promised, st, OnDate(y.writer, a.day), a.rows, a.record.pollId, a.record);
    hide Describes, CheckRecord, CurrentMembers, CurrentStamps, Kept;
  }

  lemma RecordKeepsInv(promised: set<Id>, y: World, used: set<Id>, a: Action)
    requires Inv(promised, y, used) && LeavesRecord(a) && !a.fate.Lost? && a.record.pollId !in used
    requires Describes(OnDate(y.writer, a.day), a.rows, a.record.pollId, a.record)
    ensures Inv(promised, Next(y, a), used + {a.record.pollId})
  {
    RecordKeepsLogs(promised, y, used, a);
    SameTrips(a.rows);
    var y' := Next(y, a);
    assert y'.logs == y.logs[a.day := LogOf(y.logs, a.day) + [a.record]];
    hide CheckLog, CurrentMembers, CurrentStamps, Describes, AnyDeleted, Kept;
    forall d
      ensures var st := CheckLog(promised, LogOf(y'.logs, d));
              st.Some? && st.value.seen.Keys <= used + {a.record.pollId}
    {
      assert CheckLog(promised, LogOf(y.logs, d)).value.seen.Keys <= used;
    }
    assert WriterInStep(promised, y'.logs, y'.writer);
    RecordKeepsPromises(promised, y, a);
    hide LogsAccepted, WriterInStep, AllKept;
  }

  lemma RecordKeepsPromises(promised: set<Id>, y: World, a: Action)
    requires AllKept(promised, y.logs, y.promises) && LeavesRecord(a) && !a.fate.Lost?
    requires var log := LogOf(y.logs, a.day) + [a.record];
             && CheckLog(promised, log).Some?
             && var st := CheckLog(promised, log).value;
                && st.members == CurrentMembers(a.rows) && st.stamps == Some(CurrentStamps(a.rows))
                && st.stream == Some(a.record.streamId) && st.sequence == a.record.sequence
    ensures AllKept(promised, Next(y, a).logs, Next(y, a).promises)
  {
    var y' := Next(y, a);
    assert y'.logs == y.logs[a.day := LogOf(y.logs, a.day) + [a.record]];
    hide CheckLog, CurrentMembers, CurrentStamps, AnyDeleted, Kept;
    forall i | 0 <= i < |y'.promises|
      ensures Kept(promised, y'.logs, y'.promises[i])
    {
      if i < |y.promises| {
        KeptLonger(promised, y.logs, a.day, a.record, y.promises[i]);
      } else {
        NewestKept(promised, y'.logs, y'.promises[i]);
      }
    }
  }

  lemma NextKeepsInv(promised: set<Id>, y: World, used: set<Id>, a: Action)
    requires Inv(promised, y, used)
    requires a.Observe? ==> a.record.pollId !in used
    requires LeavesRecord(a) ==> Describes(OnDate(y.writer, a.day), a.rows, a.record.pollId, a.record)
    ensures Inv(promised, Next(y, a), if a.Observe? then used + {a.record.pollId} else used)
  {
    if LeavesRecord(a) && !a.fate.Lost? {
      RecordKeepsInv(promised, y, used, a);
    } else {
      hide CheckLog, Describes, AllKept;
    }
  }

  lemma {:induction false} RunKeepsInv(promised: set<Id>, streamId: Id, actions: seq<Action>)
    requires Possible(streamId, actions)
    ensures Inv(promised, Run(streamId, actions), PollIds(actions))
  {
    hide Describes, Next, CurrentMembers, CurrentStamps;
    if actions == [] {
      assert forall d :: LogOf(map[], d) == [];
    } else {
      var front, a := actions[..|actions| - 1], actions[|actions| - 1];
      RunKeepsInv(promised, streamId, front);
      hide Inv, PollIds;
      NextKeepsInv(promised, Run(streamId, front), PollIds(front), a);
      assert actions == front + [a];
      PollIdsSnoc(front, a);
    }
  }

  lemma PollIdsSnoc(front: seq<Action>, a: Action)
    ensures PollIds(front + [a]) == if a.Observe? then PollIds(front) + {a.record.pollId} else PollIds(front)
  {
    var all := front + [a];
    forall p | p in PollIds(front)
      ensures p in PollIds(all)
    {
      var i :| 0 <= i < |front| && front[i].Observe? && front[i].record.pollId == p;
      assert all[i].Observe? && all[i].record.pollId == p;
    }
    assert all[|front|] == a;
  }

  /** Once seen, a poll stays at the stream position it was seen at. */
  lemma {:induction false} SeenStays(promised: set<Id>, log: seq<Record>, n: nat)
    requires n < |log| && CheckLog(promised, log).Some?
    ensures var st := CheckLog(promised, log[..n + 1]);
            && st.Some?
            && log[n].pollId in CheckLog(promised, log).value.seen
            && CheckLog(promised, log).value.seen[log[n].pollId] == (log[n].streamId, log[n].sequence)
            && st.value.stream == Some(log[n].streamId) && st.value.sequence == log[n].sequence
    decreases |log|
  {
    var front := log[..|log| - 1];
    if n < |log| - 1 {
      assert front[..n + 1] == log[..n + 1];
      SeenStays(promised, front, n);
      hide ApplyPresence, ApplyStamps;
    } else {
      assert log[..n + 1] == log;
      hide ApplyPresence, ApplyStamps;
    }
  }

  /** The checker notices a missing record: without the one before a delta the log is refused, as long as
      stream ids are not used twice. */
  lemma MissingRecordRefused(promised: set<Id>, log: seq<Record>, n: nat)
    requires CheckLog(promised, log).Some? && n + 1 < |log| && log[n + 1].kind.Delta?
    requires log[n].kind.Baseline? ==> forall i :: 0 <= i < n ==> log[i].streamId != log[n].streamId
    ensures CheckLog(promised, log[..n] + log[n + 1..]).None?
  {
    hide CheckRecord, CheckLog;
    AcceptedPrefix(promised, log, n + 2);
    CheckedNext(promised, log, n + 1);
    CheckedNext(promised, log, n);
    StreamSeen(promised, log[..n]);
    var rest, st := log[..n] + log[n + 1..], CheckLog(promised, log[..n]).value;
    CheckedSnoc(promised, log[..n], log[n + 1]);
    assert rest[..n + 1] == log[..n] + [log[n + 1]];
    InSequence(promised, st, log[n]);
    InSequence(promised, CheckLog(promised, log[..n + 1]).value, log[n + 1]);
    InSequence(promised, st, log[n + 1]);
    CheckFails(promised, rest, n + 1);
  }

  lemma InSequence(promised: set<Id>, st: Checked, r: Record)
    ensures var next := CheckRecord(promised, st, r);
            next.Some? ==>
              && next.value.stream == Some(r.streamId) && next.value.sequence == r.sequence
              && if r.kind.Baseline? then r.sequence == 1
                 else st.stream == Some(r.streamId) && r.sequence == st.sequence + 1
  {
    hide ApplyPresence, ApplyStamps;
  }

  lemma CheckedSnoc(promised: set<Id>, log: seq<Record>, r: Record)
    requires CheckLog(promised, log).Some?
    ensures CheckLog(promised, log + [r]) == CheckRecord(promised, CheckLog(promised, log).value, r)
  {
    assert (log + [r])[..|log|] == log;
    hide CheckRecord;
  }

  lemma CheckedNext(promised: set<Id>, log: seq<Record>, n: nat)
    requires n < |log| && CheckLog(promised, log[..n + 1]).Some?
    ensures CheckLog(promised, log[..n]).Some?
    ensures CheckLog(promised, log[..n + 1]) == CheckRecord(promised, CheckLog(promised, log[..n]).value, log[n])
  {
    assert log[..n + 1][..n] == log[..n];
    hide CheckRecord;
  }

  /** And a poll recorded twice. */
  lemma RepeatedPollRefused(promised: set<Id>, log: seq<Record>, i: nat, r: Record)
    requires i < |log| && r.pollId == log[i].pollId
    ensures CheckLog(promised, log + [r]).None?
  {
    assert (log + [r])[..|log|] == log;
    if CheckLog(promised, log).Some? {
      SeenStays(promised, log, i);
    }
    hide ApplyPresence, ApplyStamps;
  }

  lemma AcceptedPrefix(promised: set<Id>, log: seq<Record>, n: nat)
    requires CheckLog(promised, log).Some? && n <= |log|
    ensures CheckLog(promised, log[..n]).Some?
  {
    if CheckLog(promised, log[..n]).None? {
      CheckFails(promised, log, n);
    }
  }

  /** The stream the checker is in is that of some record. */
  lemma StreamSeen(promised: set<Id>, log: seq<Record>)
    requires CheckLog(promised, log).Some?
    ensures CheckLog(promised, log).value.stream ==
            if log == [] then None else Some(log[|log| - 1].streamId)
  {
    hide ApplyPresence, ApplyStamps;
  }

  /** For any run with invalidations, restarts, midnights in either direction, refused
      observations, lost appends and appends that reached the disk but were reported as failed:
      the records of every date replay, and every promised observation is at its promised place; and
      replaying the records up to that place gives exactly the membership and the per-trip source
      timestamps that were observed. */
  lemma EveryPromiseIsKept(promised: set<Id>, streamId: Id, actions: seq<Action>)
    requires Possible(streamId, actions)
    ensures var y := Run(streamId, actions);
            && (forall d :: CheckLog(promised, LogOf(y.logs, d)).Some?)
            && (forall i :: 0 <= i < |y.promises| ==>
                  var p := y.promises[i];
                  && Kept(promised, y.logs, p)
                  && p.pollId in CheckLog(promised, LogOf(y.logs, p.day)).value.seen
                  && CheckLog(promised, LogOf(y.logs, p.day)).value.seen[p.pollId] == (p.streamId, p.sequence))
  {
    RunKeepsInv(promised, streamId, actions);
    var y := Run(streamId, actions);
    forall i | 0 <= i < |y.promises|
      ensures var p := y.promises[i];
              && p.pollId in CheckLog(promised, LogOf(y.logs, p.day)).value.seen
              && CheckLog(promised, LogOf(y.logs, p.day)).value.seen[p.pollId] == (p.streamId, p.sequence)
    {
      var p := y.promises[i];
      var log := LogOf(y.logs, p.day);
      assert Kept(promised, y.logs, p);
      var n :| 0 <= n < |log| && log[n].pollId == p.pollId &&
        var st := CheckLog(promised, log[..n + 1]);
        st.Some? && st.value.members == p.members && st.value.stamps == Some(p.stamps)
        && st.value.stream == Some(p.streamId) && st.value.sequence == p.sequence;
      SeenStays(promised, log, n);
    }
  }
}
