/** The change-and-heartbeat filter. The implementation forgets entries once their heartbeat has
    passed and keeps only one poll's changes in an overlay; it is compared with a tracker that
    never forgets and copies its whole dictionary on every poll. */
module ChangeTracker {
  import opened Common

  type Field = string
  type Day = string
  type Time = real

  datatype Value = Null | Text(text: string) | Num(num: real) | Flag(flag: bool)

  /** A parsed row; a missing field reads as None. Fields listed as numeric hold numbers or nothing. */
  type Row = map<Field, Value>

  type Key = seq<Value>

  datatype Config = Config(
    keyFields: seq<Field>,
    valueFields: seq<Field>,
    numericFields: seq<Field>,
    numericTolerances: map<Field, real>,
    tolerance: real,
    signalFields: seq<Field>,
    nullGuardMinRows: nat,
    heartbeatSeconds: int)

  function Get(row: Row, f: Field): Value {
    if f in row then row[f] else Null
  }

  function Project(row: Row, fields: seq<Field>): (vs: seq<Value>)
    ensures |vs| == |fields|
  {
    seq(|fields|, i requires 0 <= i < |fields| => Get(row, fields[i]))
  }

  function NumberOf(v: Value): Option<real> {
    if v.Num? then Some(v.num) else None
  }

  function Numbers(c: Config, row: Row): (ns: seq<Option<real>>)
    ensures |ns| == |c.numericFields|
  {
    seq(|c.numericFields|, i requires 0 <= i < |c.numericFields| => NumberOf(Get(row, c.numericFields[i])))
  }

  function KeyOf(c: Config, row: Row): Key { Project(row, c.keyFields) }

  /** What was last written for a key. */
  datatype Entry = Entry(exact: seq<Value>, numbers: seq<Option<real>>, at: Time)

  function EntryOf(c: Config, row: Row, at: Time): Entry {
    Entry(Project(row, c.valueFields), Numbers(c, row), at)
  }

  function ToleranceOf(c: Config, f: Field): real {
    if f in c.numericTolerances then c.numericTolerances[f] else c.tolerance
  }

  function Abs(x: real): real { if x < 0.0 then -x else x }

  /** One field stayed: both absent, or both numbers no further apart than the field's own tolerance. */
  predicate FieldStays(tolerance: real, prev: Option<real>, cur: Option<real>) {
    && prev.Some? == cur.Some?
    && (prev.Some? ==> if tolerance <= 0.0 then cur == prev else Abs(cur.value - prev.value) <= tolerance)
  }

  predicate NumbersStay(c: Config, prev: seq<Option<real>>, cur: seq<Option<real>>) {
    forall i :: 0 <= i < |c.numericFields| && i < |prev| && i < |cur| ==>
      FieldStays(ToleranceOf(c, c.numericFields[i]), prev[i], cur[i])
  }

  predicate MustWrite(c: Config, prev: Option<Entry>, row: Row, now: Time) {
    || prev.None?
    || prev.value.exact != Project(row, c.valueFields)
    || !NumbersStay(c, prev.value.numbers, Numbers(c, row))
    || now - prev.value.at >= c.heartbeatSeconds as real
  }

  /******* The implementation, as functions of its state *******/

  datatype Tracker = Tracker(last: map<Key, Entry>, day: Option<Day>, lastExpiry: Option<Time>, nulls: nat)

  function Lookup(m: map<Key, Entry>, k: Key): Option<Entry> {
    if k in m then Some(m[k]) else None
  }

  function Reset(t: Tracker, day: Day): Tracker {
    if t.day != Some(day) then t.(last := map[], day := Some(day), lastExpiry := None) else t
  }

  function ExpiryStep(c: Config): real {
    if c.heartbeatSeconds < 60 then c.heartbeatSeconds as real else 60.0
  }

  function Unexpired(c: Config, last: map<Key, Entry>, now: Time): map<Key, Entry> {
    map k | k in last && now - last[k].at < c.heartbeatSeconds as real :: last[k]
  }

  function Expire(c: Config, t: Tracker, now: Time): Tracker {
    if t.lastExpiry.None? || now - t.lastExpiry.value >= ExpiryStep(c)
    then t.(last := Unexpired(c, t.last, now), lastExpiry := Some(now))
    else t
  }

  predicate HasSignal(c: Config, rows: seq<Row>) {
    exists i, j :: 0 <= i < |rows| && 0 <= j < |c.signalFields| && Get(rows[i], c.signalFields[j]) != Null
  }

  /** The guard against a feed whose signal fields have all gone null. */
  function NullsAfter(c: Config, nulls: nat, rows: seq<Row>): nat {
    if rows == [] then nulls else if HasSignal(c, rows) then 0 else nulls + |rows|
  }

  predicate SignalLost(c: Config, nulls: nat, rows: seq<Row>) {
    rows != [] && !HasSignal(c, rows) && nulls + |rows| >= c.nullGuardMinRows
  }

  /** The rows to write and the overlay they leave, over a dictionary that is not changed. */
  function Select(c: Config, last: map<Key, Entry>, rows: seq<Row>, now: Time): (seq<Row>, map<Key, Entry>) {
    if rows == [] then ([], map[]) else
    var (out, overlay) := Select(c, last, rows[..|rows| - 1], now);
    var row := rows[|rows| - 1];
    var k := KeyOf(c, row);
    var prev := if k in overlay then Some(overlay[k]) else Lookup(last, k);
    if MustWrite(c, prev, row, now) then (out + [row], overlay[k := EntryOf(c, row, now)]) else (out, overlay)
  }

  /** None is the raised signal error. */
  function Filtered(c: Config, t: Tracker, rows: seq<Row>, day: Day, now: Time, update: bool)
    : (Option<seq<Row>>, Tracker)
  {
    var t1 := Expire(c, Reset(t, day), now);
    var t2 := t1.(nulls := NullsAfter(c, t1.nulls, rows));
    if SignalLost(c, t1.nulls, rows) then (None, t2) else
    var (out, overlay) := Select(c, t2.last, rows, now);
    (Some(out), if update then t2.(last := t2.last + overlay) else t2)
  }

  function CommitRows(c: Config, last: map<Key, Entry>, rows: seq<Row>, now: Time): map<Key, Entry> {
    if rows == [] then last else
    var row := rows[|rows| - 1];
    CommitRows(c, last, rows[..|rows| - 1], now)[KeyOf(c, row) := EntryOf(c, row, now)]
  }

  function Committed(c: Config, t: Tracker, rows: seq<Row>, day: Day, now: Time): Tracker {
    var t1 := Reset(t, day);
    t1.(last := CommitRows(c, t1.last, rows, now))
  }

  class ChangeTracker {
    const c: Config
    var last: map<Key, Entry>
    var day: Option<Day>
    var lastExpiry: Option<Time>
    var consecutiveAllNullRows: nat

    ghost function View(): Tracker
      reads this
    {
      Tracker(last, day, lastExpiry, consecutiveAllNullRows)
    }

    constructor (c: Config)
      ensures this.c == c && View() == Tracker(map[], None, None, 0)
    {
      this.c := c;
      last, day, lastExpiry, consecutiveAllNullRows := map[], None, None, 0;
    }

    method MaybeReset(date: Day)
      modifies this
      ensures View() == Reset(old(View()), date)
    {
      if day != Some(date) {
        last := map[];
        day := Some(date);
        lastExpiry := None;
      }
    }

    method ExpireHeartbeatEntries(now: Time)
      modifies this
      ensures View() == Expire(c, old(View()), now)
    {
      var step := if c.heartbeatSeconds < 60 then c.heartbeatSeconds as real else 60.0;
      if lastExpiry.None? || now - lastExpiry.value >= step {
        var expired := set k | k in last && now - last[k].at >= c.heartbeatSeconds as real;
        var remaining := expired;
        while remaining != {}
          invariant remaining <= expired
          invariant last == old(last) - (expired - remaining)
          invariant day == old(day) && lastExpiry == old(lastExpiry)
          invariant consecutiveAllNullRows == old(consecutiveAllNullRows)
          decreases |remaining|
        {
          var k :| k in remaining;
          last := last - {k};
          remaining := remaining - {k};
          assert old(last) - (expired - remaining) == old(last) - (expired - (remaining + {k})) - {k};
        }
        assert last == old(last) - expired;
        assert last == Unexpired(c, old(last), now);
        lastExpiry := Some(now);
      }
    }

    method NumericChanged(prev: seq<Option<real>>, cur: seq<Option<real>>) returns (changed: bool)
      ensures changed == !NumbersStay(c, prev, cur)
    {
      var zipped := if |prev| < |cur| then |prev| else |cur|;
      if |c.numericFields| < zipped {
        zipped := |c.numericFields|;
      }
      for i := 0 to zipped
        invariant forall k :: 0 <= k < i ==> FieldStays(ToleranceOf(c, c.numericFields[k]), prev[k], cur[k])
      {
        if prev[i].None? && cur[i].None? {
          continue;
        }
        if prev[i].None? || cur[i].None? {
          return true;
        }
        var tolerance := ToleranceOf(c, c.numericFields[i]);
        if tolerance <= 0.0 {
          if cur[i] != prev[i] {
            return true;
          }
        } else if Abs(cur[i].value - prev[i].value) > tolerance {
          return true;
        }
      }
      return false;
    }

    method Filter(rows: seq<Row>, date: Day, now: Time, update: bool) returns (out: Option<seq<Row>>)
      modifies this
      ensures (out, View()) == Filtered(c, old(View()), rows, date, now, update)
    {
      MaybeReset(date);
      ExpireHeartbeatEntries(now);
      ghost var t1 := View();
      if rows != [] {
        if HasSignal(c, rows) {
          consecutiveAllNullRows := 0;
        } else {
          consecutiveAllNullRows := consecutiveAllNullRows + |rows|;
          if consecutiveAllNullRows >= c.nullGuardMinRows {
            return None;
          }
        }
      }
      ghost var t2 := t1.(nulls := NullsAfter(c, t1.nulls, rows));
      var selected: seq<Row> := [];
      var prospective: map<Key, Entry> := map[];
      for i := 0 to |rows|
        invariant View() == t2
        invariant (selected, prospective) == Select(c, last, rows[..i], now)
      {
        assert rows[..i + 1][..i] == rows[..i];
        var row := rows[i];
        var key := KeyOf(c, row);
        var exact := Project(row, c.valueFields);
        var numbers := Numbers(c, row);
        var prev := if key in prospective then Some(prospective[key]) else Lookup(last, key);
        var write := true;
        if prev.Some? {
          var moved := NumericChanged(prev.value.numbers, numbers);
          write := prev.value.exact != exact || moved || now - prev.value.at >= c.heartbeatSeconds as real;
        }
        if write {
          selected := selected + [row];
          prospective := prospective[key := Entry(exact, numbers, now)];
        }
      }
      assert rows[..|rows|] == rows;
      if update {
        last := last + prospective;
      }
      return Some(selected);
    }

    method Commit(rows: seq<Row>, date: Day, now: Time)
      modifies this
      ensures View() == Committed(c, old(View()), rows, date, now)
    {
      MaybeReset(date);
      ghost var before := last;
      for i := 0 to |rows|
        invariant last == CommitRows(c, before, rows[..i], now)
        invariant day == Reset(old(View()), date).day && lastExpiry == Reset(old(View()), date).lastExpiry
        invariant consecutiveAllNullRows == old(consecutiveAllNullRows)
      {
        assert rows[..i + 1][..i] == rows[..i];
        last := last[KeyOf(c, rows[i]) := EntryOf(c, rows[i], now)];
      }
      assert rows[..|rows|] == rows;
    }
  }

  /******* Committing what was selected *******/

  /** Replaying the selected rows gives exactly the overlay. */
  lemma {:induction false} CommitIsOverlay(c: Config, last: map<Key, Entry>, rows: seq<Row>, now: Time)
    ensures var (out, overlay) := Select(c, last, rows, now);
            CommitRows(c, last, out, now) == last + overlay
  {
    hide KeyOf, MustWrite, EntryOf, Lookup;
    if rows != [] {
      CommitIsOverlay(c, last, rows[..|rows| - 1], now);
      var (out, overlay) := Select(c, last, rows[..|rows| - 1], now);
      var row := rows[|rows| - 1];
      assert (out + [row])[..|out|] == out;
    }
  }

  /** The durable two-phase flow of the collector and the one-call flow of the offline rebuild
      leave the same tracker. */
  lemma SelectThenCommitIsUpdate(c: Config, t: Tracker, rows: seq<Row>, day: Day, now: Time)
    ensures var (out, selected) := Filtered(c, t, rows, day, now, false);
            var (out', updated) := Filtered(c, t, rows, day, now, true);
            && out == out'
            && (out.Some? ==> Committed(c, selected, out.value, day, now) == updated)
  {
    CommitIsOverlay(c, Expire(c, Reset(t, day), now).last, rows, now);
  }

  /******* The tracker that never forgets *******/

  datatype Plain = Plain(all: map<Key, Entry>, day: Option<Day>, nulls: nat)

  function PlainReset(p: Plain, day: Day): Plain {
    if p.day != Some(day) then p.(all := map[], day := Some(day)) else p
  }

  /** Works on a copy of the whole dictionary, row by row. */
  function PlainSelect(c: Config, all: map<Key, Entry>, rows: seq<Row>, now: Time): (seq<Row>, map<Key, Entry>) {
    if rows == [] then ([], all) else
    var (out, copy) := PlainSelect(c, all, rows[..|rows| - 1], now);
    var row := rows[|rows| - 1];
    if MustWrite(c, Lookup(copy, KeyOf(c, row)), row, now)
    then (out + [row], copy[KeyOf(c, row) := EntryOf(c, row, now)])
    else (out, copy)
  }

  /** One poll of the collector: `committed` says whether the selected rows reach the tracker. */
  datatype Poll = Poll(rows: seq<Row>, day: Day, now: Time, committed: bool)

  function PlainStep(c: Config, p: Plain, poll: Poll): (Option<seq<Row>>, Plain) {
    var p1 := PlainReset(p, poll.day);
    var p2 := p1.(nulls := NullsAfter(c, p1.nulls, poll.rows));
    if SignalLost(c, p1.nulls, poll.rows) then (None, p2) else
    var (out, copy) := PlainSelect(c, p2.all, poll.rows, poll.now);
    (Some(out), if poll.committed then p2.(all := copy) else p2)
  }

  function Step(c: Config, t: Tracker, poll: Poll): (Option<seq<Row>>, Tracker) {
    var (out, t') := Filtered(c, t, poll.rows, poll.day, poll.now, false);
    (out, if out.Some? && poll.committed then Committed(c, t', out.value, poll.day, poll.now) else t')
  }

  function Run(c: Config, polls: seq<Poll>): (seq<Option<seq<Row>>>, Tracker) {
    if polls == [] then ([], Tracker(map[], None, None, 0)) else
    var (outs, t) := Run(c, polls[..|polls| - 1]);
    var (out, t') := Step(c, t, polls[|polls| - 1]);
    (outs + [out], t')
  }

  function PlainRun(c: Config, polls: seq<Poll>): (seq<Option<seq<Row>>>, Plain) {
    if polls == [] then ([], Plain(map[], None, 0)) else
    var (outs, p) := PlainRun(c, polls[..|polls| - 1]);
    var (out, p') := PlainStep(c, p, polls[|polls| - 1]);
    (outs + [out], p')
  }

  /** Time does not go back between two polls of the same day. */
  ghost predicate Ordered(polls: seq<Poll>) {
    forall i :: 0 <= i < |polls| - 1 && polls[i].day == polls[i + 1].day ==> polls[i].now <= polls[i + 1].now
  }

  /** Everything the forgetful tracker still has is right; what it has dropped is overdue. */
  ghost predicate Simulates(c: Config, last: map<Key, Entry>, all: map<Key, Entry>, now: Time) {
    && (forall k :: k in last ==> k in all && last[k] == all[k])
    && (forall k :: k in all && k !in last ==> now - all[k].at >= c.heartbeatSeconds as real)
  }

  /** A dropped entry was overdue, so its key is written either way. */
  lemma SameDecision(c: Config, last: map<Key, Entry>, all: map<Key, Entry>, row: Row, now: Time)
    requires Simulates(c, last, all, now)
    ensures MustWrite(c, Lookup(last, KeyOf(c, row)), row, now) == MustWrite(c, Lookup(all, KeyOf(c, row)), row, now)
  {
    hide KeyOf, Project, Numbers, NumbersStay;
  }

  lemma WriteSimulates(c: Config, last: map<Key, Entry>, all: map<Key, Entry>, overlay: map<Key, Entry>,
                       k: Key, entry: Entry, now: Time)
    requires Simulates(c, last + overlay, all + overlay, now)
    ensures (all + overlay)[k := entry] == all + overlay[k := entry]
    ensures Simulates(c, last + overlay[k := entry], all + overlay[k := entry], now)
  {
  }

  lemma {:induction false} SelectSimulates(c: Config, last: map<Key, Entry>, all: map<Key, Entry>, rows: seq<Row>,
                                           now: Time)
    requires Simulates(c, last, all, now)
    ensures var (out, overlay) := Select(c, last, rows, now);
            var (out', copy) := PlainSelect(c, all, rows, now);
            out == out' && copy == all + overlay && Simulates(c, last + overlay, copy, now)
  {
    hide KeyOf, MustWrite, EntryOf;
    if rows == [] {
      assert all + map[] == all && last + map[] == last;
    } else {
      SelectSimulates(c, last, all, rows[..|rows| - 1], now);
      var (out, overlay) := Select(c, last, rows[..|rows| - 1], now);
      var (_, copy) := PlainSelect(c, all, rows[..|rows| - 1], now);
      var row := rows[|rows| - 1];
      var k, entry := KeyOf(c, row), EntryOf(c, row, now);
      SameDecision(c, last + overlay, copy, row, now);
      assert Lookup(last + overlay, k) == if k in overlay then Some(overlay[k]) else Lookup(last, k);
      hide Lookup;
      WriteSimulates(c, last, all, overlay, k, entry, now);
    }
  }

  /** The expiring tracker and its bookkeeping, as of the last poll at `now`. */
  ghost predicate Tracks(c: Config, t: Tracker, p: Plain, now: Time) {
    && t.day == p.day
    && t.nulls == p.nulls
    && (t.day.None? ==> t.last == map[] && p.all == map[] && t.lastExpiry == None)
    && (t.day.Some? ==> t.lastExpiry.Some? && t.lastExpiry.value <= now)
    && Simulates(c, t.last, p.all, now)
    && (forall k :: k in p.all ==> p.all[k].at <= now)
    && (forall k :: k in t.last ==>
          t.lastExpiry.value <= t.last[k].at || t.lastExpiry.value - t.last[k].at < c.heartbeatSeconds as real)
  }

  lemma ExpireTracks(c: Config, t: Tracker, p: Plain, before: Time, poll: Poll)
    requires Tracks(c, t, p, before) && (t.day == Some(poll.day) ==> before <= poll.now)
    ensures var t1, p1 := Expire(c, Reset(t, poll.day), poll.now), PlainReset(p, poll.day);
            && Tracks(c, t1, p1, poll.now)
            && (forall k :: k in t1.last ==> poll.now - t1.last[k].at < c.heartbeatSeconds as real + ExpiryStep(c))
  {
    var t0, p1 := Reset(t, poll.day), PlainReset(p, poll.day);
    var t1 := Expire(c, t0, poll.now);
    forall k | k in t1.last
      ensures poll.now - t1.last[k].at < c.heartbeatSeconds as real + ExpiryStep(c)
    {
      assert t1.last[k] == p1.all[k] && p1.all[k].at <= poll.now;
    }
  }

  /** One step, with expiry and selection done: the overlay goes to both or to neither. */
  lemma OverlayTracks(c: Config, t: Tracker, p: Plain, now: Time, overlay: map<Key, Entry>)
    requires Tracks(c, t, p, now) && t.day.Some? && Simulates(c, t.last + overlay, p.all + overlay, now)
    requires forall k :: k in overlay ==> overlay[k].at == now
    ensures Tracks(c, t.(last := t.last + overlay), p.(all := p.all + overlay), now)
  {
  }

  lemma StepTracks(c: Config, t: Tracker, p: Plain, before: Time, poll: Poll)
    requires Tracks(c, t, p, before) && (t.day == Some(poll.day) ==> before <= poll.now)
    ensures Step(c, t, poll).0 == PlainStep(c, p, poll).0
    ensures Tracks(c, Step(c, t, poll).1, PlainStep(c, p, poll).1, poll.now)
    ensures var t' := Step(c, t, poll).1;
            forall k :: k in t'.last ==>
              || t'.last[k].at == poll.now
              || poll.now - t'.last[k].at < c.heartbeatSeconds as real + ExpiryStep(c)
  {
    ExpireTracks(c, t, p, before, poll);
    var t1, p1 := Expire(c, Reset(t, poll.day), poll.now), PlainReset(p, poll.day);
    SelectSimulates(c, t1.last, p1.all, poll.rows, poll.now);
    CommitIsOverlay(c, t1.last, poll.rows, poll.now);
    OverlayIsNew(c, t1.last, poll.rows, poll.now);
    var (out, overlay) := Select(c, t1.last, poll.rows, poll.now);
    var nulls := NullsAfter(c, t1.nulls, poll.rows);
    assert t1.day == Some(poll.day) == p1.day && t1.nulls == p1.nulls;
    assert Tracks(c, t1.(nulls := nulls), p1.(nulls := nulls), poll.now);
    OverlayTracks(c, t1.(nulls := nulls), p1.(nulls := nulls), poll.now, overlay);
    hide Tracks, Expire, Select, PlainSelect, CommitRows, HasSignal, NullsAfter;
  }

  lemma {:induction false} OverlayIsNew(c: Config, last: map<Key, Entry>, rows: seq<Row>, now: Time)
    ensures forall k :: k in Select(c, last, rows, now).1 ==> Select(c, last, rows, now).1[k].at == now
  {
    hide KeyOf, MustWrite;
    if rows != [] {
      OverlayIsNew(c, last, rows[..|rows| - 1], now);
    }
  }

  lemma {:induction false} RunTracks(c: Config, polls: seq<Poll>) returns (now: Time)
    requires Ordered(polls)
    ensures Run(c, polls).0 == PlainRun(c, polls).0
    ensures Tracks(c, Run(c, polls).1, PlainRun(c, polls).1, now)
    ensures polls != [] ==> now == polls[|polls| - 1].now && Run(c, polls).1.day == Some(polls[|polls| - 1].day)
  {
    now := 0.0;
    if polls != [] {
      var front, poll := polls[..|polls| - 1], polls[|polls| - 1];
      now := RunTracks(c, front);
      if front != [] {
        assert front[|front| - 1] == polls[|polls| - 2];
      }
      StepTracks(c, Run(c, front).1, PlainRun(c, front).1, now, poll);
      now := poll.now;
    }
  }

  /** Over any run of polls, failed stages, signal errors and day changes in which time does not
      go back within a day, the expiring overlay tracker emits exactly what the unbounded copying
      one does, and keeps nothing older than a heartbeat and one expiry step. */
  lemma ForgettingIsInvisible(c: Config, polls: seq<Poll>)
    requires Ordered(polls)
    ensures Run(c, polls).0 == PlainRun(c, polls).0
    ensures polls != [] ==>
              var t, now, heartbeat := Run(c, polls).1, polls[|polls| - 1].now, c.heartbeatSeconds as real;
              forall k :: k in t.last ==>
                t.last[k].at == now || now - t.last[k].at < heartbeat + (if heartbeat < 60.0 then heartbeat else 60.0)
  {
    var _ := RunTracks(c, polls);
    if polls != [] {
      var front, poll := polls[..|polls| - 1], polls[|polls| - 1];
      var before := RunTracks(c, front);
      if front != [] {
        assert front[|front| - 1] == polls[|polls| - 2];
      }
      StepTracks(c, Run(c, front).1, PlainRun(c, front).1, before, poll);
    }
  }

  /******* The signal guard *******/

  /** Some required field of the row holds something. */
  ghost predicate Signals(c: Config, row: Row) {
    exists f :: f in c.signalFields && f in row && row[f] != Null
  }

  ghost predicate Signalling(c: Config, poll: Poll) {
    exists row :: row in poll.rows && Signals(c, row)
  }

  ghost function RowCount(polls: seq<Poll>): nat {
    if polls == [] then 0 else RowCount(polls[..|polls| - 1]) + |polls[|polls| - 1].rows|
  }

  lemma HasSignalMeaning(c: Config, poll: Poll)
    ensures HasSignal(c, poll.rows) <==> Signalling(c, poll)
  {
    if HasSignal(c, poll.rows) {
      var i, j :| 0 <= i < |poll.rows| && 0 <= j < |c.signalFields| && Get(poll.rows[i], c.signalFields[j]) != Null;
      assert c.signalFields[j] in c.signalFields && poll.rows[i] in poll.rows && Signals(c, poll.rows[i]);
    }
    if row :| row in poll.rows && Signals(c, row) {
      var f :| f in c.signalFields && f in row && row[f] != Null;
      var i :| 0 <= i < |poll.rows| && poll.rows[i] == row;
      var j :| 0 <= j < |c.signalFields| && c.signalFields[j] == f;
      assert Get(poll.rows[i], c.signalFields[j]) != Null;
    }
  }

  lemma StepNulls(c: Config, t: Tracker, poll: Poll)
    ensures var (out, t') := Step(c, t, poll);
            && t'.nulls == (if poll.rows == [] then t.nulls else if Signalling(c, poll) then 0
                            else t.nulls + |poll.rows|)
            && (out.None? <==> poll.rows != [] && !Signalling(c, poll) && t.nulls + |poll.rows| >= c.nullGuardMinRows)
  {
    HasSignalMeaning(c, poll);
    hide Select, CommitRows, HasSignal, Unexpired, Signalling;
  }

  /** The polls from `i` on are those since the last one with a signal. */
  ghost predicate SinceSignal(c: Config, polls: seq<Poll>, i: nat) {
    && i <= |polls| && (i > 0 ==> Signalling(c, polls[i - 1]))
    && forall m :: i <= m < |polls| ==> !Signalling(c, polls[m])
  }

  lemma {:induction false} NullsSinceSignal(c: Config, polls: seq<Poll>, i: nat)
    requires SinceSignal(c, polls, i)
    ensures Run(c, polls).1.nulls == RowCount(polls[i..])
    decreases |polls|
  {
    if polls != [] {
      var front, poll := polls[..|polls| - 1], polls[|polls| - 1];
      StepNulls(c, Run(c, front).1, poll);
      assert Signalling(c, poll) ==> poll.rows != [];
      hide Step, Signalling;
      if i < |polls| {
        NullsSinceSignal(c, front, i);
        assert polls[i..] == front[i..] + [poll] && polls[i..][..|polls[i..]| - 1] == front[i..];
      } else {
        assert polls[i..] == [];
      }
    }
  }

  /** A poll raises the signal error exactly when it has rows, none of them has a signal, and with it the
      rows since the last poll that had one are as many as the guard allows; changes of day, failed
      commits and earlier errors do not interrupt the count. */
  lemma SignalErrorIff(c: Config, polls: seq<Poll>, poll: Poll, i: nat)
    requires SinceSignal(c, polls, i)
    ensures Step(c, Run(c, polls).1, poll).0.None? <==>
            poll.rows != [] && !Signalling(c, poll) && RowCount(polls[i..]) + |poll.rows| >= c.nullGuardMinRows
  {
    NullsSinceSignal(c, polls, i);
    StepNulls(c, Run(c, polls).1, poll);
    hide Step, Run;
  }

  /******* A clock that goes back *******/

  lemma OneSignal(c: Config, row: Row, nulls: nat)
    requires HasSignal(c, [row])
    ensures NullsAfter(c, nulls, [row]) == 0 && !SignalLost(c, nulls, [row])
  {
  }

  lemma OneSelected(c: Config, last: map<Key, Entry>, row: Row, now: Time)
    ensures var k, entry := KeyOf(c, row), EntryOf(c, row, now);
            var write := MustWrite(c, Lookup(last, k), row, now);
            && Select(c, last, [row], now) == (if write then ([row], map[k := entry]) else ([], map[]))
            && PlainSelect(c, last, [row], now) == (if write then ([row], last[k := entry]) else ([], last))
            && CommitRows(c, last, [row], now) == last[k := entry]
            && CommitRows(c, last, [], now) == last
  {
    hide MustWrite, KeyOf, EntryOf;
    assert [row][..0] == [] && [] + [row] == [row];
    assert Select(c, last, [], now) == ([], map[]);
    assert PlainSelect(c, last, [], now) == ([], last);
  }

  lemma RunSnoc(c: Config, polls: seq<Poll>, poll: Poll)
    ensures Run(c, polls + [poll]) ==
            (Run(c, polls).0 + [Step(c, Run(c, polls).1, poll).0], Step(c, Run(c, polls).1, poll).1)
    ensures PlainRun(c, polls + [poll]) ==
            (PlainRun(c, polls).0 + [PlainStep(c, PlainRun(c, polls).1, poll).0],
             PlainStep(c, PlainRun(c, polls).1, poll).1)
  {
    hide Step, PlainStep;
    assert (polls + [poll])[..|polls|] == polls;
  }

  /** A poll of one row that is written by both trackers, or observed by a tracker that dropped it. */
  lemma OneRowStep(c: Config, t: Tracker, row: Row, day: Day, now: Time)
    requires HasSignal(c, [row])
    requires KeyOf(c, row) !in t.last
    ensures Step(c, t, Poll([row], day, now, true)) ==
            (Some([row]), var t1 := Expire(c, Reset(t, day), now);
                          t1.(nulls := 0, last := t1.last[KeyOf(c, row) := EntryOf(c, row, now)]))
  {
    var t1 := Expire(c, Reset(t, day), now).(nulls := 0);
    OneSignal(c, row, t.nulls);
    OneSelected(c, t1.last, row, now);
    hide Select, PlainSelect, CommitRows, SignalLost, NullsAfter, KeyOf, EntryOf, Project, Numbers;
    assert Filtered(c, t, [row], day, now, false) == (Some([row]), t1);
  }

  lemma OneRowPlainStep(c: Config, p: Plain, row: Row, day: Day, now: Time)
    requires HasSignal(c, [row])
    ensures var k, p1 := KeyOf(c, row), PlainReset(p, day).(nulls := 0);
            PlainStep(c, p, Poll([row], day, now, true)) ==
            if MustWrite(c, Lookup(p1.all, k), row, now)
            then (Some([row]), p1.(all := p1.all[k := EntryOf(c, row, now)])) else (Some([]), p1)
  {
    OneSignal(c, row, p.nulls);
    OneSelected(c, PlainReset(p, day).all, row, now);
    hide Select, PlainSelect, CommitRows, SignalLost, NullsAfter, MustWrite, KeyOf, EntryOf, Lookup;
  }

  const EXAMPLE: Config := Config(["trip"], ["stop"], [], map[], 0.0, ["stop"], 1000, 100)
  const ROW_A: Row := map["trip" := Text("a"), "stop" := Text("x")]
  const ROW_B: Row := map["trip" := Text("b"), "stop" := Text("x")]
  const BACKWARD: seq<Poll> :=
    [Poll([ROW_A], "d", 0.0, true)] + [Poll([ROW_B], "d", 100.0, true)] + [Poll([ROW_A], "d", 50.0, true)]

  lemma KeysDiffer()
    ensures KeyOf(EXAMPLE, ROW_A) != KeyOf(EXAMPLE, ROW_B)
    ensures HasSignal(EXAMPLE, [ROW_A]) && HasSignal(EXAMPLE, [ROW_B])
  {
    assert Get([ROW_A][0], EXAMPLE.signalFields[0]) != Null && Get([ROW_B][0], EXAMPLE.signalFields[0]) != Null;
    assert KeyOf(EXAMPLE, ROW_A)[0] != KeyOf(EXAMPLE, ROW_B)[0];
  }

  /** Dropped at 100, the row observed at 50 is emitted again. */
  lemma BackwardExpiring()
    ensures Run(EXAMPLE, BACKWARD).0[|Run(EXAMPLE, BACKWARD).0| - 1..] == [Some([ROW_A])]
  {
    var c, a, b := EXAMPLE, ROW_A, ROW_B;
    var ka, kb, ea, eb := KeyOf(c, a), KeyOf(c, b), EntryOf(c, a, 0.0), EntryOf(c, b, 100.0);
    KeysDiffer();
    var p1, p2, p3 := Poll([a], "d", 0.0, true), Poll([b], "d", 100.0, true), Poll([a], "d", 50.0, true);
    var t0, t1, t2 := Tracker(map[], None, None, 0), Tracker(map[ka := ea], Some("d"), Some(0.0), 0),
      Tracker(map[kb := eb], Some("d"), Some(100.0), 0);
    assert Run(c, []) == ([], t0);
    hide Step, EntryOf, KeyOf, Run;
    OneRowStep(c, t0, a, "d", 0.0);
    assert Step(c, t0, p1) == (Some([a]), t1);
    OneRowStep(c, t1, b, "d", 100.0);
    assert Unexpired(c, t1.last, 100.0) == map[];
    assert Step(c, t1, p2) == (Some([b]), t2);
    OneRowStep(c, t2, a, "d", 50.0);
    assert Step(c, t2, p3).0 == Some([a]);
    hide MustWrite, Expire, Reset;
    RunSnoc(c, [], p1);
    assert [] + [p1] == [p1];
    RunSnoc(c, [p1], p2);
    RunSnoc(c, [p1] + [p2], p3);
  }

  /** Remembered from 0, the row observed at 50 is not emitted. */
  lemma BackwardPlain()
    ensures PlainRun(EXAMPLE, BACKWARD).0[|PlainRun(EXAMPLE, BACKWARD).0| - 1..] == [Some([])]
  {
    var c, a, b := EXAMPLE, ROW_A, ROW_B;
    var ka, kb, ea, eb := KeyOf(c, a), KeyOf(c, b), EntryOf(c, a, 0.0), EntryOf(c, b, 100.0);
    KeysDiffer();
    var p1, p2, p3 := Poll([a], "d", 0.0, true), Poll([b], "d", 100.0, true), Poll([a], "d", 50.0, true);
    var q0, q1 := Plain(map[], None, 0), Plain(map[ka := ea], Some("d"), 0);
    var q2 := Plain(map[ka := ea, kb := eb], Some("d"), 0);
    assert !MustWrite(c, Some(ea), a, 50.0);
    assert PlainRun(c, []) == ([], q0);
    hide PlainStep, EntryOf, KeyOf, PlainRun;
    OneRowPlainStep(c, q0, a, "d", 0.0);
    OneRowPlainStep(c, q1, b, "d", 100.0);
    OneRowPlainStep(c, q2, a, "d", 50.0);
    assert PlainStep(c, q0, p1) == (Some([a]), q1) && PlainStep(c, q1, p2) == (Some([b]), q2);
    assert PlainStep(c, q2, p3).0 == Some([]);
    hide MustWrite, PlainReset;
    RunSnoc(c, [], p1);
    assert [] + [p1] == [p1];
    RunSnoc(c, [p1], p2);
    RunSnoc(c, [p1] + [p2], p3);
  }

  /** If time does go back within a day the two trackers part: here an entry is dropped a heartbeat
      later and its unchanged row then observed at an earlier time. */
  lemma BackwardClockDiverges()
    ensures Run(EXAMPLE, BACKWARD).0 != PlainRun(EXAMPLE, BACKWARD).0
  {
    BackwardExpiring();
    BackwardPlain();
    hide Run, PlainRun;
    assert [Some([ROW_A])][0] != [Some([])][0];
  }
}
