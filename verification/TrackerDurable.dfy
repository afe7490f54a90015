/** What can be reconstructed from the rows on disk. Staging and committing are separate steps that can
    raise separately, and a process restart empties the tracker but not the disk: exactly when the last
    durable row of a key stands for what was observed is a matter of times and fates alone. */
module TrackerDurable {
  import opened Common
  import opened ChangeTracker

  /** The selected rows are on disk and committed to the tracker; or on disk although something raised,
      with only the first `committed` of them in the tracker; or not on disk. */
  datatype Fate = Kept | Landed(committed: nat) | Lost

  /** `restarted`: the process has been restarted since the poll before. */
  datatype Tick = Tick(day: Day, now: Time, fate: Fate, restarted: bool)

  datatype Turn = Turn(rows: seq<Row>, tick: Tick)

  function TicksOf(turns: seq<Turn>): (ticks: seq<Tick>)
    ensures |ticks| == |turns|
  {
    seq(|turns|, i requires 0 <= i < |turns| => turns[i].tick)
  }

  /******* A run *******/

  const NEW: Tracker := Tracker(map[], None, None, 0)

  /** How much of a selection is committed. */
  function Part(fate: Fate, out: seq<Row>): (part: seq<Row>)
    ensures |part| <= |out| && part == out[..|part|]
  {
    match fate
    case Kept => out
    case Landed(n) => out[..if n <= |out| then n else |out|]
    case Lost => []
  }

  /** The tracker a poll begins with. */
  function Begun(t: Tracker, tick: Tick): Tracker {
    if tick.restarted then NEW else t
  }

  /** One poll: select, stage, commit. None is the signal error, after which nothing is staged. */
  function Taken(c: Config, t: Tracker, turn: Turn): (Option<seq<Row>>, Tracker) {
    var Tick(day, now, fate, _) := turn.tick;
    var (out, t') := Filtered(c, Begun(t, turn.tick), turn.rows, day, now, false);
    (out, if out.Some? then Committed(c, t', Part(fate, out.value), day, now) else t')
  }

  /** The tracker before poll `n`. */
  function RunTo(c: Config, turns: seq<Turn>, n: nat): Tracker
    requires n <= |turns|
  {
    if n == 0 then NEW else Taken(c, RunTo(c, turns, n - 1), turns[n - 1]).1
  }

  function Out(c: Config, turns: seq<Turn>, n: nat): Option<seq<Row>>
    requires n < |turns|
  {
    Taken(c, RunTo(c, turns, n), turns[n]).0
  }

  /** What the tracker remembers when it compares the rows of poll `n`. */
  function LastAt(c: Config, turns: seq<Turn>, n: nat): map<Key, Entry>
    requires n < |turns|
  {
    var tick := turns[n].tick;
    Expire(c, Reset(Begun(RunTo(c, turns, n), tick), tick.day), tick.now).last
  }

  /******* What is on disk *******/

  datatype Emission = Emission(row: Row, at: Time)

  function Stamped(rows: seq<Row>, at: Time): (es: seq<Emission>)
    ensures |es| == |rows|
  {
    seq(|rows|, i requires 0 <= i < |rows| => Emission(rows[i], at))
  }

  /** The rows of the day of poll `n` on disk before it. */
  function Before(c: Config, turns: seq<Turn>, n: nat): seq<Emission>
    requires n < |turns|
    decreases n, 0
  {
    if n == 0 || turns[n - 1].tick.day != turns[n].tick.day then [] else After(c, turns, n - 1)
  }

  /** The rows of the day of poll `n` on disk after it. */
  function After(c: Config, turns: seq<Turn>, n: nat): seq<Emission>
    requires n < |turns|
    decreases n, 1
  {
    var out := Out(c, turns, n);
    Before(c, turns, n) +
    (if turns[n].tick.fate.Lost? || out.None? then [] else Stamped(out.value, turns[n].tick.now))
  }

  /** What is on disk when the first `r` rows of poll `n` have been handled, if its rows get there. */
  function DurableAt(c: Config, turns: seq<Turn>, n: nat, r: nat): seq<Emission>
    requires n < |turns| && r <= |turns[n].rows|
  {
    var now := turns[n].tick.now;
    Before(c, turns, n) + Stamped(Select(c, LastAt(c, turns, n), turns[n].rows[..r], now).0, now)
  }

  function LastEmission(c: Config, h: seq<Emission>, k: Key): Option<Emission> {
    if h == [] then None
    else if KeyOf(c, h[|h| - 1].row) == k then Some(h[|h| - 1])
    else LastEmission(c, h[..|h| - 1], k)
  }

  /** Two rows have the same value in a field, or neither has one. */
  ghost predicate SameField(a: Row, b: Row, f: Field) {
    && ((f in a && a[f] != Null) <==> (f in b && b[f] != Null))
    && (f in a && f in b && a[f] != Null && b[f] != Null ==> a[f] == b[f])
  }

  /** Neither has a number in a field, or both have and they are no further apart than the field's own
      tolerance, else the common one; with no tolerance at all they are equal. */
  ghost predicate CloseField(c: Config, a: Row, b: Row, f: Field) {
    var t := if f in c.numericTolerances then c.numericTolerances[f] else c.tolerance;
    && ((f in a && a[f].Num?) <==> (f in b && b[f].Num?))
    && (f in a && f in b && a[f].Num? && b[f].Num? ==>
          if t <= 0.0 then a[f].num == b[f].num else -t <= a[f].num - b[f].num <= t)
  }

  /** Nothing that is compared for the same key has changed. */
  ghost predicate Close(c: Config, a: Row, b: Row) {
    && (forall f :: f in c.valueFields ==> SameField(a, b, f))
    && (forall f :: f in c.numericFields ==> CloseField(c, a, b, f))
  }

  /** `e` stands for `row`: same key and exact fields, the same fields absent, every number within
      its own tolerance of what was written. */
  ghost predicate Represents(c: Config, e: Emission, row: Row) {
    (forall f :: f in c.keyFields ==> SameField(e.row, row, f)) && Close(c, e.row, row)
  }

  /** Projections are equal when every field is. */
  lemma ProjectMeaning(a: Row, b: Row, fields: seq<Field>)
    ensures Project(a, fields) == Project(b, fields) <==> forall f :: f in fields ==> SameField(a, b, f)
  {
    if Project(a, fields) == Project(b, fields) {
      forall f | f in fields
        ensures SameField(a, b, f)
      {
        var i :| 0 <= i < |fields| && fields[i] == f;
        assert Project(a, fields)[i] == Project(b, fields)[i];
      }
    } else {
      var i :| 0 <= i < |fields| && Project(a, fields)[i] != Project(b, fields)[i];
      assert !SameField(a, b, fields[i]);
    }
  }

  lemma NumbersMeaning(c: Config, a: Row, b: Row)
    ensures NumbersStay(c, Numbers(c, a), Numbers(c, b)) <==>
            forall f :: f in c.numericFields ==> CloseField(c, a, b, f)
  {
    forall i | 0 <= i < |c.numericFields|
      ensures FieldStays(ToleranceOf(c, c.numericFields[i]), Numbers(c, a)[i], Numbers(c, b)[i])
              <==> CloseField(c, a, b, c.numericFields[i])
    {
    }
    hide FieldStays, CloseField, ToleranceOf, Numbers;
    if NumbersStay(c, Numbers(c, a), Numbers(c, b)) {
      forall f | f in c.numericFields
        ensures CloseField(c, a, b, f)
      {
        var i :| 0 <= i < |c.numericFields| && c.numericFields[i] == f;
      }
    } else {
      var i :| 0 <= i < |c.numericFields|
               && !FieldStays(ToleranceOf(c, c.numericFields[i]), Numbers(c, a)[i], Numbers(c, b)[i]);
      assert !CloseField(c, a, b, c.numericFields[i]);
    }
  }

  /** A row is left out exactly when it is close to the one written for its key and that one is younger
      than a heartbeat; a row of a key that is not remembered is never left out. */
  lemma MustWriteMeaning(c: Config, e: Row, at: Time, row: Row, now: Time)
    ensures MustWrite(c, Some(EntryOf(c, e, at)), row, now) <==>
            !(Close(c, e, row) && now - at < c.heartbeatSeconds as real)
    ensures MustWrite(c, None, row, now)
  {
    ProjectMeaning(e, row, c.valueFields);
    NumbersMeaning(c, e, row);
    hide Project, NumbersStay, Numbers, SameField, CloseField;
  }

  /** A row written in this poll counts whatever the heartbeat; a positive one makes it less than a
      heartbeat old anyway. */
  ghost predicate RepresentsNow(c: Config, e: Option<Emission>, row: Row, now: Time) {
    e.Some? && Represents(c, e.value, row) && (e.value.at == now || now - e.value.at < c.heartbeatSeconds as real)
  }

  /** When row `r` of a kept poll has been handled, the last row of its key on disk stands for it. */
  ghost predicate RowRepresented(c: Config, turns: seq<Turn>, n: nat, r: nat)
    requires n < |turns| && r < |turns[n].rows|
  {
    var row := turns[n].rows[r];
    RepresentsNow(c, LastEmission(c, DurableAt(c, turns, n, r + 1), KeyOf(c, row)), row, turns[n].tick.now)
  }

  ghost predicate AllRepresented(c: Config, turns: seq<Turn>) {
    forall n, r ::
      0 <= n < |turns| && 0 <= r < |turns[n].rows| && turns[n].tick.fate.Kept? && Out(c, turns, n).Some? ==>
        RowRepresented(c, turns, n, r)
  }

  /******* Times and fates *******/

  /** Poll `n` is of the same process and day as the one before. */
  predicate Continues(ticks: seq<Tick>, n: nat)
    requires n < |ticks|
  {
    n > 0 && !ticks[n].restarted && ticks[n - 1].day == ticks[n].day
  }

  /** The time of the last expiry when poll `n` compares its rows. */
  function ExpiryAt(c: Config, ticks: seq<Tick>, n: nat): Time
    requires n < |ticks|
    decreases n, 1
  {
    if Expires(c, ticks, n) then ticks[n].now else ExpiryAt(c, ticks, n - 1)
  }

  predicate Expires(c: Config, ticks: seq<Tick>, n: nat)
    requires n < |ticks|
    decreases n, 0
  {
    Continues(ticks, n) ==> ticks[n].now - ExpiryAt(c, ticks, n - 1) >= ExpiryStep(c)
  }

  /** Poll `m` leaves what was written at poll `i` in the tracker. */
  predicate Passes(c: Config, ticks: seq<Tick>, i: nat, m: nat)
    requires i < |ticks| && m < |ticks|
  {
    && Continues(ticks, m)
    && !(Expires(c, ticks, m) && ticks[m].now - ticks[i].now >= c.heartbeatSeconds as real)
  }

  /** What was written at poll `i` is still there when poll `n` compares its rows. */
  ghost predicate Alive(c: Config, ticks: seq<Tick>, i: nat, n: nat)
    requires i <= n < |ticks|
  {
    forall m :: i < m <= n ==> Passes(c, ticks, i, m)
  }

  predicate Commits(fate: Fate) {
    fate.Kept? || (fate.Landed? && fate.committed > 0)
  }

  /** What poll `i` committed still speaks for a key at poll `k`, although poll `j`, perhaps the same one,
      has put rows on disk that it did not commit. */
  ghost predicate Hides(c: Config, ticks: seq<Tick>, i: nat, j: nat, k: nat) {
    && i <= j < k < |ticks|
    && Commits(ticks[i].fate) && ticks[j].fate.Landed? && ticks[k].fate.Kept?
    && Alive(c, ticks, i, k) && ticks[k].now - ticks[i].now < c.heartbeatSeconds as real
  }

  ghost predicate Truthful(c: Config, ticks: seq<Tick>) {
    forall i, j, k :: !Hides(c, ticks, i, j, k)
  }

  /******* What the tracker remembers was written *******/

  ghost predicate Known(c: Config, h: seq<Emission>, k: Key, entry: Entry) {
    var e := LastEmission(c, h, k);
    e.Some? && entry == EntryOf(c, e.value.row, e.value.at)
  }

  /** An entry of the tracker goes back to poll `i`; it is the last row of its key on disk, unless a poll
      since then put rows there that it did not commit. */
  ghost predicate Stems(c: Config, ticks: seq<Tick>, n: nat, h: seq<Emission>, k: Key, entry: Entry, i: nat)
    requires n < |ticks|
  {
    && i <= n && Alive(c, ticks, i, n) && ticks[i].now == entry.at && Commits(ticks[i].fate)
    && ((exists j :: i <= j <= n && ticks[j].fate.Landed?) || Known(c, h, k, entry))
  }

  ghost predicate Stem(c: Config, ticks: seq<Tick>, n: nat, h: seq<Emission>, k: Key, entry: Entry)
    requires n < |ticks|
  {
    exists i :: Stems(c, ticks, n, h, k, entry, i)
  }

  /** The same when poll `n` compares its rows, for an entry of an earlier poll. */
  ghost predicate StemBefore(c: Config, ticks: seq<Tick>, n: nat, h: seq<Emission>, k: Key, entry: Entry)
    requires n < |ticks|
  {
    n > 0 && exists i :: Stems(c, ticks, n - 1, h, k, entry, i) && Alive(c, ticks, i, n)
  }

  lemma EmissionLast(c: Config, h: seq<Emission>, row: Row, at: Time, k: Key)
    ensures LastEmission(c, h + [Emission(row, at)], k) ==
            if KeyOf(c, row) == k then Some(Emission(row, at)) else LastEmission(c, h, k)
  {
    assert (h + [Emission(row, at)])[..|h|] == h;
    hide KeyOf;
  }

  /** `h'` has the overlay's rows behind `h`. */
  ghost predicate OverlaySays(c: Config, h: seq<Emission>, h': seq<Emission>, overlay: map<Key, Entry>, now: Time,
                              k: Key)
  {
    && (k in overlay ==> Known(c, h', k, overlay[k]) && overlay[k].at == now)
    && (k !in overlay ==> LastEmission(c, h', k) == LastEmission(c, h, k))
  }

  lemma OverlayMore(c: Config, h: seq<Emission>, h': seq<Emission>, overlay: map<Key, Entry>, row: Row, now: Time,
                    k: Key)
    requires OverlaySays(c, h, h', overlay, now, k)
    ensures OverlaySays(c, h, h' + [Emission(row, now)], overlay[KeyOf(c, row) := EntryOf(c, row, now)], now, k)
  {
    EmissionLast(c, h', row, now, k);
    hide KeyOf, LastEmission;
  }

  /** What a poll writes is the last of its keys; other keys are left. */
  lemma {:induction false} OverlayKnown(c: Config, last: map<Key, Entry>, h: seq<Emission>, rows: seq<Row>, now: Time,
                                        k: Key)
    ensures var (out, overlay) := Select(c, last, rows, now);
            OverlaySays(c, h, h + Stamped(out, now), overlay, now, k) && (out == [] ==> overlay == map[])
  {
    if rows == [] {
      assert h + Stamped([], now) == h;
    } else {
      hide KeyOf, MustWrite, EntryOf, Stamped, OverlaySays;
      OverlayKnown(c, last, h, rows[..|rows| - 1], now, k);
      var (out, overlay) := Select(c, last, rows[..|rows| - 1], now);
      var row := rows[|rows| - 1];
      OverlayMore(c, h, h + Stamped(out, now), overlay, row, now, k);
      StampedSnoc(h, out, row, now);
    }
  }

  /** Entries a partial commit adds are of its time. */
  lemma {:induction false} CommitAt(c: Config, last: map<Key, Entry>, rows: seq<Row>, now: Time, k: Key)
    requires k in CommitRows(c, last, rows, now)
    ensures var entry := CommitRows(c, last, rows, now)[k];
            (k in last && entry == last[k]) || (rows != [] && entry.at == now)
  {
    hide KeyOf;
    if rows != [] {
      var row := rows[|rows| - 1];
      if k != KeyOf(c, row) {
        CommitAt(c, last, rows[..|rows| - 1], now, k);
      }
    }
  }

  /** One poll, in terms of what is remembered when its rows are compared. */
  lemma TakenParts(c: Config, t: Tracker, turn: Turn)
    ensures var tick := turn.tick;
            var t1 := Expire(c, Reset(Begun(t, tick), tick.day), tick.now);
            var (out, t') := Taken(c, t, turn);
            && t'.day == Some(tick.day) && t'.lastExpiry == t1.lastExpiry
            && (out.Some? ==> out.value == Select(c, t1.last, turn.rows, tick.now).0)
            && (HasSignal(c, turn.rows) || turn.rows == [] ==> out.Some?)
            && t'.last == if out.Some? then CommitRows(c, t1.last, Part(tick.fate, out.value), tick.now) else t1.last
  {
    hide Select, CommitRows, HasSignal, Unexpired, Part;
  }

  /** Day and expiry time depend on the clock and the restarts alone. */
  lemma {:induction false} Bookkeeping(c: Config, turns: seq<Turn>, n: nat)
    requires n < |turns|
    ensures var t := RunTo(c, turns, n + 1);
            t.day == Some(turns[n].tick.day) && t.lastExpiry == Some(ExpiryAt(c, TicksOf(turns), n))
  {
    var tick := turns[n].tick;
    TakenParts(c, RunTo(c, turns, n), turns[n]);
    hide Taken, Unexpired;
    if n > 0 {
      Bookkeeping(c, turns, n - 1);
    }
  }

  lemma {:induction false} StillAlive(c: Config, ticks: seq<Tick>, i: nat, n: nat)
    requires i < n < |ticks|
    ensures Alive(c, ticks, i, n) <==> Alive(c, ticks, i, n - 1) && Passes(c, ticks, i, n)
  {
    hide Passes;
  }

  /** What is remembered when poll `n` compares its rows is what was remembered after the poll before,
      without what the expiry dropped; nothing at all after a restart or a change of day. */
  lemma Remembered(c: Config, turns: seq<Turn>, n: nat, k: Key)
    requires n < |turns| && k in LastAt(c, turns, n)
    ensures Continues(TicksOf(turns), n) && k in RunTo(c, turns, n).last
    ensures LastAt(c, turns, n)[k] == RunTo(c, turns, n).last[k]
    ensures Expires(c, TicksOf(turns), n) ==>
              turns[n].tick.now - LastAt(c, turns, n)[k].at < c.heartbeatSeconds as real
  {
    if n > 0 {
      Bookkeeping(c, turns, n - 1);
    }
    hide RunTo, ExpiryAt;
  }

  lemma EntryBefore(c: Config, turns: seq<Turn>, n: nat, k: Key)
    requires 0 < n < |turns| && k in LastAt(c, turns, n)
    requires Stem(c, TicksOf(turns), n - 1, After(c, turns, n - 1), k, RunTo(c, turns, n).last[k])
    ensures StemBefore(c, TicksOf(turns), n, Before(c, turns, n), k, LastAt(c, turns, n)[k])
  {
    var ticks := TicksOf(turns);
    Remembered(c, turns, n, k);
    var entry := LastAt(c, turns, n)[k];
    assert Before(c, turns, n) == After(c, turns, n - 1);
    hide RunTo, LastAt, After, Known;
    var i :| Stems(c, ticks, n - 1, After(c, turns, n - 1), k, entry, i);
    StillAlive(c, ticks, i, n);
  }

  /** An entry that this poll did not write. */
  lemma EntryStays(c: Config, ticks: seq<Tick>, n: nat, h: seq<Emission>, h': seq<Emission>, k: Key, entry: Entry)
    requires n < |ticks| && StemBefore(c, ticks, n, h, k, entry)
    requires ticks[n].fate.Landed? || LastEmission(c, h', k) == LastEmission(c, h, k)
    ensures Stem(c, ticks, n, h', k, entry)
  {
    var i :| Stems(c, ticks, n - 1, h, k, entry, i) && Alive(c, ticks, i, n);
    hide Alive;
    assert Stems(c, ticks, n, h', k, entry, i);
  }

  /** An entry that it did write. */
  lemma EntryWritten(c: Config, ticks: seq<Tick>, n: nat, h: seq<Emission>, k: Key, entry: Entry)
    requires n < |ticks| && entry.at == ticks[n].now && Commits(ticks[n].fate)
    requires ticks[n].fate.Landed? || Known(c, h, k, entry)
    ensures Stem(c, ticks, n, h, k, entry)
  {
    assert Stems(c, ticks, n, h, k, entry, n);
  }

  /** One poll, key by key. */
  lemma EntryAfter(c: Config, turns: seq<Turn>, n: nat, k: Key)
    requires n < |turns| && k in RunTo(c, turns, n + 1).last
    requires k in LastAt(c, turns, n) ==>
               StemBefore(c, TicksOf(turns), n, Before(c, turns, n), k, LastAt(c, turns, n)[k])
    ensures Stem(c, TicksOf(turns), n, After(c, turns, n), k, RunTo(c, turns, n + 1).last[k])
  {
    var ticks, last, h, h' := TicksOf(turns), LastAt(c, turns, n), Before(c, turns, n), After(c, turns, n);
    var tick, rows, out := turns[n].tick, turns[n].rows, Out(c, turns, n);
    var entry := RunTo(c, turns, n + 1).last[k];
    TakenParts(c, RunTo(c, turns, n), turns[n]);
    var overlay := Select(c, last, rows, tick.now).1;
    assert RunTo(c, turns, n + 1) == Taken(c, RunTo(c, turns, n), turns[n]).1;
    assert ticks[n] == tick;
    hide RunTo, Taken, LastAt, Before, StemBefore, Stem;
    if out.None? {
      assert h' == h + [] == h;
      hide Select, CommitRows;
      EntryStays(c, ticks, n, h, h', k, entry);
    } else if tick.fate.Lost? {
      assert h' == h + [] == h;
      assert entry == last[k];
      hide Select, CommitRows;
      EntryStays(c, ticks, n, h, h', k, entry);
    } else if tick.fate.Kept? {
      CommitIsOverlay(c, last, rows, tick.now);
      OverlayKnown(c, last, h, rows, tick.now, k);
      hide Select, CommitRows, Known, LastEmission;
      if k in overlay {
        EntryWritten(c, ticks, n, h', k, entry);
      } else {
        EntryStays(c, ticks, n, h, h', k, entry);
      }
    } else {
      CommitAt(c, last, Part(tick.fate, out.value), tick.now, k);
      hide Select, CommitRows, Known, LastEmission;
      if k in last && entry == last[k] {
        EntryStays(c, ticks, n, h, h', k, entry);
      } else {
        EntryWritten(c, ticks, n, h', k, entry);
      }
    }
  }

  lemma {:induction false} RunStems(c: Config, turns: seq<Turn>, n: nat, k: Key)
    requires n < |turns|
    ensures k in LastAt(c, turns, n) ==>
              StemBefore(c, TicksOf(turns), n, Before(c, turns, n), k, LastAt(c, turns, n)[k])
    ensures k in RunTo(c, turns, n + 1).last ==>
              Stem(c, TicksOf(turns), n, After(c, turns, n), k, RunTo(c, turns, n + 1).last[k])
  {
    if k in LastAt(c, turns, n) {
      Remembered(c, turns, n, k);
      RunStems(c, turns, n - 1, k);
      EntryBefore(c, turns, n, k);
    }
    hide RunTo, LastAt, StemBefore, Stem, Before, After;
    if k in RunTo(c, turns, n + 1).last {
      EntryAfter(c, turns, n, k);
    }
  }

  /******* Every row is represented *******/

  /** The comparison that decided about the last row: with what the poll wrote, or with what was remembered. */
  lemma Decided(c: Config, last: map<Key, Entry>, rows: seq<Row>, now: Time)
    requires rows != []
    ensures var row := rows[|rows| - 1];
            var k, overlay := KeyOf(c, row), Select(c, last, rows, now).1;
            && (k in overlay ==> overlay[k] == EntryOf(c, row, now) || !MustWrite(c, Some(overlay[k]), row, now))
            && (k !in overlay ==> k in last && !MustWrite(c, Some(last[k]), row, now))
  {
    assert MustWrite(c, None, rows[|rows| - 1], now);
    hide KeyOf, EntryOf, MustWrite;
  }

  lemma {:induction false} LastEmissionKey(c: Config, h: seq<Emission>, k: Key)
    ensures LastEmission(c, h, k).Some? ==> KeyOf(c, LastEmission(c, h, k).value.row) == k
  {
    if h != [] {
      LastEmissionKey(c, h[..|h| - 1], k);
    }
  }

  lemma KnownRepresents(c: Config, h: seq<Emission>, row: Row, entry: Entry, now: Time)
    requires Known(c, h, KeyOf(c, row), entry)
    requires entry == EntryOf(c, row, now) || !MustWrite(c, Some(entry), row, now)
    ensures RepresentsNow(c, LastEmission(c, h, KeyOf(c, row)), row, now)
  {
    var e := LastEmission(c, h, KeyOf(c, row)).value;
    LastEmissionKey(c, h, KeyOf(c, row));
    ProjectMeaning(e.row, row, c.keyFields);
    if entry == EntryOf(c, row, now) {
      SameIsClose(c, e.row, row);
    } else {
      MustWriteMeaning(c, e.row, e.at, row, now);
    }
    hide LastEmission, Project, Close, MustWrite;
  }

  lemma SameIsClose(c: Config, a: Row, b: Row)
    requires Project(a, c.valueFields) == Project(b, c.valueFields) && Numbers(c, a) == Numbers(c, b)
    ensures Close(c, a, b)
  {
    ProjectMeaning(a, b, c.valueFields);
    assert forall i :: 0 <= i < |c.numericFields| ==>
        FieldStays(ToleranceOf(c, c.numericFields[i]), Numbers(c, b)[i], Numbers(c, b)[i]);
    NumbersMeaning(c, a, b);
    hide Project, SameField, CloseField, FieldStays;
  }

  /** An entry that suppresses a row is the last row on disk, unless the polls hide another. */
  lemma SuppressingIsKnown(c: Config, ticks: seq<Tick>, n: nat, h: seq<Emission>, k: Key, entry: Entry)
    requires n < |ticks| && ticks[n].fate.Kept? && StemBefore(c, ticks, n, h, k, entry)
    requires ticks[n].now - entry.at < c.heartbeatSeconds as real
    requires forall i, j :: !Hides(c, ticks, i, j, n)
    ensures Known(c, h, k, entry)
  {
    hide Known, Alive;
    var i: nat :| Stems(c, ticks, n - 1, h, k, entry, i) && Alive(c, ticks, i, n);
    assert forall j: nat :: i <= j <= n - 1 && ticks[j].fate.Landed? ==> Hides(c, ticks, i, j, n);
  }

  lemma RowIsRepresented(c: Config, turns: seq<Turn>, n: nat, r: nat)
    requires n < |turns| && r < |turns[n].rows| && turns[n].tick.fate.Kept?
    requires forall i, j :: !Hides(c, TicksOf(turns), i, j, n)
    ensures RowRepresented(c, turns, n, r)
  {
    var last, h, now := LastAt(c, turns, n), Before(c, turns, n), turns[n].tick.now;
    var row, rows := turns[n].rows[r], turns[n].rows[..r + 1];
    var k := KeyOf(c, row);
    assert rows[|rows| - 1] == row;
    var (out, overlay) := Select(c, last, rows, now);
    RunStems(c, turns, n, k);
    OverlayKnown(c, last, h, rows, now, k);
    Decided(c, last, rows, now);
    hide LastAt, Before, Select, Known, StemBefore, Hides, RepresentsNow, LastEmission, KeyOf;
    var h' := h + Stamped(out, now);
    if k in overlay {
      KnownRepresents(c, h', row, overlay[k], now);
    } else {
      SuppressingIsKnown(c, TicksOf(turns), n, h, k, last[k]);
      assert Known(c, h', k, last[k]) by {
        SameKnown(c, h, h', k, last[k]);
      }
      KnownRepresents(c, h', row, last[k], now);
    }
  }

  lemma SameKnown(c: Config, h: seq<Emission>, h': seq<Emission>, k: Key, entry: Entry)
    requires Known(c, h, k, entry) && LastEmission(c, h', k) == LastEmission(c, h, k)
    ensures Known(c, h', k, entry)
  {
  }

  /** Selected rows are taken in order: first those of the first `n` rows, then some of the rest. */
  lemma {:induction false} SelectedLater(c: Config, last: map<Key, Entry>, rows: seq<Row>, n: nat, now: Time)
    requires n <= |rows|
    ensures var early, all := Select(c, last, rows[..n], now).0, Select(c, last, rows, now).0;
            early <= all && forall x :: x in all[|early|..] ==> x in rows[n..]
    decreases |rows|
  {
    if n < |rows| {
      var front, row := rows[..|rows| - 1], rows[|rows| - 1];
      SelectedLater(c, last, front, n, now);
      assert front[..n] == rows[..n] && rows[n..] == front[n..] + [row];
      hide KeyOf, MustWrite, EntryOf;
      var early, before := Select(c, last, rows[..n], now).0, Select(c, last, front, now).0;
      assert (before + [row])[|early|..] == before[|early|..] + [row];
    } else {
      assert rows[..n] == rows;
    }
  }

  lemma StampedSplit(early: seq<Row>, all: seq<Row>, now: Time)
    requires early <= all
    ensures Stamped(all, now) == Stamped(early, now) + Stamped(all[|early|..], now)
    ensures forall e :: e in Stamped(all[|early|..], now) ==> e.row in all[|early|..]
  {
  }

  /** What the rest of a poll adds to the disk comes from the rest of its rows. */
  lemma AfterSplit(c: Config, turns: seq<Turn>, n: nat, r: nat) returns (more: seq<Emission>)
    requires n < |turns| && r <= |turns[n].rows| && !turns[n].tick.fate.Lost? && Out(c, turns, n).Some?
    ensures After(c, turns, n) == DurableAt(c, turns, n, r) + more
    ensures forall e :: e in more ==> e.row in turns[n].rows[r..]
  {
    var last, rows, now := LastAt(c, turns, n), turns[n].rows, turns[n].tick.now;
    TakenParts(c, RunTo(c, turns, n), turns[n]);
    var early, all := Select(c, last, rows[..r], now).0, Select(c, last, rows, now).0;
    assert Out(c, turns, n).value == all;
    hide RunTo, Taken, LastAt, Before, Out, Select;
    SelectedLater(c, last, rows, r, now);
    StampedSplit(early, all, now);
    more := Stamped(all[|early|..], now);
    var h := Before(c, turns, n);
    hide Stamped;
    assert h + (Stamped(early, now) + more) == h + Stamped(early, now) + more;
  }

  /** Adding rows of other keys leaves the last row of a key. */
  lemma {:induction false} LastEmissionStays(c: Config, h: seq<Emission>, more: seq<Emission>, k: Key)
    requires forall e :: e in more ==> KeyOf(c, e.row) != k
    ensures LastEmission(c, h + more, k) == LastEmission(c, h, k)
    decreases |more|
  {
    if more == [] {
      assert h + more == h;
    } else {
      LastEmissionStays(c, h, more[..|more| - 1], k);
      assert (h + more)[..|h + more| - 1] == h + more[..|more| - 1];
      assert more[|more| - 1] in more;
    }
  }

  /** For every row of a kept poll, unless some poll hides another before it: when that row has been
      handled, the last row of its key on disk that day represents it and was written in this poll or less
      than one heartbeat ago; restarts, signal errors and the clock notwithstanding. The comparison is with
      the row written, so nothing drifts however many polls pass. */
  lemma EveryRowIsRepresented(c: Config, turns: seq<Turn>, n: nat, r: nat)
    requires n < |turns| && r < |turns[n].rows| && turns[n].tick.fate.Kept? && Out(c, turns, n).Some?
    requires forall i, j :: !Hides(c, TicksOf(turns), i, j, n)
    ensures Before(c, turns, n) <= DurableAt(c, turns, n, r + 1) <= After(c, turns, n)
    ensures RowRepresented(c, turns, n, r)
  {
    RowIsRepresented(c, turns, n, r);
    var _ := AfterSplit(c, turns, n, r + 1);
    hide RowRepresented, After, Before, LastAt, Select, Stamped;
  }

  /** For the last row of its key in such a poll: the last row of that key on disk represents it. */
  lemma LastDurableRepresents(c: Config, turns: seq<Turn>, n: nat, r: nat)
    requires n < |turns| && r < |turns[n].rows| && turns[n].tick.fate.Kept? && Out(c, turns, n).Some?
    requires forall i, j :: !Hides(c, TicksOf(turns), i, j, n)
    requires forall s :: r < s < |turns[n].rows| ==> KeyOf(c, turns[n].rows[s]) != KeyOf(c, turns[n].rows[r])
    ensures var row := turns[n].rows[r];
            RepresentsNow(c, LastEmission(c, After(c, turns, n), KeyOf(c, row)), row, turns[n].tick.now)
  {
    RowIsRepresented(c, turns, n, r);
    var more := AfterSplit(c, turns, n, r + 1);
    var rows := turns[n].rows;
    var k := KeyOf(c, rows[r]);
    forall e | e in more
      ensures KeyOf(c, e.row) != k
    {
      var s :| 0 <= s < |rows[r + 1..]| && rows[r + 1..][s] == e.row;
      assert rows[r + 1 + s] == e.row;
    }
    hide After, DurableAt, LastEmission, RepresentsNow, KeyOf, Out;
    LastEmissionStays(c, DurableAt(c, turns, n, r + 1), more, k);
  }

  /******* A run in which a row is hidden *******/

  /** Rows to be found for a configuration: two of one key and two of another, each pair with different
      exact fields; the first two have a signal. */
  ghost predicate Varied(c: Config, x: Row, y: Row, z: Row, w: Row) {
    && KeyOf(c, x) == KeyOf(c, y) != KeyOf(c, z) == KeyOf(c, w)
    && Project(x, c.valueFields) != Project(y, c.valueFields)
    && Project(z, c.valueFields) != Project(w, c.valueFields)
    && HasSignal(c, [x]) && HasSignal(c, [y])
  }

  /** `n` rows of one key, each different from the one before. */
  function Alternating(z: Row, w: Row, n: nat): (rows: seq<Row>)
    ensures |rows| == n
  {
    if n == 0 then [] else Alternating(z, w, n - 1) + [Alternate(z, w, n)]
  }

  function Alternate(z: Row, w: Row, n: nat): Row {
    if n % 2 == 1 then z else w
  }

  function CommittedBy(fate: Fate): nat {
    if fate.Landed? then fate.committed else 0
  }

  /** `y` behind `n` rows that differ from what is there; `x` is the last of them if it is written `again`. */
  function HidingRows(x: Row, y: Row, z: Row, w: Row, n: nat, again: bool): seq<Row> {
    if again && n > 0 then Alternating(z, w, n - 1) + [x] + [y] else Alternating(z, w, n) + [y]
  }

  /** `x` is observed at `i` and `k`; `y` at `j`, behind as many other rows as are committed there. */
  function WitnessRows(x: Row, y: Row, z: Row, w: Row, fate: Fate, i: nat, j: nat, k: nat, m: nat): seq<Row> {
    if m == j then HidingRows(x, y, z, w, CommittedBy(fate), i == j)
    else if m == i || m == k then [x]
    else []
  }

  function Witness(ticks: seq<Tick>, x: Row, y: Row, z: Row, w: Row, i: nat, j: nat, k: nat): (turns: seq<Turn>)
    requires j < |ticks|
    ensures |turns| == |ticks| && TicksOf(turns) == ticks
  {
    seq(|ticks|, m requires 0 <= m < |ticks| => Turn(WitnessRows(x, y, z, w, ticks[j].fate, i, j, k, m), ticks[m]))
  }

  /** Selecting one more row. */
  lemma SelectSnoc(c: Config, last: map<Key, Entry>, rows: seq<Row>, row: Row, now: Time)
    ensures var (out, overlay) := Select(c, last, rows, now);
            var k := KeyOf(c, row);
            Select(c, last, rows + [row], now) ==
            if MustWrite(c, if k in overlay then Some(overlay[k]) else Lookup(last, k), row, now)
            then (out + [row], overlay[k := EntryOf(c, row, now)]) else (out, overlay)
  {
    assert (rows + [row])[..|rows|] == rows;
    hide KeyOf, MustWrite, EntryOf;
  }

  lemma NothingSelected(c: Config, last: map<Key, Entry>, now: Time)
    ensures Select(c, last, [], now) == ([], map[])
  {
  }

  /** Every one of these rows of one key is written. */
  ghost predicate AllWritten(c: Config, last: map<Key, Entry>, rows: seq<Row>, k: Key, now: Time) {
    var (out, overlay) := Select(c, last, rows, now);
    && out == rows
    && (forall key :: key in overlay ==> key == k)
    && (rows != [] ==> k in overlay && overlay[k] == EntryOf(c, rows[|rows| - 1], now))
  }

  lemma OneMoreWritten(c: Config, last: map<Key, Entry>, rows: seq<Row>, row: Row, now: Time)
    requires AllWritten(c, last, rows, KeyOf(c, row), now) && KeyOf(c, row) !in last
    requires rows != [] ==> Project(rows[|rows| - 1], c.valueFields) != Project(row, c.valueFields)
    ensures AllWritten(c, last, rows + [row], KeyOf(c, row), now)
  {
    SelectSnoc(c, last, rows, row, now);
    assert MustWrite(c, None, row, now);
    assert rows != [] ==> MustWrite(c, Some(EntryOf(c, rows[|rows| - 1], now)), row, now);
    hide KeyOf, Select, MustWrite, EntryOf;
  }

  lemma {:induction false} AlternatingWritten(c: Config, last: map<Key, Entry>, z: Row, w: Row, n: nat, now: Time)
    requires KeyOf(c, z) == KeyOf(c, w) && KeyOf(c, z) !in last
    requires Project(z, c.valueFields) != Project(w, c.valueFields)
    ensures AllWritten(c, last, Alternating(z, w, n), KeyOf(c, z), now)
  {
    if n == 0 {
      NothingSelected(c, last, now);
    } else {
      var front, row := Alternating(z, w, n - 1), Alternate(z, w, n);
      assert Alternating(z, w, n) == front + [row];
      assert n > 1 ==> front[n - 2] == Alternate(z, w, n - 1);
      hide AllWritten, KeyOf, Project, Alternating;
      AlternatingWritten(c, last, z, w, n - 1, now);
      OneMoreWritten(c, last, front, row, now);
    }
  }

  /** What is held, and what is the last of the key on disk, when the first `n` polls have passed. */
  ghost predicate Holding(c: Config, ticks: seq<Tick>, x: Row, y: Row, z: Row, i: nat, j: nat, n: nat,
                          last: map<Key, Entry>, h: seq<Emission>)
    requires i <= j < |ticks|
  {
    var k := KeyOf(c, x);
    && (n <= i ==> last == map[])
    && (i < n ==> k in last && last[k] == EntryOf(c, x, ticks[i].now))
    && (n <= j ==> KeyOf(c, z) !in last)
    && (j < n ==> LastEmission(c, h, k) == Some(Emission(y, ticks[j].now)))
  }

  /** The rows on disk when the first `n` polls have passed. */
  function DiskTo(c: Config, turns: seq<Turn>, n: nat): seq<Emission>
    requires n <= |turns|
  {
    if n == 0 then [] else After(c, turns, n - 1)
  }

  ghost predicate WitnessHolding(c: Config, ticks: seq<Tick>, x: Row, y: Row, z: Row, w: Row, i: nat, j: nat, k: nat,
                                 n: nat)
    requires i <= j < |ticks| && n <= |ticks|
  {
    var turns := Witness(ticks, x, y, z, w, i, j, k);
    Holding(c, ticks, x, y, z, i, j, n, RunTo(c, turns, n).last, DiskTo(c, turns, n))
  }

  lemma SignalAmong(c: Config, rows: seq<Row>, row: Row)
    requires HasSignal(c, [row]) && row in rows
    ensures HasSignal(c, rows)
  {
    var j :| 0 <= j < |c.signalFields| && Get([row][0], c.signalFields[j]) != Null;
    var i :| 0 <= i < |rows| && rows[i] == row;
    assert Get(rows[i], c.signalFields[j]) != Null;
  }

  /** An entry an expiry has no reason to drop. */
  lemma Retained(c: Config, turns: seq<Turn>, n: nat, k: Key)
    requires n < |turns| && Continues(TicksOf(turns), n) && k in RunTo(c, turns, n).last
    requires Expires(c, TicksOf(turns), n) ==>
               turns[n].tick.now - RunTo(c, turns, n).last[k].at < c.heartbeatSeconds as real
    ensures k in LastAt(c, turns, n) && LastAt(c, turns, n)[k] == RunTo(c, turns, n).last[k]
  {
    Bookkeeping(c, turns, n - 1);
    hide RunTo, ExpiryAt;
  }

  lemma {:induction false} CommitOthers(c: Config, last: map<Key, Entry>, rows: seq<Row>, now: Time, k: Key)
    requires forall row :: row in rows ==> KeyOf(c, row) != k
    ensures var last' := CommitRows(c, last, rows, now);
            (k in last' <==> k in last) && (k in last ==> last'[k] == last[k])
  {
    if rows != [] {
      CommitOthers(c, last, rows[..|rows| - 1], now, k);
      assert rows[|rows| - 1] in rows;
    }
  }

  lemma {:induction false} AlternatingRows(c: Config, z: Row, w: Row, n: nat)
    ensures forall row :: row in Alternating(z, w, n) ==> row == z || row == w
  {
    if n > 0 {
      AlternatingRows(c, z, w, n - 1);
    }
  }

  /** Poll `j` selects all its rows, and commits all but the last. */
  lemma HidingSelection(c: Config, last: map<Key, Entry>, x: Row, y: Row, z: Row, w: Row, n: nat, again: bool,
                        at: Time, now: Time)
    requires Varied(c, x, y, z, w) && KeyOf(c, z) !in last && (again ==> n > 0)
    requires if again then last == map[] else KeyOf(c, x) in last && last[KeyOf(c, x)] == EntryOf(c, x, at)
    ensures var rows := HidingRows(x, y, z, w, n, again);
            && Select(c, last, rows, now).0 == rows && |rows| == n + 1 && rows[n] == y
            && var last' := CommitRows(c, last, rows[..n], now);
               KeyOf(c, x) in last' && last'[KeyOf(c, x)] == EntryOf(c, x, if again then now else at)
  {
    var m := if again then n - 1 else n;
    var front := Alternating(z, w, m);
    AlternatingWritten(c, last, z, w, m, now);
    AlternatingRows(c, z, w, m);
    assert MustWrite(c, Some(EntryOf(c, x, at)), y, now) && MustWrite(c, Some(EntryOf(c, x, now)), y, now);
    assert MustWrite(c, None, x, now);
    hide Select, Alternating, MustWrite, EntryOf, KeyOf;
    if again {
      SelectSnoc(c, last, front, x, now);
      SelectSnoc(c, last, front + [x], y, now);
      assert (front + [x] + [y])[..n] == front + [x];
      assert (front + [x])[..m] == front;
    } else {
      SelectSnoc(c, last, front, y, now);
      assert (front + [y])[..n] == front;
      CommitOthers(c, last, front, now, KeyOf(c, x));
    }
  }

  /** The polls without rows, before `i` and between the others. */
  lemma HoldingOn(c: Config, turns: seq<Turn>, x: Row, y: Row, z: Row, i: nat, j: nat, k: nat, n: nat)
    requires i <= j < k < |turns| && n < k && Alive(c, TicksOf(turns), i, k)
    requires Holding(c, TicksOf(turns), x, y, z, i, j, n, RunTo(c, turns, n).last, DiskTo(c, turns, n))
    ensures n <= i ==> LastAt(c, turns, n) == map[]
    ensures i < n ==> KeyOf(c, x) in LastAt(c, turns, n)
                      && LastAt(c, turns, n)[KeyOf(c, x)] == EntryOf(c, x, turns[i].tick.now)
    ensures n <= j ==> KeyOf(c, z) !in LastAt(c, turns, n)
    ensures j < n ==> LastEmission(c, Before(c, turns, n), KeyOf(c, x)) == Some(Emission(y, turns[j].tick.now))
  {
    assert EntryOf(c, x, turns[i].tick.now).at == turns[i].tick.now;
    hide RunTo, LastAt, After, Before, Expires, KeyOf, EntryOf, LastEmission;
    forall key | key in LastAt(c, turns, n)
      ensures key in RunTo(c, turns, n).last
    {
      Remembered(c, turns, n, key);
    }
    if i < n {
      assert Passes(c, TicksOf(turns), i, n);
      SameDay(c, turns, n);
      Retained(c, turns, n, KeyOf(c, x));
    }
  }

  lemma SameDay(c: Config, turns: seq<Turn>, n: nat)
    requires n < |turns| && Continues(TicksOf(turns), n)
    ensures Before(c, turns, n) == After(c, turns, n - 1)
  {
  }

  lemma AtPoll(c: Config, turns: seq<Turn>, n: nat)
    requires n < |turns| && (turns[n].rows == [] || HasSignal(c, turns[n].rows))
    ensures var tick, out := turns[n].tick, Select(c, LastAt(c, turns, n), turns[n].rows, turns[n].tick.now).0;
            && Out(c, turns, n) == Some(out)
            && RunTo(c, turns, n + 1).last == CommitRows(c, LastAt(c, turns, n), Part(tick.fate, out), tick.now)
            && (out == [] || tick.fate.Lost? ==> After(c, turns, n) == Before(c, turns, n))
            && (!tick.fate.Lost? ==> After(c, turns, n) == Before(c, turns, n) + Stamped(out, tick.now))
  {
    TakenParts(c, RunTo(c, turns, n), turns[n]);
    hide LastAt, Select, CommitRows, HasSignal, Taken;
    assert Before(c, turns, n) + [] == Before(c, turns, n);
  }

  lemma EmptyPoll(c: Config, turns: seq<Turn>, n: nat)
    requires n < |turns| && turns[n].rows == []
    ensures RunTo(c, turns, n + 1).last == LastAt(c, turns, n) && After(c, turns, n) == Before(c, turns, n)
  {
    AtPoll(c, turns, n);
    NothingSelected(c, LastAt(c, turns, n), turns[n].tick.now);
    hide RunTo, LastAt, After, Before, Select;
  }

  lemma FirstPoll(c: Config, turns: seq<Turn>, n: nat, x: Row)
    requires n < |turns| && turns[n].rows == [x] && HasSignal(c, [x]) && Commits(turns[n].tick.fate)
    requires LastAt(c, turns, n) == map[]
    ensures RunTo(c, turns, n + 1).last == map[KeyOf(c, x) := EntryOf(c, x, turns[n].tick.now)]
  {
    var now := turns[n].tick.now;
    AtPoll(c, turns, n);
    OneSelected(c, map[], x, now);
    assert MustWrite(c, None, x, now);
    assert Part(turns[n].tick.fate, [x]) == [x];
    hide RunTo, LastAt, After, Before, Select, KeyOf, EntryOf, MustWrite;
  }

  lemma StampedSnoc(h: seq<Emission>, rows: seq<Row>, row: Row, now: Time)
    ensures h + Stamped(rows + [row], now) == h + Stamped(rows, now) + [Emission(row, now)]
  {
  }

  lemma LandedPart(c: Config, turns: seq<Turn>, j: nat, n: nat, y: Row)
    requires j < |turns| && turns[j].tick.fate == Landed(n) && HasSignal(c, turns[j].rows)
    requires |turns[j].rows| == n + 1 && turns[j].rows[n] == y
    requires Select(c, LastAt(c, turns, j), turns[j].rows, turns[j].tick.now).0 == turns[j].rows
    ensures var rows, now := turns[j].rows, turns[j].tick.now;
            && RunTo(c, turns, j + 1).last == CommitRows(c, LastAt(c, turns, j), rows[..n], now)
            && LastEmission(c, After(c, turns, j), KeyOf(c, y)) == Some(Emission(y, now))
  {
    var rows, now := turns[j].rows, turns[j].tick.now;
    hide RunTo, LastAt, After, Before, Select, KeyOf, Stamped, LastEmission, CommitRows, HasSignal;
    AtPoll(c, turns, j);
    assert rows == rows[..n] + [y];
    StampedSnoc(Before(c, turns, j), rows[..n], y, now);
    EmissionLast(c, Before(c, turns, j) + Stamped(rows[..n], now), y, now, KeyOf(c, y));
  }

  lemma HidingPoll(c: Config, turns: seq<Turn>, x: Row, y: Row, z: Row, w: Row, i: nat, j: nat, n: nat)
    requires Varied(c, x, y, z, w) && i <= j < |turns| && turns[j].tick.fate == Landed(n) && (i == j ==> n > 0)
    requires turns[j].rows == HidingRows(x, y, z, w, n, i == j)
    requires var last := LastAt(c, turns, j);
             && KeyOf(c, z) !in last
             && if i == j then last == map[]
                else KeyOf(c, x) in last && last[KeyOf(c, x)] == EntryOf(c, x, turns[i].tick.now)
    ensures var last := RunTo(c, turns, j + 1).last;
            && KeyOf(c, x) in last && last[KeyOf(c, x)] == EntryOf(c, x, turns[i].tick.now)
            && LastEmission(c, After(c, turns, j), KeyOf(c, x)) == Some(Emission(y, turns[j].tick.now))
  {
    assert KeyOf(c, x) == KeyOf(c, y) && HasSignal(c, [y]);
    hide RunTo, LastAt, After, Select, KeyOf, EntryOf, LastEmission, HidingRows, CommitRows, HasSignal, Project;
    HidingSelection(c, LastAt(c, turns, j), x, y, z, w, n, i == j, turns[i].tick.now, turns[j].tick.now);
    assert turns[j].rows[n] == y;
    SignalAmong(c, turns[j].rows, y);
    LandedPart(c, turns, j, n, y);
  }

  /** One poll of the witness. */
  lemma HoldingStep(c: Config, ticks: seq<Tick>, x: Row, y: Row, z: Row, w: Row, i: nat, j: nat, k: nat, n: nat)
    requires Varied(c, x, y, z, w) && Hides(c, ticks, i, j, k)
    requires n < k && WitnessHolding(c, ticks, x, y, z, w, i, j, k, n)
    ensures WitnessHolding(c, ticks, x, y, z, w, i, j, k, n + 1)
  {
    var turns := Witness(ticks, x, y, z, w, i, j, k);
    assert turns[n].rows == WitnessRows(x, y, z, w, ticks[j].fate, i, j, k, n);
    assert turns[n].tick == ticks[n] && turns[i].tick == ticks[i] && turns[j].tick == ticks[j];
    hide Witness, RunTo, LastAt, After, Before, Alive, KeyOf, EntryOf, LastEmission;
    HoldingOn(c, turns, x, y, z, i, j, k, n);
    if n == j {
      HidingPoll(c, turns, x, y, z, w, i, j, ticks[j].fate.committed);
    } else if n == i {
      FirstPoll(c, turns, n, x);
    } else {
      EmptyPoll(c, turns, n);
    }
  }

  lemma {:induction false} WitnessHolds(c: Config, ticks: seq<Tick>, x: Row, y: Row, z: Row, w: Row, i: nat, j: nat,
                                        k: nat, n: nat)
    requires Varied(c, x, y, z, w) && Hides(c, ticks, i, j, k) && n <= k
    ensures i <= j < k < |ticks| && WitnessHolding(c, ticks, x, y, z, w, i, j, k, n)
  {
    WitnessStart(c, ticks, x, y, z, w, i, j, k);
    hide WitnessHolding, Hides, Varied;
    if n > 0 {
      WitnessHolds(c, ticks, x, y, z, w, i, j, k, n - 1);
      HoldingStep(c, ticks, x, y, z, w, i, j, k, n - 1);
    }
  }

  lemma WitnessStart(c: Config, ticks: seq<Tick>, x: Row, y: Row, z: Row, w: Row, i: nat, j: nat, k: nat)
    requires Hides(c, ticks, i, j, k)
    ensures i <= j < k < |ticks| && WitnessHolding(c, ticks, x, y, z, w, i, j, k, 0)
  {
  }

  /** The row observed at `k` is not written, and the last row of its key on disk is another. */
  lemma RowIsHidden(c: Config, ticks: seq<Tick>, x: Row, y: Row, z: Row, w: Row, i: nat, j: nat, k: nat)
    requires Varied(c, x, y, z, w) && Hides(c, ticks, i, j, k)
    ensures var turns := Witness(ticks, x, y, z, w, i, j, k);
            && turns[k].rows == [x] && Out(c, turns, k) == Some([])
            && LastEmission(c, DurableAt(c, turns, k, 1), KeyOf(c, x)) == Some(Emission(y, ticks[j].now))
            && !RowRepresented(c, turns, k, 0)
  {
    var turns := Witness(ticks, x, y, z, w, i, j, k);
    var key, entry, now := KeyOf(c, x), EntryOf(c, x, ticks[i].now), ticks[k].now;
    assert turns[k] == Turn([x], ticks[k]);
    WitnessHolds(c, ticks, x, y, z, w, i, j, k, k);
    assert Passes(c, ticks, i, k);
    assert Before(c, turns, k) == After(c, turns, k - 1);
    assert !MustWrite(c, Some(entry), x, now);
    hide Witness, RunTo, After, Alive, EntryOf, LastEmission, KeyOf, MustWrite, LastAt, Before, Out;
    Retained(c, turns, k, key);
    OneSelected(c, LastAt(c, turns, k), x, now);
    ProjectMeaning(y, x, c.valueFields);
    hide SameField, Project;
    AtPoll(c, turns, k);
    assert [x][..1] == [x];
    assert Before(c, turns, k) + Stamped([], now) == Before(c, turns, k);
    hide Select;
  }

  lemma NotAllRepresented(c: Config, ticks: seq<Tick>, x: Row, y: Row, z: Row, w: Row, i: nat, j: nat, k: nat)
    returns (turns: seq<Turn>)
    requires Varied(c, x, y, z, w) && Hides(c, ticks, i, j, k)
    ensures TicksOf(turns) == ticks && !AllRepresented(c, turns)
  {
    turns := Witness(ticks, x, y, z, w, i, j, k);
    assert turns[k].tick == ticks[k];
    RowIsHidden(c, ticks, x, y, z, w, i, j, k);
    hide RowRepresented, Out, Witness, Varied;
    assert 0 <= k < |turns|;
  }

  /** For given times, fates and restarts: the last row on disk represents every row of every kept poll,
      whatever rows arrive, if and only if no poll hides another. */
  lemma RepresentedIffTruthful(c: Config, ticks: seq<Tick>, x: Row, y: Row, z: Row, w: Row)
    requires Varied(c, x, y, z, w)
    ensures (forall turns :: TicksOf(turns) == ticks ==> AllRepresented(c, turns)) <==> Truthful(c, ticks)
  {
    hide Hides, RowRepresented, TicksOf, Varied, Witness, Out;
    if Truthful(c, ticks) {
      forall turns: seq<Turn>, n, r | TicksOf(turns) == ticks && 0 <= n < |turns| && 0 <= r < |turns[n].rows|
                           && turns[n].tick.fate.Kept? && Out(c, turns, n).Some?
        ensures RowRepresented(c, turns, n, r)
      {
        RowIsRepresented(c, turns, n, r);
      }
    } else {
      var i, j, k :| Hides(c, ticks, i, j, k);
      var turns := NotAllRepresented(c, ticks, x, y, z, w, i, j, k);
    }
  }

  function Stopped(trip: string, stop: string): Row {
    map["trip" := Text(trip), "stop" := Text(stop)]
  }

  lemma StopsVary()
    ensures Varied(EXAMPLE, Stopped("a", "x"), Stopped("a", "y"), Stopped("b", "x"), Stopped("b", "y"))
  {
    var x, y, z, w := Stopped("a", "x"), Stopped("a", "y"), Stopped("b", "x"), Stopped("b", "y");
    assert KeyOf(EXAMPLE, x) == [Text("a")] == KeyOf(EXAMPLE, y);
    assert KeyOf(EXAMPLE, z) == [Text("b")] == KeyOf(EXAMPLE, w);
    assert Project(x, EXAMPLE.valueFields) == [Text("x")] == Project(z, EXAMPLE.valueFields);
    assert Project(y, EXAMPLE.valueFields) == [Text("y")] == Project(w, EXAMPLE.valueFields);
    assert [Text("a")][0] != [Text("b")][0] && [Text("x")][0] != [Text("y")][0];
    assert Get([x][0], EXAMPLE.signalFields[0]) != Null && Get([y][0], EXAMPLE.signalFields[0]) != Null;
  }

  /** The condition can fail: a trip's stop x is kept at 0; at 10 its stop y reaches the disk in a stage
      that raises; at 20 stop x is observed again. Nothing is written, and the disk says y. */
  lemma LandedRowHides()
    ensures var x, y := Stopped("a", "x"), Stopped("a", "y");
            var turns := [Turn([x], Tick("d", 0.0, Kept, false)), Turn([y], Tick("d", 10.0, Landed(0), false)),
                          Turn([x], Tick("d", 20.0, Kept, false))];
            && Out(EXAMPLE, turns, 2) == Some([])
            && LastEmission(EXAMPLE, After(EXAMPLE, turns, 2), KeyOf(EXAMPLE, x)) == Some(Emission(y, 10.0))
            && !RowRepresented(EXAMPLE, turns, 2, 0)
  {
    var c, x, y, z, w := EXAMPLE, Stopped("a", "x"), Stopped("a", "y"), Stopped("b", "x"), Stopped("b", "y");
    var turns := [Turn([x], Tick("d", 0.0, Kept, false)), Turn([y], Tick("d", 10.0, Landed(0), false)),
                  Turn([x], Tick("d", 20.0, Kept, false))];
    var ticks := TicksOf(turns);
    StopsVary();
    hide Stopped;
    assert Passes(c, ticks, 0, 1) && Passes(c, ticks, 0, 2);
    assert Hides(c, ticks, 0, 1, 2);
    assert Alternating(z, w, 0) + [y] == [y];
    assert Witness(ticks, x, y, z, w, 0, 1, 2) == turns;
    RowIsHidden(c, ticks, x, y, z, w, 0, 1, 2);
    hide Out, DurableAt, After, LastEmission, RowRepresented, KeyOf, Varied;
    NothingMore(c, turns, 2, x);
  }

  lemma NothingMore(c: Config, turns: seq<Turn>, n: nat, x: Row)
    requires n < |turns| && turns[n].rows == [x] && turns[n].tick.fate.Kept? && Out(c, turns, n) == Some([])
    ensures After(c, turns, n) == DurableAt(c, turns, n, 1)
  {
    TakenParts(c, RunTo(c, turns, n), turns[n]);
    assert [x][..1] == [x];
    hide RunTo, Taken, LastAt, Select;
  }

  /******* Only rows with news are written *******/

  /** A kept poll whose last row of the key on disk is `e`. */
  ghost predicate WroteLast(c: Config, turns: seq<Turn>, i: nat, k: Key, e: Row) {
    && i < |turns| && turns[i].tick.fate.Kept? && Out(c, turns, i).Some?
    && LastEmission(c, Stamped(Out(c, turns, i).value, turns[i].tick.now), k) == Some(Emission(e, turns[i].tick.now))
  }

  /** A poll that puts no row of the key on disk. */
  ghost predicate Silent(c: Config, turns: seq<Turn>, m: nat, k: Key) {
    m < |turns| && (turns[m].tick.fate.Lost? || Out(c, turns, m).None?
                    || forall row :: row in Out(c, turns, m).value ==> KeyOf(c, row) != k)
  }

  lemma SilentKeeps(c: Config, turns: seq<Turn>, m: nat, k: Key)
    requires m < |turns| && Silent(c, turns, m, k) && k in LastAt(c, turns, m)
    ensures k in RunTo(c, turns, m + 1).last && RunTo(c, turns, m + 1).last[k] == LastAt(c, turns, m)[k]
  {
    TakenParts(c, RunTo(c, turns, m), turns[m]);
    assert RunTo(c, turns, m + 1) == Taken(c, RunTo(c, turns, m), turns[m]).1;
    hide RunTo, Taken, LastAt, Select, KeyOf;
    var out := Out(c, turns, m);
    if out.Some? {
      var part := Part(turns[m].tick.fate, out.value);
      assert forall row :: row in part ==> row in out.value;
      CommitOthers(c, LastAt(c, turns, m), part, turns[m].tick.now, k);
    }
  }

  lemma WrittenIsRemembered(c: Config, turns: seq<Turn>, i: nat, k: Key, e: Row)
    requires WroteLast(c, turns, i, k, e)
    ensures k in RunTo(c, turns, i + 1).last && RunTo(c, turns, i + 1).last[k] == EntryOf(c, e, turns[i].tick.now)
  {
    var last, rows, now := LastAt(c, turns, i), turns[i].rows, turns[i].tick.now;
    TakenParts(c, RunTo(c, turns, i), turns[i]);
    assert RunTo(c, turns, i + 1) == Taken(c, RunTo(c, turns, i), turns[i]).1;
    hide RunTo, Taken, LastAt, KeyOf, EntryOf;
    CommitIsOverlay(c, last, rows, now);
    OverlayKnown(c, last, [], rows, now, k);
    assert [] + Stamped(Out(c, turns, i).value, now) == Stamped(Out(c, turns, i).value, now);
    hide Select, CommitRows, Stamped;
  }

  /** What a kept poll wrote is remembered until it is written again, expires, or the day or the process ends. */
  lemma {:induction false} StillRemembered(c: Config, turns: seq<Turn>, i: nat, n: nat, k: Key, e: Row)
    requires i < n < |turns| && Alive(c, TicksOf(turns), i, n) && WroteLast(c, turns, i, k, e)
    requires forall m :: i < m < n ==> Silent(c, turns, m, k)
    ensures k in LastAt(c, turns, n) && LastAt(c, turns, n)[k] == EntryOf(c, e, turns[i].tick.now)
    decreases n
  {
    hide RunTo, LastAt, WroteLast, Silent, Expires, KeyOf;
    assert Passes(c, TicksOf(turns), i, n);
    assert EntryOf(c, e, turns[i].tick.now).at == turns[i].tick.now;
    hide EntryOf;
    if n == i + 1 {
      assert i < |turns|;
      WrittenIsRemembered(c, turns, i, k, e);
    } else {
      assert Alive(c, TicksOf(turns), i, n - 1);
      StillRemembered(c, turns, i, n - 1, k, e);
      SilentKeeps(c, turns, n - 1, k);
    }
    Retained(c, turns, n, k);
  }

  lemma {:induction false} OverlaidKeys(c: Config, last: map<Key, Entry>, rows: seq<Row>, now: Time, k: Key)
    requires forall i :: 0 <= i < |rows| ==> KeyOf(c, rows[i]) != k
    ensures k !in Select(c, last, rows, now).1
  {
    hide KeyOf, MustWrite, EntryOf;
    if rows != [] {
      OverlaidKeys(c, last, rows[..|rows| - 1], now, k);
    }
  }

  /** The first row of its key in a poll, while what poll `i` wrote for that key is alive and is the last
      written: it goes to the disk exactly when it is not close to that row or a heartbeat has passed. */
  lemma WrittenIffNews(c: Config, turns: seq<Turn>, i: nat, n: nat, r: nat, e: Row)
    requires i < n < |turns| && r < |turns[n].rows| && Alive(c, TicksOf(turns), i, n)
    requires WroteLast(c, turns, i, KeyOf(c, turns[n].rows[r]), e)
    requires forall m :: i < m < n ==> Silent(c, turns, m, KeyOf(c, turns[n].rows[r]))
    requires forall s :: 0 <= s < r ==> KeyOf(c, turns[n].rows[s]) != KeyOf(c, turns[n].rows[r])
    ensures var row, now := turns[n].rows[r], turns[n].tick.now;
            var young := now - turns[i].tick.now < c.heartbeatSeconds as real;
            DurableAt(c, turns, n, r + 1) ==
            DurableAt(c, turns, n, r) + (if Close(c, e, row) && young then [] else [Emission(row, now)])
  {
    var rows, row, now, last := turns[n].rows, turns[n].rows[r], turns[n].tick.now, LastAt(c, turns, n);
    var k := KeyOf(c, row);
    StillRemembered(c, turns, i, n, k, e);
    MustWriteMeaning(c, e, turns[i].tick.now, row, now);
    OverlaidKeys(c, last, rows[..r], now, k);
    SelectSnoc(c, last, rows[..r], row, now);
    assert rows[..r + 1] == rows[..r] + [row];
    var out, h := Select(c, last, rows[..r], now).0, Before(c, turns, n);
    StampedSnoc(h, out, row, now);
    assert h + Stamped(out, now) + [] == h + Stamped(out, now);
    hide LastAt, Before, Select, KeyOf, MustWrite, Close, EntryOf, Stamped, WroteLast, Silent, Alive;
  }
}
