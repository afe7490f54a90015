/** The cross-process reader of the newest vehicle frame. It remembers how far it has walked
    and the frame it decoded there, and never reads past the writer's checkpoint. */
module FrameReader {
  import opened Common
  import opened RawLog

  const MAX_FRAME_BYTES: nat := 2 * 1024 * 1024
  const MAX_PROTOBUF_BYTES: nat := 8 * 1024 * 1024

  type Day = nat

  datatype VehicleFrame = VehicleFrame(timestamp: Stamp, raw: Bytes)

  /** A frame found by walking headers, not yet decompressed. */
  datatype Found = Found(timestamp: Stamp, position: nat, length: nat)

  /** gzip, and which timestamps are finite numbers. */
  datatype Format = Format(z: Gzip, finite: Stamp -> bool)

  /** Steps over headers from `off` to `end`, keeping the last one; None is a refusal. */
  function Walk(f: Format, s: Bytes, off: nat, end: nat, last: Option<Found>): (r: Option<Option<Found>>)
    requires end <= |s|
    ensures r.Some? && r.value.Some? && r.value != last ==>
              r.value.value.position + r.value.value.length <= end
    ensures r.Some? && last.Some? ==> r.value.Some?
    decreases end - off
  {
    if off >= end then Some(last)
    else if |s| - off < HEADER_BYTES then None
    else
      var timestamp, length := s[off..off + 8], UnpackU32(s[off + 8..off + HEADER_BYTES]);
      if !f.finite(timestamp) || length == 0 || length > MAX_FRAME_BYTES then None
      else if off + HEADER_BYTES + length > end then None
      else Walk(f, s, off + HEADER_BYTES + length, end, Some(Found(timestamp, off + HEADER_BYTES, length)))
  }

  function Decode(f: Format, s: Bytes, found: Found): Option<VehicleFrame>
    requires found.position + found.length <= |s|
  {
    var raw := f.z.decompress(s[found.position..found.position + found.length]);
    if raw.None? || |raw.value| > MAX_PROTOBUF_BYTES then None
    else Some(VehicleFrame(found.timestamp, raw.value))
  }

  /** What a reader with no memory returns: walk everything below the checkpoint, decode the last frame. */
  function FreshRead(f: Format, s: Bytes, checkpoint: Option<int>): Option<VehicleFrame> {
    if checkpoint.None? || checkpoint.value < 0 || checkpoint.value > |s| then None else
    var walked := Walk(f, s, 0, checkpoint.value, None);
    if walked.None? || walked.value.None? then None else Decode(f, s, walked.value.value)
  }

  /** The newest existing partition dated today or earlier. */
  function Newest(days: set<Day>, today: Day): (day: Option<Day>)
    ensures day.None? ==> forall d :: d in days ==> d > today
    ensures day.Some? ==>
              day.value in days && day.value <= today && forall d :: d in days && d <= today ==> d <= day.value
  {
    if today in days then Some(today) else if today == 0 then None else Newest(days, today - 1)
  }

  /** A path names a day; `inode` stands for the device and inode of the file that was opened there. */
  datatype Identity = Identity(day: Day, inode: nat)

  datatype OpenFile = OpenFile(inode: nat, bytes: Bytes)

  datatype Memory = Memory(identity: Option<Identity>, offset: nat, latest: Option<VehicleFrame>)

  /** One read: the partition and the checkpoint are looked up first, the file is opened later. */
  function CachedRead(f: Format, m: Memory, id: Identity, checkpoint: Option<int>, s: Bytes)
    : (Option<VehicleFrame>, Memory)
  {
    if checkpoint.None? || checkpoint.value < 0 || checkpoint.value > |s| then (None, m) else
    var end := checkpoint.value;
    var m' := if m.identity != Some(id) || end < m.offset then Memory(Some(id), 0, None) else m;
    var walked := Walk(f, s, m'.offset, end, None);
    if walked.None? then (None, m')
    else if walked.value.None? then (m'.latest, m'.(offset := end))
    else
      var frame := Decode(f, s, walked.value.value);
      if frame.None? then (None, m') else (frame, m'.(offset := end, latest := frame))
  }

  class LatestVehicleFrame {
    const f: Format
    var identity: Option<Identity>
    var offset: nat
    var latest: Option<VehicleFrame>

    ghost function View(): Memory
      reads this
    {
      Memory(identity, offset, latest)
    }

    constructor (f: Format)
      ensures this.f == f && View() == Memory(None, 0, None)
    {
      this.f := f;
      identity, offset, latest := None, 0, None;
    }

    /** The seek loop of one read. */
    method WalkHeaders(file: Bytes, start: nat, end: nat) returns (walked: Option<Option<Found>>)
      requires end <= |file|
      ensures walked == Walk(f, file, start, end, None)
    {
      var position := start;
      var lastHeader: Option<Found> := None;
      while position < end
        invariant lastHeader.Some? ==> lastHeader.value.position + lastHeader.value.length <= end
        invariant Walk(f, file, start, end, None) == Walk(f, file, position, end, lastHeader)
        decreases end - position
      {
        if |file| - position < HEADER_BYTES {
          return None;
        }
        var timestamp, length := file[position..position + 8], UnpackU32(file[position + 8..position + HEADER_BYTES]);
        if !f.finite(timestamp) || length == 0 || length > MAX_FRAME_BYTES {
          return None;
        }
        if position + HEADER_BYTES + length > end {
          return None;
        }
        lastHeader := Some(Found(timestamp, position + HEADER_BYTES, length));
        position := position + HEADER_BYTES + length;
      }
      return Some(lastHeader);
    }

    /** `listed` are the checkpoints when the partitions and the checkpoint are read, `current` the files
        when one is opened; the writer may have moved on, or the file been replaced, in between. */
    method Read(listed: map<Day, Option<int>>, current: map<Day, OpenFile>, today: Day)
      returns (frame: Option<VehicleFrame>)
      modifies this
      ensures var day := Newest(listed.Keys, today);
              if day.None? || day.value !in current
              then frame == None && View() == old(View())
              else
                var there := current[day.value];
                (frame, View()) ==
                CachedRead(f, old(View()), Identity(day.value, there.inode), listed[day.value], there.bytes)
    {
      var day := Newest(listed.Keys, today);
      if day.None? {
        return None;
      }
      var checkpoint := listed[day.value];
      if checkpoint.None? || checkpoint.value < 0 {
        return None;
      }
      var end: nat := checkpoint.value;
      if day.value !in current {
        return None;
      }
      var OpenFile(inode, file) := current[day.value];
      if end > |file| {
        return None;
      }
      if identity != Some(Identity(day.value, inode)) || end < offset {
        identity, offset, latest := Some(Identity(day.value, inode)), 0, None;
      }
      var walked := WalkHeaders(file, offset, end);
      if walked.None? {
        return None;
      }
      var lastHeader := walked.value;
      if lastHeader.Some? {
        var Found(timestamp, start, length) := lastHeader.value;
        var raw := f.z.decompress(file[start..start + length]);
        if raw.None? || |raw.value| > MAX_PROTOBUF_BYTES {
          return None;
        }
        latest := Some(VehicleFrame(timestamp, raw.value));
      }
      offset := end;
      return latest;
    }
  }

  /******* What a read finds in a log *******/

  /** The reader takes a frame with a finite timestamp and a compressed payload neither empty nor too large. */
  ghost predicate Servable(f: Format, r: Record) {
    f.finite(r.timestamp) && 0 < |f.z.compress(r.payload)| <= MAX_FRAME_BYTES
  }

  /** The newest record, unless some record is not servable or the newest is too large. */
  ghost function NewestFrame(f: Format, rs: seq<Record>): Option<VehicleFrame> {
    if rs == [] || (exists r :: r in rs && !Servable(f, r)) || |rs[|rs| - 1].payload| > MAX_PROTOBUF_BYTES then None
    else Some(VehicleFrame(rs[|rs| - 1].timestamp, rs[|rs| - 1].payload))
  }

  /** The header and payload of record `k`. */
  lemma RecordAt(f: Format, rs: seq<Record>, k: nat, t: Bytes)
    requires Lossless(f.z) && AllStorable(f.z, rs) && k < |rs|
    ensures var s, off, size := EncodeAll(f.z, rs) + t, |EncodeAll(f.z, rs[..k])|, |f.z.compress(rs[k].payload)|;
            && |EncodeAll(f.z, rs[..k + 1])| == off + HEADER_BYTES + size <= |EncodeAll(f.z, rs)|
            && s[off..off + 8] == rs[k].timestamp && UnpackU32(s[off + 8..off + HEADER_BYTES]) == size
            && f.z.decompress(s[off + HEADER_BYTES..off + HEADER_BYTES + size]) == Some(rs[k].payload)
  {
    FrameAtBoundary(f.z, rs, k, t);
    assert rs[..k + 1][..k] == rs[..k];
    assert |EncodeAll(f.z, rs[..k + 1])| == |EncodeAll(f.z, rs[..k])| + |Frame(f.z, rs[k])|;
    hide EncodeAll, UnpackU32, Frame;
  }

  /** Walking whole records finds the last of them, or refuses if one is not servable. */
  lemma {:induction false} WalkRecords(f: Format, rs: seq<Record>, k: nat, n: nat, t: Bytes, last: Option<Found>)
    requires Lossless(f.z) && AllStorable(f.z, rs) && k <= n <= |rs|
    ensures |EncodeAll(f.z, rs[..k])| <= |EncodeAll(f.z, rs[..n])| <= |EncodeAll(f.z, rs)|
    ensures var s := EncodeAll(f.z, rs) + t;
            var walked := Walk(f, s, |EncodeAll(f.z, rs[..k])|, |EncodeAll(f.z, rs[..n])|, last);
            && (walked.Some? <==> forall i :: k <= i < n ==> Servable(f, rs[i]))
            && (walked.Some? && k == n ==> walked.value == last)
            && (walked.Some? && k < n ==>
                  walked.value == Some(Found(rs[n - 1].timestamp, |EncodeAll(f.z, rs[..n - 1])| + HEADER_BYTES,
                                             |f.z.compress(rs[n - 1].payload)|)))
    decreases n - k
  {
    hide EncodeAll, UnpackU32, Lossless;
    EncodePrefix(f.z, rs, n);
    if k < n {
      RecordAt(f, rs, k, t);
      var r, off := rs[k], |EncodeAll(f.z, rs[..k])|;
      WalkRecords(f, rs, k + 1, n, t, Some(Found(r.timestamp, off + HEADER_BYTES, |f.z.compress(r.payload)|)));
    }
  }

  lemma AllServable(f: Format, rs: seq<Record>, n: nat)
    requires n <= |rs|
    ensures (exists r :: r in rs[..n] && !Servable(f, r)) <==> !forall i :: 0 <= i < n ==> Servable(f, rs[i])
  {
    assert forall i :: 0 <= i < n ==> rs[..n][i] == rs[i] && rs[i] in rs[..n];
    hide Servable;
  }

  lemma DecodeRecord(f: Format, rs: seq<Record>, k: nat, t: Bytes)
    requires Lossless(f.z) && AllStorable(f.z, rs) && k < |rs|
    ensures var s, start, size := EncodeAll(f.z, rs) + t, |EncodeAll(f.z, rs[..k])| + HEADER_BYTES,
              |f.z.compress(rs[k].payload)|;
            && start + size <= |s|
            && Decode(f, s, Found(rs[k].timestamp, start, size)) ==
               if |rs[k].payload| > MAX_PROTOBUF_BYTES then None
               else Some(VehicleFrame(rs[k].timestamp, rs[k].payload))
  {
    RecordAt(f, rs, k, t);
    hide EncodeAll, UnpackU32;
  }

  /** A read from byte zero of a log up to the end of its first `n` records finds the newest of them. */
  lemma FreshReadIsNewest(f: Format, rs: seq<Record>, n: nat, t: Bytes)
    requires Lossless(f.z) && AllStorable(f.z, rs) && n <= |rs|
    ensures FreshRead(f, EncodeAll(f.z, rs) + t, Some(|EncodeAll(f.z, rs[..n])|)) == NewestFrame(f, rs[..n])
  {
    assert rs[..0] == [] && |EncodeAll(f.z, rs[..0])| == 0;
    hide Walk, EncodeAll, Servable, UnpackU32, Decode, Lossless, AllStorable;
    WalkRecords(f, rs, 0, n, t, None);
    AllServable(f, rs, n);
    if n > 0 {
      DecodeRecord(f, rs, n - 1, t);
      assert rs[..n][n - 1] == rs[n - 1];
    }
  }

  /******* The memory is as good as reading everything again *******/

  /** What is remembered is what a walk from the start of `s` to the remembered offset finds. */
  ghost predicate Remembers(f: Format, m: Memory, s: Bytes) {
    && m.offset <= |s|
    && var walked := Walk(f, s, 0, m.offset, None);
       && walked.Some?
       && (walked.value.None? ==> m.latest == None)
       && (walked.value.Some? ==> m.latest == Decode(f, s, walked.value.value) && m.latest.Some?)
  }

  /** A walk that ends exactly at `mid` can be taken up again there. */
  lemma {:induction false} WalkOn(f: Format, s: Bytes, off: nat, mid: nat, end: nat, last: Option<Found>)
    requires off <= mid <= end <= |s|
    requires Walk(f, s, off, mid, last).Some?
    ensures Walk(f, s, off, end, last) == Walk(f, s, mid, end, Walk(f, s, off, mid, last).value)
    decreases mid - off
  {
    if off < mid {
      var timestamp, length := s[off..off + 8], UnpackU32(s[off + 8..off + HEADER_BYTES]);
      WalkOn(f, s, off + HEADER_BYTES + length, mid, end, Some(Found(timestamp, off + HEADER_BYTES, length)));
    }
  }

  /** The starting header only matters when there is no further one. */
  lemma WalkLast(f: Format, s: Bytes, off: nat, end: nat, last: Option<Found>)
    requires end <= |s|
    ensures off < end ==> Walk(f, s, off, end, last) == Walk(f, s, off, end, None)
    ensures off < end && Walk(f, s, off, end, last).Some? ==> Walk(f, s, off, end, last).value.Some?
  {
  }

  lemma {:induction false} WalkSame(f: Format, s: Bytes, s': Bytes, off: nat, end: nat, last: Option<Found>)
    requires end <= |s| && end <= |s'| && s[..end] == s'[..end]
    ensures Walk(f, s, off, end, last) == Walk(f, s', off, end, last)
    decreases end - off
  {
    if off + HEADER_BYTES <= end {
      assert s[..end][off..off + 8] == s[off..off + 8];
      assert s'[..end][off..off + 8] == s'[off..off + 8];
      assert s[..end][off + 8..off + HEADER_BYTES] == s[off + 8..off + HEADER_BYTES];
      assert s'[..end][off + 8..off + HEADER_BYTES] == s'[off + 8..off + HEADER_BYTES];
      var timestamp, length := s[off..off + 8], UnpackU32(s[off + 8..off + HEADER_BYTES]);
      WalkSame(f, s, s', off + HEADER_BYTES + length, end, Some(Found(timestamp, off + HEADER_BYTES, length)));
    }
  }

  lemma RemembersSame(f: Format, m: Memory, s: Bytes, s': Bytes)
    requires Remembers(f, m, s) && m.offset <= |s'| && s[..m.offset] == s'[..m.offset]
    ensures Remembers(f, m, s')
  {
    WalkSame(f, s, s', 0, m.offset, None);
    var walked := Walk(f, s, 0, m.offset, None);
    if walked.value.Some? {
      var found := walked.value.value;
      SubSlice(s, m.offset, found.position, found.position + found.length);
      SubSlice(s', m.offset, found.position, found.position + found.length);
    }
  }

  /** A reader whose memory is right for the file answers exactly as a reader without memory,
      and its memory is right again afterwards, whether it returned or refused. */
  lemma CachedReadIsFresh(f: Format, m: Memory, id: Identity, checkpoint: Option<int>, s: Bytes)
    requires m.identity == Some(id) ==> Remembers(f, m, s)
    ensures var (frame, m') := CachedRead(f, m, id, checkpoint, s);
            && frame == FreshRead(f, s, checkpoint)
            && (m'.identity == Some(id) ==> Remembers(f, m', s))
            && (m' == m || (m'.identity == Some(id) && checkpoint.Some? && m'.offset <= checkpoint.value <= |s|))
  {
    if checkpoint.Some? && 0 <= checkpoint.value <= |s| {
      var end := checkpoint.value;
      var m' := if m.identity != Some(id) || end < m.offset then Memory(Some(id), 0, None) else m;
      assert Remembers(f, m', s);
      WalkOn(f, s, 0, m'.offset, end, None);
      WalkLast(f, s, m'.offset, end, Walk(f, s, 0, m'.offset, None).value);
    }
  }

  /******* Any interleaving with the writers of all partitions *******/

  /** `pending` is a read that has looked up its partition and checkpoint but not opened the file; `was`
      is the file that was there then, which the reader does not look at. */
  datatype Pending = Idle | Looked(day: Day, checkpoint: Option<int>, was: nat)

  /** `replaced` counts how often a day's file was replaced by another; every new file has a new inode. */
  datatype System = System(logs: map<Day, World>, replaced: map<Day, nat>, memory: Memory, pending: Pending)

  /** A replacement is any log with its checkpoint, a restored copy for one. */
  datatype Action =
    | Write(day: Day, event: Event)
    | Replace(day: Day, log: World)
    | Look(today: Day)
    | Open

  function Inode(y: System, day: Day): nat {
    if day in y.replaced then y.replaced[day] else 0
  }

  function Existing(logs: map<Day, World>): set<Day> {
    set d | d in logs && logs[d].log.present
  }

  const NEW_LOG := World(LogFiles(false, [], None, []), false, [])

  function Act(f: Format, y: System, a: Action): System {
    match a
    case Write(day, event) =>
      var w := if day in y.logs then y.logs[day] else NEW_LOG;
      y.(logs := y.logs[day := RawLog.Next(f.z, w, event)])
    case Replace(day, log) => y.(logs := y.logs[day := log], replaced := y.replaced[day := Inode(y, day) + 1])
    case Look(today) =>
      var day := Newest(Existing(y.logs), today);
      y.(pending := if day.None? then Idle
                    else Looked(day.value, y.logs[day.value].log.checkpoint, Inode(y, day.value)))
    case Open =>
      if y.pending.Idle? || y.pending.day !in y.logs then y.(pending := Idle) else
      var id := Identity(y.pending.day, Inode(y, y.pending.day));
      var (_, m) := CachedRead(f, y.memory, id, y.pending.checkpoint, y.logs[y.pending.day].log.file);
      y.(memory := m, pending := Idle)
  }

  function RunSystem(f: Format, actions: seq<Action>): System {
    if actions == [] then System(map[], map[], Memory(None, 0, None), Idle)
    else Act(f, RunSystem(f, actions[..|actions| - 1]), actions[|actions| - 1])
  }

  /** The checkpoint is the end of the first `n` records of the log. */
  ghost predicate EndsRecord(f: Format, w: World, checkpoint: int, n: nat) {
    var rs := Records(w.complete);
    n <= |rs| && AllStorable(f.z, rs) && checkpoint == |EncodeAll(f.z, rs[..n])|
  }

  ghost predicate AtRecord(f: Format, w: World, checkpoint: int) {
    exists n: nat :: EndsRecord(f, w, checkpoint, n)
  }

  /** What the reader remembers is right for the file it was read from, as long as that file is there. */
  ghost predicate MemoryRight(f: Format, y: System) {
    y.memory.identity.Some? ==>
      var id := y.memory.identity.value;
      && id.inode <= Inode(y, id.day)
      && (id.inode == Inode(y, id.day) ==> id.day in y.logs && Remembers(f, y.memory, y.logs[id.day].log.file))
  }

  /** What it is about to read ends with a record, as long as the file it looked at is there. */
  ghost predicate PendingRight(f: Format, y: System) {
    y.pending.Looked? ==>
      && y.pending.day in y.logs
      && y.pending.was <= Inode(y, y.pending.day)
      && (y.pending.checkpoint.Some? && y.pending.was == Inode(y, y.pending.day) ==>
            AtRecord(f, y.logs[y.pending.day], y.pending.checkpoint.value))
  }

  ghost predicate SystemInv(f: Format, y: System) {
    (forall d :: d in y.logs ==> Sound(f.z, y.logs[d])) && MemoryRight(f, y) && PendingRight(f, y)
  }

  /** A walk that reaches its end has not entered a torn frame. */
  lemma {:induction false} WalkStops(f: Format, rs: seq<Record>, k: nat, t: Bytes, end: nat, last: Option<Found>)
    requires Lossless(f.z) && AllStorable(f.z, rs) && Torn(f.z, t) && k <= |rs|
    requires end <= |EncodeAll(f.z, rs) + t|
    requires Walk(f, EncodeAll(f.z, rs) + t, |EncodeAll(f.z, rs[..k])|, end, last).Some?
    ensures end <= |EncodeAll(f.z, rs)|
    decreases |rs| - k
  {
    hide EncodeAll, Torn, UnpackU32;
    var s, off := EncodeAll(f.z, rs) + t, |EncodeAll(f.z, rs[..k])|;
    EncodePrefix(f.z, rs, k);
    if k == |rs| {
      assert rs[..k] == rs;
      ParseTorn(f.z, EncodeAll(f.z, rs), t);
    } else if off < end {
      FrameAtBoundary(f.z, rs, k, t);
      var timestamp, length := s[off..off + 8], UnpackU32(s[off + 8..off + HEADER_BYTES]);
      WalkStops(f, rs, k + 1, t, end, Some(Found(timestamp, off + HEADER_BYTES, length)));
    }
  }

  lemma RecordsGrow(z: Gzip, w: World, e: Event)
    requires Lossless(z) && Sound(z, w)
    ensures var rs, rs' := Records(w.complete), Records(RawLog.Next(z, w, e).complete);
            |rs| <= |rs'| && rs'[..|rs|] == rs && AllStorable(z, rs')
  {
    var k :| Inv(z, w, k);
    var k' := NextKeepsInv(z, w, k, e);
    hide Repaired, Appended, Reported, Inv;
    var rs, rs' := Records(w.complete), Records(RawLog.Next(z, w, e).complete);
    assert AllStorable(z, rs') by {
      assert Inv(z, RawLog.Next(z, w, e), k');
    }
  }

  /** Complete records are there for good, whatever is written next. */
  lemma CompleteBytesStay(z: Gzip, w: World, e: Event)
    requires Lossless(z) && Sound(z, w)
    ensures AllStorable(z, Records(w.complete))
    ensures var whole := EncodeAll(z, Records(w.complete));
            && |whole| <= |w.log.file| && w.log.file[..|whole|] == whole
            && |whole| <= |RawLog.Next(z, w, e).log.file| && RawLog.Next(z, w, e).log.file[..|whole|] == whole
  {
    var k :| Inv(z, w, k);
    var w' := RawLog.Next(z, w, e);
    var k' := NextKeepsInv(z, w, k, e);
    var rs, rs' := Records(w.complete), Records(w'.complete);
    RecordsGrow(z, w, e);
    hide RawLog.Next;
    EncodePrefix(z, rs', |rs|);
    var whole, all := EncodeAll(z, rs), EncodeAll(z, rs');
    hide EncodeAll;
    SubSlice(w'.log.file, |all|, 0, |whole|);
    assert w'.log.file[..|whole|] == all[..|whole|];
  }

  /** What is remembered of a log stays right when the log is written on. */
  lemma MemorySurvives(f: Format, m: Memory, w: World, e: Event)
    requires Lossless(f.z) && Sound(f.z, w) && Remembers(f, m, w.log.file)
    ensures Remembers(f, m, RawLog.Next(f.z, w, e).log.file)
  {
    var k :| Inv(f.z, w, k);
    var rs := Records(w.complete);
    var whole := EncodeAll(f.z, rs);
    CompleteBytesStay(f.z, w, e);
    assert w.log.file == whole + w.log.file[|whole|..];
    assert rs[..0] == [] && EncodeAll(f.z, rs[..0]) == [];
    WalkStops(f, rs, 0, w.log.file[|whole|..], m.offset, None);
    var s, s' := w.log.file, RawLog.Next(f.z, w, e).log.file;
    hide Inv, EncodeAll, RawLog.Next, Walk, Remembers;
    SubSlice(s, |whole|, 0, m.offset);
    SubSlice(s', |whole|, 0, m.offset);
    RemembersSame(f, m, s, s');
  }

  lemma LogIsSound(f: Format, y: System, day: Day)
    requires SystemInv(f, y)
    ensures Sound(f.z, if day in y.logs then y.logs[day] else NEW_LOG)
  {
    assert Inv(f.z, NEW_LOG, 0);
    hide Inv, Remembers;
  }

  lemma WriteKeepsMemory(f: Format, y: System, day: Day, event: Event)
    requires Lossless(f.z) && SystemInv(f, y)
    ensures MemoryRight(f, Act(f, y, Write(day, event)))
  {
    LogIsSound(f, y, day);
    hide RawLog.Next, Remembers, Sound;
    if y.memory.identity == Some(Identity(day, Inode(y, day))) {
      MemorySurvives(f, y.memory, y.logs[day], event);
    }
  }

  lemma WriteKeepsPending(f: Format, y: System, day: Day, event: Event)
    requires Lossless(f.z) && SystemInv(f, y)
    ensures PendingRight(f, Act(f, y, Write(day, event)))
  {
    LogIsSound(f, y, day);
    hide RawLog.Next, MemoryRight, Sound, AtRecord;
    if y.pending.Looked? && y.pending.day == day && y.pending.checkpoint.Some? && y.pending.was == Inode(y, day) {
      RecordStays(f, y.logs[day], event, y.pending.checkpoint.value);
    }
  }

  /** Where a record ended, one ends whatever is written next. */
  lemma RecordStays(f: Format, w: World, e: Event, checkpoint: int)
    requires Lossless(f.z) && Sound(f.z, w) && AtRecord(f, w, checkpoint)
    ensures AtRecord(f, RawLog.Next(f.z, w, e), checkpoint)
  {
    var n: nat :| EndsRecord(f, w, checkpoint, n);
    RecordsGrow(f.z, w, e);
    hide RawLog.Next, EncodeAll, Sound;
    var rs, rs' := Records(w.complete), Records(RawLog.Next(f.z, w, e).complete);
    assert rs'[..n] == rs'[..|rs|][..n];
    assert EndsRecord(f, RawLog.Next(f.z, w, e), checkpoint, n);
  }

  lemma WriteKeepsSystemInv(f: Format, y: System, day: Day, event: Event)
    requires Lossless(f.z) && SystemInv(f, y)
    ensures SystemInv(f, Act(f, y, Write(day, event)))
  {
    LogIsSound(f, y, day);
    CommittedBytesStay(f.z, if day in y.logs then y.logs[day] else NEW_LOG, event);
    WriteKeepsMemory(f, y, day, event);
    WriteKeepsPending(f, y, day, event);
    hide RawLog.Next, MemoryRight, PendingRight, Sound, CommittedKept;
  }

  lemma SoundCheckpoint(f: Format, w: World)
    requires Sound(f.z, w) && w.log.checkpoint.Some?
    ensures AtRecord(f, w, w.log.checkpoint.value)
  {
    var k :| Inv(f.z, w, k);
    assert EndsRecord(f, w, w.log.checkpoint.value, k);
  }

  lemma OpenKeepsSystemInv(f: Format, y: System)
    requires Lossless(f.z) && SystemInv(f, y)
    ensures SystemInv(f, Act(f, y, Open))
  {
    if y.pending.Looked? && y.pending.day in y.logs {
      var day := y.pending.day;
      var id, s := Identity(day, Inode(y, day)), y.logs[day].log.file;
      CachedReadIsFresh(f, y.memory, id, y.pending.checkpoint, s);
      hide Sound, Remembers, CachedRead;
    }
  }

  lemma LookKeepsSystemInv(f: Format, y: System, today: Day)
    requires Lossless(f.z) && SystemInv(f, y)
    ensures SystemInv(f, Act(f, y, Look(today)))
  {
    var day := Newest(Existing(y.logs), today);
    if day.Some? && y.logs[day.value].log.checkpoint.Some? {
      SoundCheckpoint(f, y.logs[day.value]);
    }
    hide Sound, Remembers;
  }

  lemma ReplaceKeepsSystemInv(f: Format, y: System, day: Day, log: World)
    requires SystemInv(f, y) && Sound(f.z, log)
    ensures SystemInv(f, Act(f, y, Replace(day, log)))
  {
    hide Sound, Remembers;
  }

  lemma ActKeepsSystemInv(f: Format, y: System, a: Action)
    requires Lossless(f.z) && SystemInv(f, y) && (a.Replace? ==> Sound(f.z, a.log))
    ensures SystemInv(f, Act(f, y, a))
  {
    hide SystemInv, Act, Sound, Lossless;
    match a
    case Write(day, event) => WriteKeepsSystemInv(f, y, day, event);
    case Replace(day, log) => ReplaceKeepsSystemInv(f, y, day, log);
    case Look(today) => LookKeepsSystemInv(f, y, today);
    case Open => OpenKeepsSystemInv(f, y);
  }

  lemma {:induction false} RunKeepsSystemInv(f: Format, actions: seq<Action>)
    requires Lossless(f.z) && forall a :: a in actions && a.Replace? ==> Sound(f.z, a.log)
    ensures SystemInv(f, RunSystem(f, actions))
  {
    hide Act, Sound;
    if actions != [] {
      RunKeepsSystemInv(f, actions[..|actions| - 1]);
      ActKeepsSystemInv(f, RunSystem(f, actions[..|actions| - 1]), actions[|actions| - 1]);
    }
  }

  lemma ReadIsNewest(f: Format, w: World, checkpoint: int)
    requires Lossless(f.z) && Sound(f.z, w) && AtRecord(f, w, checkpoint)
    ensures checkpoint <= |w.log.file|
    ensures exists n: nat :: EndsRecord(f, w, checkpoint, n)
                        && FreshRead(f, w.log.file, Some(checkpoint)) == NewestFrame(f, Records(w.complete)[..n])
  {
    var k :| Inv(f.z, w, k);
    var n: nat :| EndsRecord(f, w, checkpoint, n);
    var rs := Records(w.complete);
    var whole := EncodeAll(f.z, rs);
    EncodePrefix(f.z, rs, n);
    assert w.log.file == whole + w.log.file[|whole|..];
    hide EncodeAll, FreshRead, NewestFrame, Records;
    FreshReadIsNewest(f, rs, n, w.log.file[|whole|..]);
    assert EndsRecord(f, w, checkpoint, n);
  }

  /** For any interleaving of writer appends, torn tails, repairs, restarts, checkpoint updates and whole
      files replaced by others with the two halves of each read: the caching reader returns or refuses
      exactly as a reader that starts from byte zero of the opened file would. Unless the file was
      replaced in between, what it returns is the newest record of the log up to the checkpoint it looked
      up, and it refuses exactly when that or an earlier record cannot be served or there is none. */
  lemma ReadsAreFresh(f: Format, actions: seq<Action>)
    requires Lossless(f.z) && forall a :: a in actions && a.Replace? ==> Sound(f.z, a.log)
    requires RunSystem(f, actions).pending.Looked?
    ensures var y := RunSystem(f, actions);
            && y.pending.day in y.logs
            && var w, checkpoint := y.logs[y.pending.day], y.pending.checkpoint;
               var id := Identity(y.pending.day, Inode(y, y.pending.day));
               var frame := CachedRead(f, y.memory, id, checkpoint, w.log.file).0;
               && frame == FreshRead(f, w.log.file, checkpoint)
               && (checkpoint.None? ==> frame == None)
               && (checkpoint.Some? && y.pending.was == id.inode ==>
                     && checkpoint.value <= |w.log.file|
                     && exists n: nat :: EndsRecord(f, w, checkpoint.value, n)
                                    && frame == NewestFrame(f, Records(w.complete)[..n]))
  {
    RunKeepsSystemInv(f, actions);
    var y := RunSystem(f, actions);
    var day := y.pending.day;
    hide RunSystem, Remembers, Sound, AtRecord;
    CachedReadIsFresh(f, y.memory, Identity(day, Inode(y, day)), y.pending.checkpoint, y.logs[day].log.file);
    hide CachedRead, EndsRecord, NewestFrame;
    if y.pending.checkpoint.Some? && y.pending.was == Inode(y, day) {
      ReadIsNewest(f, y.logs[day], y.pending.checkpoint.value);
    }
  }
}
