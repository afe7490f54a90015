/** The framed append log: an 8-byte timestamp, a 4-byte length and a compressed payload.

    Appends can be torn at any byte, the process can die between any two file operations,
    and repair runs before the next append. gzip is a pair of functions; a failed
    decompression is reported as an invalid record. */
module RawLog {
  import opened Common

  const HEADER_BYTES: nat := 12
  const MAX_COMPRESSED_RECORD_BYTES: nat := 256 * 1024 * 1024

  datatype Gzip = Gzip(compress: Bytes -> Bytes, decompress: Bytes -> Option<Bytes>)

  ghost predicate Lossless(z: Gzip) {
    forall data :: z.decompress(z.compress(data)) == Some(data)
  }

  /** A float64 timestamp, as the eight bytes it is stored in. */
  type Stamp = s: Bytes | |s| == 8 witness [0, 0, 0, 0, 0, 0, 0, 0]

  datatype Record = Record(timestamp: Stamp, payload: Bytes)

  /******* Framing *******/

  function PackU32(n: nat): (s: Bytes)
    requires n < 0x1_0000_0000
    ensures |s| == 4
  {
    [n / 0x100_0000, n / 0x1_0000 % 0x100, n / 0x100 % 0x100, n % 0x100]
  }

  function UnpackU32(s: Bytes): nat
    requires |s| == 4
  {
    s[0] as int * 0x100_0000 + s[1] as int * 0x1_0000 + s[2] as int * 0x100 + s[3]
  }

  /** The most significant byte comes first, and what is packed is unpacked. */
  lemma PackRoundTrip(n: nat)
    requires n < 0x1_0000_0000
    ensures var s := PackU32(n);
            n == s[0] as int * 16777216 + s[1] as int * 65536 + s[2] as int * 256 + s[3] as int
    ensures UnpackU32(PackU32(n)) == n
  {
    var hi := n / 0x1_0000;
    assert hi / 0x100 == n / 0x100_0000;
    assert n / 0x100 / 0x100 == hi;
  }

  predicate Storable(z: Gzip, r: Record) {
    |z.compress(r.payload)| <= MAX_COMPRESSED_RECORD_BYTES
  }

  function Frame(z: Gzip, r: Record): (s: Bytes)
    requires Storable(z, r)
    ensures |s| == HEADER_BYTES + |z.compress(r.payload)|
  {
    r.timestamp + PackU32(|z.compress(r.payload)|) + z.compress(r.payload)
  }

  ghost predicate AllStorable(z: Gzip, rs: seq<Record>) {
    forall r :: r in rs ==> Storable(z, r)
  }

  ghost function EncodeAll(z: Gzip, rs: seq<Record>): Bytes
    requires AllStorable(z, rs)
  {
    if rs == [] then [] else EncodeAll(z, rs[..|rs| - 1]) + Frame(z, rs[|rs| - 1])
  }

  /** What an interrupted append leaves behind: a proper prefix of one frame. */
  ghost predicate Torn(z: Gzip, t: Bytes) {
    t == [] || exists r :: Storable(z, r) && |t| < |Frame(z, r)| && t == Frame(z, r)[..|t|]
  }

  /******* Scanning *******/

  /** A header with all of its payload present: `data` is None when the payload does not decompress. */
  datatype Raw = Raw(timestamp: Stamp, end: nat, data: Option<Bytes>)

  /** What is read at `off`: nothing when the header or the payload is cut short, or the length is refused. */
  function Parse(z: Gzip, s: Bytes, off: nat): (raw: Option<Raw>)
    requires off <= |s|
    ensures raw.Some? ==> off < raw.value.end <= |s|
  {
    if |s| - off < HEADER_BYTES then None else
    var length := UnpackU32(s[off + 8..off + HEADER_BYTES]);
    if length > MAX_COMPRESSED_RECORD_BYTES || |s| - off - HEADER_BYTES < length then None else
    var end := off + HEADER_BYTES + length;
    Some(Raw(s[off..off + 8], end, z.decompress(s[off + HEADER_BYTES..end])))
  }

  /** Where the record starting at `off` ends, if a complete valid record starts there. */
  function FrameEnd(z: Gzip, s: Bytes, off: nat): (end: Option<nat>)
    requires off <= |s|
    ensures end.Some? ==> off < end.value <= |s|
  {
    var raw := Parse(z, s, off);
    if raw.None? || raw.value.data.None? then None else Some(raw.value.end)
  }

  function ValidEnd(z: Gzip, s: Bytes, off: nat): (end: nat)
    requires off <= |s|
    ensures off <= end <= |s|
    decreases |s| - off
  {
    var next := FrameEnd(z, s, off);
    if next.None? then off else ValidEnd(z, s, next.value)
  }

  function RecordCount(z: Gzip, s: Bytes, off: nat): nat
    requires off <= |s|
    decreases |s| - off
  {
    var next := FrameEnd(z, s, off);
    if next.None? then 0 else 1 + RecordCount(z, s, next.value)
  }

  datatype RawLogScan = RawLogScan(completeRecords: nat, validBytes: nat, fileBytes: nat, clean: bool)

  /** `scan_raw_log` is this with offset 0; `_scan_raw_log_from` starts at a checkpoint. */
  method ScanRawLogFrom(z: Gzip, file: Bytes, offset: nat) returns (scan: RawLogScan)
    requires offset <= |file|
    ensures scan.validBytes == ValidEnd(z, file, offset)
    ensures scan.completeRecords == RecordCount(z, file, offset)
    ensures scan.fileBytes == |file|
    ensures scan.clean <==> scan.validBytes == |file|
  {
    hide UnpackU32;
    var count, validEnd := 0, offset;
    while true
      invariant offset <= validEnd <= |file|
      invariant ValidEnd(z, file, offset) == ValidEnd(z, file, validEnd)
      invariant RecordCount(z, file, offset) == count + RecordCount(z, file, validEnd)
      decreases |file| - validEnd
    {
      var available := |file| - validEnd;
      if available == 0 {
        return RawLogScan(count, validEnd, |file|, true);
      }
      if available < HEADER_BYTES {
        return RawLogScan(count, validEnd, |file|, false);
      }
      var length := UnpackU32(file[validEnd + 8..validEnd + HEADER_BYTES]);
      if length > MAX_COMPRESSED_RECORD_BYTES {
        return RawLogScan(count, validEnd, |file|, false);
      }
      if available - HEADER_BYTES < length {
        return RawLogScan(count, validEnd, |file|, false);
      }
      var payload := file[validEnd + HEADER_BYTES..validEnd + HEADER_BYTES + length];
      if z.decompress(payload).None? {
        return RawLogScan(count, validEnd, |file|, false);
      }
      count := count + 1;
      validEnd := validEnd + HEADER_BYTES + length;
    }
  }

  /** The reader: stops at a damaged header or short payload, skips a payload that does not decompress. */
  function Readable(z: Gzip, s: Bytes, off: nat): seq<Record>
    requires off <= |s|
    decreases |s| - off
  {
    var raw := Parse(z, s, off);
    if raw.None? then [] else
    var rest := Readable(z, s, raw.value.end);
    if raw.value.data.None? then rest else [Record(raw.value.timestamp, raw.value.data.value)] + rest
  }

  /** One turn of the reading loop. */
  lemma ReadOne(z: Gzip, s: Bytes, off: nat, records: seq<Record>)
    requires off <= |s| && Parse(z, s, off).Some?
    ensures var raw := Parse(z, s, off).value;
            records + Readable(z, s, off) ==
            (if raw.data.None? then records else records + [Record(raw.timestamp, raw.data.value)])
            + Readable(z, s, raw.end)
  {
    hide Parse;
  }

  method IterRecords(z: Gzip, file: Bytes) returns (records: seq<Record>)
    ensures records == Readable(z, file, 0)
  {
    hide UnpackU32;
    var position: nat := 0;
    records := [];
    while true
      invariant position <= |file|
      invariant Readable(z, file, 0) == records + Readable(z, file, position)
      decreases |file| - position
    {
      if |file| - position < HEADER_BYTES {
        return;
      }
      var length := UnpackU32(file[position + 8..position + HEADER_BYTES]);
      if length > MAX_COMPRESSED_RECORD_BYTES || |file| - position - HEADER_BYTES < length {
        return;
      }
      var end := position + HEADER_BYTES + length;
      var data := z.decompress(file[position + HEADER_BYTES..end]);
      assert Parse(z, file, position) == Some(Raw(file[position..position + 8], end, data));
      ReadOne(z, file, position, records);
      hide Parse, Readable;
      if data.Some? {
        records := records + [Record(file[position..position + 8], data.value)];
      }
      position := end;
    }
  }

  /******* What scanning says about encoded files *******/

  lemma ParseFrame(z: Gzip, pre: Bytes, r: Record, post: Bytes)
    requires Lossless(z) && Storable(z, r)
    ensures var s := pre + Frame(z, r) + post;
            Parse(z, s, |pre|) == Some(Raw(r.timestamp, |pre| + |Frame(z, r)|, Some(r.payload)))
  {
    var s, off, c := pre + Frame(z, r) + post, |pre|, z.compress(r.payload);
    var header := PackU32(|c|);
    var f := r.timestamp + header + c;
    assert s[off..off + |f|] == f;
    assert f[..8] == r.timestamp && f[8..12] == header && f[12..] == c;
    assert s[off..off + 8] == f[..8];
    assert s[off + 8..off + 12] == f[8..12];
    assert s[off + 12..off + 12 + |c|] == f[12..];
    PackRoundTrip(|c|);
  }

  lemma ParseTorn(z: Gzip, pre: Bytes, t: Bytes)
    requires Torn(z, t)
    ensures Parse(z, pre + t, |pre|) == None
  {
    var s, off := pre + t, |pre|;
    if |t| >= HEADER_BYTES {
      var r :| Storable(z, r) && |t| < |Frame(z, r)| && t == Frame(z, r)[..|t|];
      var header := PackU32(|z.compress(r.payload)|);
      assert Frame(z, r)[8..12] == header;
      assert s[off + 8..off + 12] == t[8..12] == header;
      PackRoundTrip(|z.compress(r.payload)|);
    }
  }

  lemma {:induction false} EncodePrefix(z: Gzip, rs: seq<Record>, k: nat)
    requires AllStorable(z, rs) && k <= |rs|
    ensures |EncodeAll(z, rs[..k])| <= |EncodeAll(z, rs)|
    ensures EncodeAll(z, rs)[..|EncodeAll(z, rs[..k])|] == EncodeAll(z, rs[..k])
    decreases |rs|
  {
    if k == |rs| {
      assert rs[..k] == rs;
    } else {
      var front := rs[..|rs| - 1];
      EncodePrefix(z, front, k);
      assert front[..k] == rs[..k];
    }
  }

  /** At the boundary after the first `k` records the next thing in the file is record `k`. */
  lemma FrameAtBoundary(z: Gzip, rs: seq<Record>, k: nat, t: Bytes)
    requires Lossless(z) && AllStorable(z, rs) && k < |rs|
    ensures |EncodeAll(z, rs[..k])| < |EncodeAll(z, rs[..k + 1])| <= |EncodeAll(z, rs)|
    ensures Parse(z, EncodeAll(z, rs) + t, |EncodeAll(z, rs[..k])|) ==
            Some(Raw(rs[k].timestamp, |EncodeAll(z, rs[..k + 1])|, Some(rs[k].payload)))
  {
    hide Parse;
    assert rs[..k + 1][..k] == rs[..k];
    EncodePrefix(z, rs, k + 1);
    var pre, post := EncodeAll(z, rs[..k]), EncodeAll(z, rs)[|EncodeAll(z, rs[..k + 1])|..] + t;
    assert EncodeAll(z, rs) + t == pre + Frame(z, rs[k]) + post;
    ParseFrame(z, pre, rs[k], post);
  }

  /** Scanning complete frames followed by a torn one, from the boundary after the first `k`
      records, stops exactly where the torn one begins. */
  lemma {:induction false} ScanEncoded(z: Gzip, rs: seq<Record>, k: nat, t: Bytes)
    requires Lossless(z) && AllStorable(z, rs) && Torn(z, t) && k <= |rs|
    ensures |EncodeAll(z, rs[..k])| <= |EncodeAll(z, rs)|
    ensures var s := EncodeAll(z, rs) + t;
            && ValidEnd(z, s, |EncodeAll(z, rs[..k])|) == |EncodeAll(z, rs)|
            && RecordCount(z, s, |EncodeAll(z, rs[..k])|) == |rs| - k
            && Readable(z, s, |EncodeAll(z, rs[..k])|) == rs[k..]
    decreases |rs| - k
  {
    hide Parse, EncodeAll, Torn;
    if k == |rs| {
      assert rs[..k] == rs;
      ParseTorn(z, EncodeAll(z, rs), t);
    } else {
      ScanEncoded(z, rs, k + 1, t);
      FrameAtBoundary(z, rs, k, t);
      assert rs[k..] == [rs[k]] + rs[k + 1..];
    }
  }

  /** `end` can be reached from `off` by stepping over complete valid records. */
  ghost predicate Boundary(z: Gzip, s: Bytes, off: nat, end: nat)
    requires off <= |s|
    decreases |s| - off
  {
    off == end || (FrameEnd(z, s, off).Some? && Boundary(z, s, FrameEnd(z, s, off).value, end))
  }

  /** For any file at all: a scan from a record boundary finds the same valid prefix, and
      so the same cleanliness, as a scan of the whole file. */
  lemma {:induction false} ScanFromBoundary(z: Gzip, s: Bytes, off: nat, checkpoint: nat)
    requires off <= |s| && Boundary(z, s, off, checkpoint)
    ensures off <= checkpoint <= ValidEnd(z, s, off)
    ensures ValidEnd(z, s, checkpoint) == ValidEnd(z, s, off)
    decreases |s| - off
  {
    if off != checkpoint {
      ScanFromBoundary(z, s, FrameEnd(z, s, off).value, checkpoint);
    }
  }

  lemma {:induction false} EncodedBoundary(z: Gzip, rs: seq<Record>, j: nat, k: nat, t: Bytes)
    requires Lossless(z) && AllStorable(z, rs) && j <= k <= |rs|
    ensures |EncodeAll(z, rs[..j])| <= |EncodeAll(z, rs)|
    ensures Boundary(z, EncodeAll(z, rs) + t, |EncodeAll(z, rs[..j])|, |EncodeAll(z, rs[..k])|)
    decreases k - j
  {
    EncodePrefix(z, rs, j);
    hide Parse, EncodeAll;
    if j < k {
      EncodedBoundary(z, rs, j + 1, k, t);
      FrameAtBoundary(z, rs, j, t);
    }
  }

  /******* Files and their operations *******/

  /** One log file with its checkpoint and its detached tails. `checkpoint` is None when the
      file is absent, unreadable or of another version. */
  datatype LogFiles = LogFiles(present: bool, file: Bytes, checkpoint: Option<int>, sidecars: seq<Bytes>)

  /** How far one append got: how many bytes of its frame reached the file, whether the
      write and sync returned normally, and whether the checkpoint was then replaced. */
  datatype AppendFate = AppendFate(reached: nat, synced: bool, checkpointed: bool)

  /** How far one repair got. The sidecar is created exclusively, so a copy that stops early
      leaves a shorter sidecar of its own. */
  datatype RepairFate =
    | Refused                   // nothing happened: unreadable file, sidecar name taken
    | CopyStopped(copied: nat)  // part of the tail reached the sidecar
    | Unsynced                  // the directory entry of the sidecar was not confirmed
    | Truncated                 // the tail is gone from the file, the checkpoint is not written
    | Finished

  datatype RepairOutcome = Nothing | Detached | Failed

  function Truncate(n: nat, limit: nat): nat { if n <= limit then n else limit }

  function FrameBytesReached(z: Gzip, r: Record, fate: AppendFate): (n: nat)
    requires Storable(z, r)
    ensures n <= |Frame(z, r)|
  {
    Truncate(fate.reached, |Frame(z, r)|)
  }

  /** The append went through as far as its caller can tell. */
  predicate Reported(z: Gzip, r: Record, fsync: bool, fate: AppendFate) {
    && Storable(z, r)
    && FrameBytesReached(z, r, fate) == |Frame(z, r)|
    && fate.synced
    && (fsync ==> fate.checkpointed)
  }

  function Appended(z: Gzip, l: LogFiles, r: Record, fsync: bool, fate: AppendFate): LogFiles {
    if !Storable(z, r) then l else
    var n := FrameBytesReached(z, r, fate);
    var written := l.(present := true, file := l.file + Frame(z, r)[..n]);
    if fsync && Reported(z, r, fsync, fate)
    then written.(checkpoint := Some(|written.file|))
    else written
  }

  predicate UsableCheckpoint(l: LogFiles) {
    l.checkpoint.Some? && 0 <= l.checkpoint.value <= |l.file|
  }

  /** Everything repair keeps: found from the checkpoint when there is a usable one. */
  function Kept(z: Gzip, l: LogFiles): (n: nat)
    ensures n <= |l.file|
  {
    ValidEnd(z, l.file, if UsableCheckpoint(l) then l.checkpoint.value else 0)
  }

  function Repaired(z: Gzip, l: LogFiles, fate: RepairFate): (RepairOutcome, LogFiles) {
    if !l.present then (Nothing, l)
    else if l.checkpoint == Some(|l.file|) then (Nothing, l)
    else if fate.Refused? then (Failed, l)
    else
      var kept := Kept(z, l);
      var tail := l.file[kept..];
      if tail == [] then
        if fate.Finished? then (Nothing, l.(checkpoint := Some(kept))) else (Failed, l)
      else
        match fate
        case CopyStopped(copied) => (Failed, l.(sidecars := l.sidecars + [tail[..Truncate(copied, |tail|)]]))
        case Unsynced => (Failed, l.(sidecars := l.sidecars + [tail]))
        case Truncated => (Failed, l.(file := l.file[..kept], sidecars := l.sidecars + [tail]))
        case Finished =>
          (Detached, l.(file := l.file[..kept], sidecars := l.sidecars + [tail], checkpoint := Some(kept)))
  }

  class RawLogFile {
    const z: Gzip
    var present: bool
    var file: Bytes
    var checkpoint: Option<int>
    var sidecars: seq<Bytes>

    ghost function View(): LogFiles
      reads this
    {
      LogFiles(present, file, checkpoint, sidecars)
    }

    constructor (z: Gzip)
      ensures this.z == z && View() == LogFiles(false, [], None, [])
    {
      this.z := z;
      present, file, checkpoint, sidecars := false, [], None, [];
    }

    method AppendRecord(r: Record, fsync: bool, fate: AppendFate) returns (ok: bool)
      modifies this
      ensures View() == Appended(z, old(View()), r, fsync, fate)
      ensures ok == Reported(z, r, fsync, fate)
      ensures ok <==> var size := |z.compress(r.payload)|;
                      && size <= MAX_COMPRESSED_RECORD_BYTES && fate.reached >= HEADER_BYTES + size
                      && fate.synced && (fsync ==> fate.checkpointed)
      ensures ok ==> |file| == |old(file)| + HEADER_BYTES + |z.compress(r.payload)|
      ensures ok && fsync ==> checkpoint == Some(|file|)
    {
      var compressed := z.compress(r.payload);
      if |compressed| > MAX_COMPRESSED_RECORD_BYTES {
        return false;
      }
      var record := r.timestamp + PackU32(|compressed|) + compressed;
      var written := if fate.reached <= |record| then fate.reached else |record|;
      present := true;
      file := file + record[..written];
      if written != |record| || !fate.synced {
        return false;
      }
      if fsync {
        if !fate.checkpointed {
          return false;
        }
        checkpoint := Some(|file|);
      }
      return true;
    }

    method RepairTruncatedTail(fate: RepairFate) returns (outcome: RepairOutcome)
      modifies this
      ensures (outcome, View()) == Repaired(z, old(View()), fate)
      ensures fate.Finished? ==> !outcome.Failed? && (present ==> checkpoint == Some(|file|))
    {
      if !present {
        return Nothing;
      }
      var start: nat := 0;
      if checkpoint.Some? && 0 <= checkpoint.value <= |file| {
        if checkpoint.value == |file| {
          return Nothing;
        }
        start := checkpoint.value;
      }
      if fate.Refused? {
        return Failed;
      }
      var scan := ScanRawLogFrom(z, file, start);
      if scan.clean {
        if !fate.Finished? {
          return Failed;
        }
        checkpoint := Some(scan.validBytes);
        return Nothing;
      }
      var tail := file[scan.validBytes..];
      if fate.CopyStopped? {
        sidecars := sidecars + [tail[..Truncate(fate.copied, |tail|)]];
        return Failed;
      }
      sidecars := sidecars + [tail];
      if fate.Unsynced? {
        return Failed;
      }
      file := file[..scan.validBytes];
      if fate.Truncated? {
        return Failed;
      }
      checkpoint := Some(scan.validBytes);
      return Detached;
    }
  }

  /** For any file, however damaged, and wherever repair stops: what is left in the file is a
      prefix of it, and the rest is either still there or whole in the new sidecar. */
  lemma RepairLosesNoByte(z: Gzip, l: LogFiles, fate: RepairFate)
    ensures var (outcome, l') := Repaired(z, l, fate);
            && l.sidecars <= l'.sidecars
            && (l'.file == l.file
                || (|l'.sidecars| == |l.sidecars| + 1 && l'.file + l'.sidecars[|l.sidecars|] == l.file))
            && (outcome.Detached? ==> l'.file != l.file && |l'.file| == Kept(z, l))
            && (outcome.Nothing? ==> l'.file == l.file && l'.sidecars == l.sidecars)
  {
  }

  /** What is read at `off` depends on the bytes up to its end alone. */
  lemma ParseCut(z: Gzip, s: Bytes, off: nat, cut: nat)
    requires off <= cut <= |s| && Parse(z, s, off).Some? && Parse(z, s, off).value.end <= cut
    ensures Parse(z, s[..cut], off) == Parse(z, s, off)
  {
    var end := Parse(z, s, off).value.end;
    SubSlice(s, cut, off, off + 8);
    SubSlice(s, cut, off + 8, off + HEADER_BYTES);
    SubSlice(s, cut, off + HEADER_BYTES, end);
    hide UnpackU32;
  }

  /** The valid prefix of a file, alone, is a clean file that yields its records; a reader of the whole
      file goes on behind it, if it can. */
  lemma {:induction false} ValidPrefix(z: Gzip, s: Bytes, off: nat)
    requires off <= |s|
    ensures var cut := ValidEnd(z, s, off);
            && ValidEnd(z, s[..cut], off) == cut
            && Readable(z, s, off) == Readable(z, s[..cut], off) + Readable(z, s, cut)
    decreases |s| - off
  {
    hide Parse;
    var cut := ValidEnd(z, s, off);
    if FrameEnd(z, s, off).Some? {
      ValidPrefix(z, s, FrameEnd(z, s, off).value);
      ParseCut(z, s, off, cut);
    } else {
      assert Parse(z, s[..off], off) == None by {
        NothingThere(z, s[..off]);
      }
    }
  }

  lemma NothingThere(z: Gzip, s: Bytes)
    ensures Parse(z, s, |s|) == None
  {
  }

  lemma ParseShift(z: Gzip, s: Bytes, start: nat, off: nat)
    requires start + off <= |s|
    ensures var raw := Parse(z, s, start + off);
            Parse(z, s[start..], off) == if raw.None? then None else Some(raw.value.(end := raw.value.end - start))
  {
    var t := s[start..];
    if |t| - off >= HEADER_BYTES {
      assert t[off..off + 8] == s[start + off..start + off + 8];
      assert t[off + 8..off + HEADER_BYTES] == s[start + off + 8..start + off + HEADER_BYTES];
      hide UnpackU32;
      var length := UnpackU32(t[off + 8..off + HEADER_BYTES]);
      if |t| - off - HEADER_BYTES >= length {
        assert t[off + HEADER_BYTES..off + HEADER_BYTES + length]
            == s[start + off + HEADER_BYTES..start + off + HEADER_BYTES + length];
      }
    }
  }

  /** A detached tail reads as it did in its file. */
  lemma {:induction false} ReadableShift(z: Gzip, s: Bytes, start: nat, off: nat)
    requires start + off <= |s|
    ensures Readable(z, s[start..], off) == Readable(z, s, start + off)
    decreases |s| - start - off
  {
    hide Parse;
    ParseShift(z, s, start, off);
    var raw := Parse(z, s, start + off);
    if raw.Some? {
      ReadableShift(z, s, start, raw.value.end - start);
    }
  }

  ghost predicate StartsAtRecord(z: Gzip, l: LogFiles) {
    UsableCheckpoint(l) ==> Boundary(z, l.file, 0, l.checkpoint.value)
  }

  /** A repair that changes the file cuts it where a scan of the whole file stops. */
  lemma RepairCuts(z: Gzip, l: LogFiles, fate: RepairFate)
    requires StartsAtRecord(z, l) && Repaired(z, l, fate).1.file != l.file
    ensures var l' := Repaired(z, l, fate).1;
            && Kept(z, l) == ValidEnd(z, l.file, 0) && l'.file == l.file[..Kept(z, l)]
            && |l'.sidecars| == |l.sidecars| + 1 && l'.sidecars[|l.sidecars|] == l.file[Kept(z, l)..]
  {
    if UsableCheckpoint(l) {
      ScanFromBoundary(z, l.file, 0, l.checkpoint.value);
    }
    hide ValidEnd, Boundary;
  }

  /** The reader skips a payload that does not decompress and reads on; repair detaches everything from
      there. So for any file, however damaged, checked from a record boundary: where repair cuts, what the
      reader found before is what it finds now and what it finds in the sidecar, and what is left is
      clean. It still finds everything in the file if and only if nothing behind the cut can be read. */
  lemma RepairMovesRecords(z: Gzip, l: LogFiles, fate: RepairFate)
    requires StartsAtRecord(z, l) && Repaired(z, l, fate).1.file != l.file
    ensures var l' := Repaired(z, l, fate).1;
            && |l'.sidecars| == |l.sidecars| + 1
            && Readable(z, l.file, 0) == Readable(z, l'.file, 0) + Readable(z, l'.sidecars[|l.sidecars|], 0)
            && ValidEnd(z, l'.file, 0) == |l'.file|
            && (Readable(z, l'.file, 0) == Readable(z, l.file, 0) <==> Readable(z, l.file, Kept(z, l)) == [])
  {
    RepairCuts(z, l, fate);
    ValidPrefix(z, l.file, 0);
    ReadableShift(z, l.file, Kept(z, l), 0);
    hide *;
  }

  /** The condition can fail: a whole frame whose payload does not decompress, with a record behind it. */
  lemma RepairHidesRecords(z: Gzip, timestamp: Stamp, bad: Bytes, r: Record)
    requires Lossless(z) && Storable(z, r) && |bad| <= MAX_COMPRESSED_RECORD_BYTES && z.decompress(bad).None?
    ensures var l := LogFiles(true, timestamp + PackU32(|bad|) + bad + Frame(z, r), None, []);
            && Readable(z, l.file, 0) == [r]
            && Repaired(z, l, Finished).1.file == []
            && Readable(z, Repaired(z, l, Finished).1.file, 0) == []
  {
    var front := timestamp + PackU32(|bad|) + bad;
    var s := front + Frame(z, r);
    var l := LogFiles(true, s, None, []);
    BadFrame(z, timestamp, bad, Frame(z, r));
    ParseFrame(z, front, r, []);
    assert s + [] == s;
    NothingThere(z, s);
    NothingThere(z, []);
    hide Parse, Frame, PackU32;
    assert Readable(z, s, |s|) == [];
    assert Readable(z, s, |front|) == [r];
    assert s[..0] == [];
  }

  lemma BadFrame(z: Gzip, timestamp: Stamp, bad: Bytes, post: Bytes)
    requires |bad| <= MAX_COMPRESSED_RECORD_BYTES
    ensures var front := timestamp + PackU32(|bad|) + bad;
            Parse(z, front + post, 0) == Some(Raw(timestamp, |front|, z.decompress(bad)))
  {
    var header := PackU32(|bad|);
    var s := timestamp + header + bad + post;
    assert s[0..8] == timestamp;
    assert s[8..12] == header;
    assert s[12..12 + |bad|] == bad;
    PackRoundTrip(|bad|);
  }

  /******* Whole runs of one log, as the collector drives it *******/

  /** `complete` records every append whose bytes all reached the file, in order, and whether
      it was reported as archived. `needsRepair` is the collector's in-memory mark. */
  datatype Entry = Entry(record: Record, reported: bool)
  datatype World = World(log: LogFiles, needsRepair: bool, complete: seq<Entry>)

  datatype Event =
    | Archive(record: Record, fsync: bool, repair: RepairFate, append: AppendFate)
    | Restart(repair: RepairFate)

  function Records(entries: seq<Entry>): (rs: seq<Record>)
    ensures |rs| == |entries|
  {
    seq(|entries|, i requires 0 <= i < |entries| => entries[i].record)
  }

  /** `_archive_raw` repairs a marked file first and appends only when that succeeded; any
      failure marks the file. A restart loses the mark and repairs at once. */
  function Next(z: Gzip, w: World, e: Event): World {
    match e
    case Restart(fate) =>
      var (outcome, l) := Repaired(z, w.log, fate);
      World(l, outcome.Failed?, w.complete)
    case Archive(r, fsync, repair, append) =>
      var (outcome, l) := if w.needsRepair then Repaired(z, w.log, repair) else (Nothing, w.log);
      if outcome.Failed? then World(l, true, w.complete) else
      var l' := Appended(z, l, r, fsync, append);
      var whole := Storable(z, r) && FrameBytesReached(z, r, append) == |Frame(z, r)|;
      var reported := Reported(z, r, fsync, append);
      World(l', !reported, if whole then w.complete + [Entry(r, reported)] else w.complete)
  }

  function Run(z: Gzip, events: seq<Event>): World
  {
    if events == [] then World(LogFiles(false, [], None, []), false, [])
    else Next(z, Run(z, events[..|events| - 1]), events[|events| - 1])
  }

  /** The file is the complete records followed by at most one torn frame, and the checkpoint
      is the end of one of those records (or the start of the file). */
  ghost predicate Inv(z: Gzip, w: World, checkpointed: nat) {
    var rs := Records(w.complete);
    && AllStorable(z, rs)
    && |EncodeAll(z, rs)| <= |w.log.file|
    && w.log.file[..|EncodeAll(z, rs)|] == EncodeAll(z, rs)
    && Torn(z, w.log.file[|EncodeAll(z, rs)|..])
    && (!w.needsRepair ==> w.log.file == EncodeAll(z, rs))
    && (!w.log.present ==> w.log.file == [])
    && checkpointed <= |rs|
    && (w.log.checkpoint.Some? ==> w.log.checkpoint.value == |EncodeAll(z, rs[..checkpointed])|)
  }

  /** In the invariant everything up to the end of the complete records is valid, and no more. */
  lemma KeptIsComplete(z: Gzip, w: World, checkpointed: nat)
    requires Lossless(z) && Inv(z, w, checkpointed)
    ensures Kept(z, w.log) == |EncodeAll(z, Records(w.complete))|
    ensures w.log.checkpoint == Some(|w.log.file|) ==> w.log.file == EncodeAll(z, Records(w.complete))
  {
    var rs := Records(w.complete);
    var whole := EncodeAll(z, rs);
    var tail := w.log.file[|whole|..];
    assert w.log.file == whole + tail;
    assert rs[..0] == [];
    assert |EncodeAll(z, rs[..0])| == 0;
    EncodePrefix(z, rs, checkpointed);
    hide EncodeAll, ValidEnd, RecordCount, Readable, Torn;
    ScanEncoded(z, rs, 0, tail);
    ScanEncoded(z, rs, checkpointed, tail);
  }

  /** A repair of a log in the invariant keeps exactly the complete records; when it is not
      reported as failed the file holds nothing else. */
  lemma RepairKeepsRecords(z: Gzip, w: World, checkpointed: nat, fate: RepairFate) returns (checkpointed': nat)
    requires Lossless(z) && Inv(z, w, checkpointed)
    ensures var (outcome, l) := Repaired(z, w.log, fate);
            Inv(z, World(l, outcome.Failed?, w.complete), checkpointed')
  {
    KeptIsComplete(z, w, checkpointed);
    var rs := Records(w.complete);
    var (outcome, l) := Repaired(z, w.log, fate);
    checkpointed' := if l.checkpoint == w.log.checkpoint then checkpointed else |rs|;
    assert rs[..|rs|] == rs;
    var whole := EncodeAll(z, rs);
    hide EncodeAll, Kept, Records;
    assert w.log.file[..|whole|] == whole && (w.log.file[|whole|..] == [] ==> w.log.file == whole);
    assert l.file == w.log.file || l.file == whole;
    assert whole[..|whole|] == whole && whole[|whole|..] == [];
  }

  /** A frame of which not every byte arrived leaves a torn tail and no new record. */
  lemma TornAppend(z: Gzip, w: World, checkpointed: nat, r: Record, fsync: bool, fate: AppendFate)
    requires Lossless(z) && Inv(z, w, checkpointed) && !w.needsRepair
    requires Storable(z, r) ==> FrameBytesReached(z, r, fate) < |Frame(z, r)|
    ensures Inv(z, World(Appended(z, w.log, r, fsync, fate), true, w.complete), checkpointed)
  {
    if Storable(z, r) {
      var whole := EncodeAll(z, Records(w.complete));
      var n := FrameBytesReached(z, r, fate);
      var file := Appended(z, w.log, r, fsync, fate).file;
      hide EncodeAll, Frame, Records;
      assert file[..|whole|] == whole;
      assert file[|whole|..] == Frame(z, r)[..n];
    } else {
      assert Torn(z, w.log.file[|EncodeAll(z, Records(w.complete))|..]);
    }
  }

  lemma AppendExtendsRecords(z: Gzip, w: World, checkpointed: nat, r: Record, fsync: bool, fate: AppendFate)
    returns (checkpointed': nat)
    requires Lossless(z) && Inv(z, w, checkpointed) && !w.needsRepair
    ensures var whole := Storable(z, r) && FrameBytesReached(z, r, fate) == |Frame(z, r)|;
            var reported := Reported(z, r, fsync, fate);
            var entries := if whole then w.complete + [Entry(r, reported)] else w.complete;
            Inv(z, World(Appended(z, w.log, r, fsync, fate), !reported, entries), checkpointed')
  {
    checkpointed' := checkpointed;
    if Storable(z, r) && FrameBytesReached(z, r, fate) == |Frame(z, r)| {
      var rs := Records(w.complete);
      var reported := Reported(z, r, fsync, fate);
      var rs' := Records(w.complete + [Entry(r, reported)]);
      assert rs' == rs + [r] && rs'[..|rs|] == rs;
      assert rs'[..checkpointed] == rs[..checkpointed];
      assert rs'[..|rs'|] == rs';
      assert EncodeAll(z, rs') == EncodeAll(z, rs) + Frame(z, r);
      checkpointed' := if fsync && reported then |rs'| else checkpointed;
      WholeAppend(z, w, r, fsync, fate);
      hide EncodeAll, Frame, Records, Appended;
    } else {
      TornAppend(z, w, checkpointed, r, fsync, fate);
    }
  }

  lemma WholeAppend(z: Gzip, w: World, r: Record, fsync: bool, fate: AppendFate)
    requires Storable(z, r) && FrameBytesReached(z, r, fate) == |Frame(z, r)|
    ensures var l := Appended(z, w.log, r, fsync, fate);
            && l.present && l.file == w.log.file + Frame(z, r) && l.file[|l.file|..] == []
            && l.checkpoint == (if fsync && Reported(z, r, fsync, fate) then Some(|l.file|) else w.log.checkpoint)
  {
    assert Frame(z, r)[..|Frame(z, r)|] == Frame(z, r);
  }

  lemma NextKeepsInv(z: Gzip, w: World, k: nat, e: Event) returns (checkpointed: nat)
    requires Lossless(z) && Inv(z, w, k)
    ensures Inv(z, Next(z, w, e), checkpointed)
  {
    checkpointed := k;
    match e
    case Restart(fate) =>
      checkpointed := RepairKeepsRecords(z, w, checkpointed, fate);
    case Archive(r, fsync, repair, append) =>
      var w' := w;
      if w.needsRepair {
        checkpointed := RepairKeepsRecords(z, w, checkpointed, repair);
        var (outcome, l) := Repaired(z, w.log, repair);
        w' := World(l, outcome.Failed?, w.complete);
      }
      if !w'.needsRepair {
        checkpointed := AppendExtendsRecords(z, w', checkpointed, r, fsync, append);
      }
  }

  lemma {:induction false} RunKeepsInv(z: Gzip, events: seq<Event>) returns (checkpointed: nat)
    requires Lossless(z)
    ensures Inv(z, Run(z, events), checkpointed)
  {
    checkpointed := 0;
    if events != [] {
      checkpointed := RunKeepsInv(z, events[..|events| - 1]);
      checkpointed := NextKeepsInv(z, Run(z, events[..|events| - 1]), checkpointed, events[|events| - 1]);
    }
  }

  function ReportedRecords(entries: seq<Entry>): seq<Record> {
    if entries == [] then [] else
    var rest := ReportedRecords(entries[..|entries| - 1]);
    if entries[|entries| - 1].reported then rest + [entries[|entries| - 1].record] else rest
  }

  /** The archives of a run that returned success, in order. */
  function Successes(z: Gzip, events: seq<Event>): seq<Record> {
    if events == [] then [] else
    var w, e := Run(z, events[..|events| - 1]), events[|events| - 1];
    var rest := Successes(z, events[..|events| - 1]);
    if e.Archive? && !(w.needsRepair && Repaired(z, w.log, e.repair).0.Failed?)
       && Reported(z, e.record, e.fsync, e.append)
    then rest + [e.record] else rest
  }

  lemma {:induction false} SuccessesAreReported(z: Gzip, events: seq<Event>)
    ensures ReportedRecords(Run(z, events).complete) == Successes(z, events)
  {
    if events != [] {
      SuccessesAreReported(z, events[..|events| - 1]);
      var w, w' := Run(z, events[..|events| - 1]), Run(z, events);
      if w'.complete != w.complete {
        assert w'.complete[..|w'.complete| - 1] == w.complete;
      }
    }
  }

  /** Over every run of torn appends, failures, crashes, repairs and retries: the log reads
      back exactly the records whose bytes all arrived, in order, among them every archive
      reported as successful; a scan from the stored checkpoint agrees with a scan of the
      whole file; and the file holds nothing else whenever the next append would not repair first. */
  lemma RunReadsBack(z: Gzip, events: seq<Event>)
    requires Lossless(z)
    ensures var w := Run(z, events);
            && Readable(z, w.log.file, 0) == Records(w.complete)
            && RecordCount(z, w.log.file, 0) == |w.complete|
            && ReportedRecords(w.complete) == Successes(z, events)
            && (!w.needsRepair ==> ValidEnd(z, w.log.file, 0) == |w.log.file|)
            && (w.log.checkpoint.Some? ==>
                  && 0 <= w.log.checkpoint.value <= |w.log.file|
                  && Boundary(z, w.log.file, 0, w.log.checkpoint.value)
                  && ValidEnd(z, w.log.file, w.log.checkpoint.value) == ValidEnd(z, w.log.file, 0))
  {
    var checkpointed := RunKeepsInv(z, events);
    SuccessesAreReported(z, events);
    var w := Run(z, events);
    var rs := Records(w.complete);
    var tail := w.log.file[|EncodeAll(z, rs)|..];
    assert w.log.file == EncodeAll(z, rs) + tail;
    assert rs[..0] == [] && rs[0..] == rs;
    ScanEncoded(z, rs, 0, tail);
    EncodePrefix(z, rs, checkpointed);
    EncodedBoundary(z, rs, 0, checkpointed, tail);
    if w.log.checkpoint.Some? {
      ScanFromBoundary(z, w.log.file, 0, w.log.checkpoint.value);
    }
  }

  ghost predicate Sound(z: Gzip, w: World) {
    exists checkpointed :: Inv(z, w, checkpointed)
  }

  /** What a reader in another process relies on: the checkpoint never moves back, and no
      byte below it changes. */
  ghost predicate CommittedKept(l: LogFiles, l': LogFiles) {
    && (l.present ==> l'.present)
    && (l'.checkpoint.Some? ==> 0 <= l'.checkpoint.value <= |l'.file|)
    && (l.checkpoint.Some? ==>
          && 0 <= l.checkpoint.value <= |l.file|
          && l'.checkpoint.Some?
          && l.checkpoint.value <= l'.checkpoint.value
          && l'.file[..l.checkpoint.value] == l.file[..l.checkpoint.value])
  }

  lemma RepairKeepsCommitted(z: Gzip, l: LogFiles, fate: RepairFate)
    requires l.checkpoint.Some? ==> 0 <= l.checkpoint.value <= |l.file|
    ensures CommittedKept(l, Repaired(z, l, fate).1)
  {
  }

  lemma AppendKeepsCommitted(z: Gzip, l: LogFiles, r: Record, fsync: bool, fate: AppendFate)
    requires l.checkpoint.Some? ==> 0 <= l.checkpoint.value <= |l.file|
    ensures CommittedKept(l, Appended(z, l, r, fsync, fate))
  {
    hide Frame;
    var l' := Appended(z, l, r, fsync, fate);
    assert l'.file[..|l.file|] == l.file;
  }

  lemma CommittedTransitive(a: LogFiles, b: LogFiles, c: LogFiles)
    requires a.checkpoint.Some? ==> 0 <= a.checkpoint.value <= |a.file|
    requires CommittedKept(a, b) && CommittedKept(b, c)
    ensures CommittedKept(a, c)
  {
    if a.checkpoint.Some? {
      var n := a.checkpoint.value;
      SubSlice(b.file, b.checkpoint.value, 0, n);
      SubSlice(c.file, b.checkpoint.value, 0, n);
    }
  }

  /** Whatever the writer does next. */
  lemma CommittedBytesStay(z: Gzip, w: World, e: Event)
    requires Lossless(z) && Sound(z, w)
    ensures Sound(z, Next(z, w, e))
    ensures CommittedKept(w.log, Next(z, w, e).log)
  {
    hide Parse, Frame, ValidEnd, Repaired, Appended;
    var k :| Inv(z, w, k);
    var _ := NextKeepsInv(z, w, k, e);
    EncodePrefix(z, Records(w.complete), k);
    hide Inv, EncodeAll;
    match e
    case Restart(fate) =>
      RepairKeepsCommitted(z, w.log, fate);
    case Archive(r, fsync, repair, append) =>
      RepairKeepsCommitted(z, w.log, repair);
      var l := if w.needsRepair then Repaired(z, w.log, repair).1 else w.log;
      AppendKeepsCommitted(z, l, r, fsync, append);
      CommittedTransitive(w.log, l, Appended(z, l, r, fsync, append));
  }
}
