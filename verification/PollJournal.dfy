/** The JSON-lines poll journal: every append first repairs a torn tail, and repair removes at
    most one invalid final line, whose bytes it keeps beside the journal. */
module PollJournal {
  import opened Common

  const NEWLINE: byte := 10

  const BLOCK_BYTES: nat := 4096

  /** Which lines json.loads turns into an object. A trailing newline is whitespace to JSON. */
  datatype Json = Json(isObject: Bytes -> bool)

  ghost predicate JsonLaws(j: Json) {
    && !j.isObject([])
    && forall l :: j.isObject(l) ==> j.isObject(l + [NEWLINE])
  }

  /** A serialized event: one line, an object, and no proper prefix of it is one. */
  ghost predicate IsEvent(j: Json, e: Bytes) {
    && NEWLINE !in e
    && j.isObject(e)
    && forall k :: 0 <= k < |e| ==> !j.isObject(e[..k])
  }

  /******* The backward search for the last line *******/

  /** The start of the line that ends at `end`. */
  function LineStart(s: Bytes, end: nat): (start: nat)
    requires end <= |s|
    ensures start <= end
    ensures start == 0 || s[start - 1] == NEWLINE
    ensures forall i :: start <= i < end ==> s[i] != NEWLINE
  {
    if end == 0 || s[end - 1] == NEWLINE then end else LineStart(s, end - 1)
  }

  function LastLineEnd(s: Bytes): (end: nat)
    ensures end <= |s|
  {
    if s != [] && s[|s| - 1] == NEWLINE then |s| - 1 else |s|
  }

  /** The last separator in a block, or -1. */
  method RFind(block: Bytes) returns (r: int)
    ensures -1 <= r < |block|
    ensures r >= 0 ==> block[r] == NEWLINE
    ensures forall i :: r < i < |block| ==> block[i] != NEWLINE
  {
    r := |block| - 1;
    while r >= 0 && block[r] != NEWLINE
      invariant -1 <= r < |block|
      invariant forall i :: r < i < |block| ==> block[i] != NEWLINE
    {
      r := r - 1;
    }
  }

  /** `_last_line_start`: blocks are read backwards, so a line may span any number of them. */
  method LastLineStart(s: Bytes) returns (start: nat)
    ensures start == LineStart(s, LastLineEnd(s))
  {
    var end: nat := |s|;
    if end != 0 && s[end - 1] == NEWLINE {
      end := end - 1;
    }
    while end != 0
      invariant end <= LastLineEnd(s) <= |s|
      invariant forall i :: end <= i < LastLineEnd(s) ==> s[i] != NEWLINE
    {
      var blockStart := if end < BLOCK_BYTES then 0 else end - BLOCK_BYTES;
      var block := s[blockStart..end];
      var separator := RFind(block);
      if separator >= 0 {
        LineStartUnique(s, LastLineEnd(s), blockStart + separator + 1);
        return blockStart + separator + 1;
      }
      assert forall i :: blockStart <= i < end ==> s[i] == block[i - blockStart];
      end := blockStart;
    }
    LineStartUnique(s, LastLineEnd(s), 0);
    return 0;
  }

  lemma {:induction false} LineStartUnique(s: Bytes, end: nat, start: nat)
    requires start <= end <= |s|
    requires start == 0 || s[start - 1] == NEWLINE
    requires forall i :: start <= i < end ==> s[i] != NEWLINE
    ensures LineStart(s, end) == start
  {
    if start < end {
      LineStartUnique(s, end - 1, start);
    }
  }

  /******* Checking the lines from a known boundary *******/

  /** Where readline stops: after the next separator, or at the end of the file. */
  function LineEnd(s: Bytes, off: nat): (end: nat)
    requires off < |s|
    ensures off < end <= |s|
    ensures forall i :: off <= i < end - 1 ==> s[i] != NEWLINE
    ensures end == |s| || s[end - 1] == NEWLINE
    decreases |s| - off
  {
    if s[off] == NEWLINE || off + 1 == |s| then off + 1 else LineEnd(s, off + 1)
  }

  lemma {:induction false} LineEndUnique(s: Bytes, off: nat, end: nat)
    requires off < end <= |s|
    requires forall i :: off <= i < end - 1 ==> s[i] != NEWLINE
    requires end == |s| || s[end - 1] == NEWLINE
    ensures LineEnd(s, off) == end
    decreases end - off
  {
    if s[off] != NEWLINE && off + 1 < |s| {
      LineEndUnique(s, off + 1, end);
    }
  }

  datatype Verdict =
    | Clean(addSeparator: bool)  // every line is an object; the last one may lack its separator
    | BadTail(lineStart: nat)    // only the final line is not an object
    | Interior                   // a line before the final one is not an object

  function Check(j: Json, s: Bytes, off: nat): (v: Verdict)
    requires off <= |s|
    ensures v.BadTail? ==> off <= v.lineStart < |s|
    decreases |s| - off
  {
    if off == |s| then Clean(false) else
    var end := LineEnd(s, off);
    if !j.isObject(s[off..end]) then
      if end == |s| then BadTail(off) else Interior
    else if end == |s| then Clean(s[end - 1] != NEWLINE)
    else Check(j, s, end)
  }

  /** The events a reader takes from the journal: its lines that are objects, in order. */
  function Events(j: Json, s: Bytes, off: nat): seq<Bytes>
    requires off <= |s|
    decreases |s| - off
  {
    if off == |s| then [] else
    var end := LineEnd(s, off);
    var line := if s[end - 1] == NEWLINE then s[off..end - 1] else s[off..end];
    if j.isObject(s[off..end]) then [line] + Events(j, s, end) else Events(j, s, end)
  }

  /******* Repair and append *******/

  datatype JournalFiles = JournalFiles(present: bool, file: Bytes, checkpoint: Option<int>, sidecars: seq<Bytes>)

  /** How far one repair got. */
  datatype RepairFate =
    | Refused         // nothing was written
    | SidecarWritten  // the sidecar exists, its directory entry is not confirmed
    | FileChanged     // the tail is cut or the separator added, the checkpoint is not replaced
    | Finished

  datatype RepairOutcome = Nothing | Detached | Corrupt | Failed

  predicate UsableCheckpoint(l: JournalFiles) {
    l.checkpoint.Some? && 0 <= l.checkpoint.value <= |l.file|
  }

  function Start(l: JournalFiles): (start: nat)
    ensures start <= |l.file|
  {
    if UsableCheckpoint(l) then l.checkpoint.value else LineStart(l.file, LastLineEnd(l.file))
  }

  function Repaired(j: Json, l: JournalFiles, fate: RepairFate): (RepairOutcome, JournalFiles) {
    if !l.present || l.checkpoint == Some(|l.file|) then (Nothing, l) else
    match Check(j, l.file, Start(l))
    case Interior => (Corrupt, l)
    case BadTail(lineStart) =>
      var l1 := l.(sidecars := l.sidecars + [l.file[lineStart..]]);
      var l2 := l1.(file := l.file[..lineStart]);
      (match fate
       case Refused => (Failed, l)
       case SidecarWritten => (Failed, l1)
       case FileChanged => (Failed, l2)
       case Finished => (Detached, l2.(checkpoint := Some(lineStart))))
    case Clean(addSeparator) =>
      var file := if addSeparator then l.file + [NEWLINE] else l.file;
      match fate
      case Refused => (Failed, l)
      case SidecarWritten => (Failed, l)
      case FileChanged => (Failed, l.(file := file))
      case Finished => (Nothing, l.(file := file, checkpoint := Some(|file|)))
  }

  datatype AppendFate = AppendFate(reached: nat, synced: bool, checkpointed: bool)

  function Reached(line: Bytes, fate: AppendFate): (n: nat)
    ensures n <= |line|
  {
    if fate.reached <= |line| then fate.reached else |line|
  }

  predicate Reported(e: Bytes, fate: AppendFate) {
    fate.reached > |e| && fate.synced && fate.checkpointed
  }

  function Appended(l: JournalFiles, e: Bytes, fate: AppendFate): JournalFiles {
    var line := e + [NEWLINE];
    var written := l.(present := true, file := l.file + line[..Reached(line, fate)]);
    if Reported(e, fate) then written.(checkpoint := Some(|written.file|)) else written
  }

  class Journal {
    const j: Json
    var present: bool
    var file: Bytes
    var checkpoint: Option<int>
    var sidecars: seq<Bytes>

    ghost function View(): JournalFiles
      reads this
    {
      JournalFiles(present, file, checkpoint, sidecars)
    }

    constructor (j: Json)
      ensures this.j == j && View() == JournalFiles(false, [], None, [])
    {
      this.j := j;
      present, file, checkpoint, sidecars := false, [], None, [];
    }

    /** The reading loop of one repair. */
    method CheckLines(start: nat) returns (verdict: Verdict)
      requires start <= |file|
      ensures verdict == Check(j, file, start)
    {
      var position, addSeparator := start, false;
      while position < |file|
        invariant start <= position <= |file|
        invariant position < |file| ==> Check(j, file, start) == Check(j, file, position)
        invariant position == |file| ==> Check(j, file, start) == Clean(addSeparator)
      {
        var end := LineEnd(file, position);
        if !j.isObject(file[position..end]) {
          return if end != |file| then Interior else BadTail(position);
        }
        addSeparator := file[end - 1] != NEWLINE;
        position := end;
      }
      return Clean(addSeparator);
    }

    method RepairJsonlTail(fate: RepairFate) returns (outcome: RepairOutcome)
      modifies this
      ensures (outcome, View()) == Repaired(j, old(View()), fate)
      ensures fate.Finished? ==> !outcome.Failed? && (present && !outcome.Corrupt? ==> checkpoint == Some(|file|))
    {
      hide Check, LineStart, LineEnd;
      if !present {
        return Nothing;
      }
      var size := |file|;
      var start: nat;
      if checkpoint.Some? && 0 <= checkpoint.value <= size {
        if checkpoint.value == size {
          return Nothing;
        }
        start := checkpoint.value;
      } else {
        start := LastLineStart(file);
      }
      var verdict := CheckLines(start);
      if verdict.Interior? {
        return Corrupt;
      }
      var recovery := verdict.BadTail?;
      var addSeparator := verdict.Clean? && verdict.addSeparator;
      if recovery {
        size := verdict.lineStart;
      }
      if fate.Refused? {
        return Failed;
      }
      if recovery {
        sidecars := sidecars + [file[size..]];
      }
      if fate.SidecarWritten? {
        return Failed;
      }
      assert !recovery ==> file[..size] == file;
      file := file[..size];
      if addSeparator {
        file := file + [NEWLINE];
        size := size + 1;
      }
      if fate.FileChanged? {
        return Failed;
      }
      checkpoint := Some(size);
      return if recovery then Detached else Nothing;
    }

    /** `append_poll_jsonl`; a repair that raises keeps the event out. */
    method AppendPollJsonl(e: Bytes, repair: RepairFate, fate: AppendFate) returns (ok: bool)
      modifies this
      ensures var (outcome, l) := Repaired(j, old(View()), repair);
              if outcome.Corrupt? || outcome.Failed?
              then !ok && View() == l
              else ok == Reported(e, fate) && View() == Appended(l, e, fate)
      ensures ok <==> && (var outcome := Repaired(j, old(View()), repair).0; !outcome.Corrupt? && !outcome.Failed?)
                      && fate.reached >= |e| + 1 && fate.synced && fate.checkpointed
      ensures ok ==> |e| < |file| && file[|file| - |e| - 1..] == e + [NEWLINE] && checkpoint == Some(|file|)
    {
      var outcome := RepairJsonlTail(repair);
      if outcome.Corrupt? || outcome.Failed? {
        return false;
      }
      var line := e + [NEWLINE];
      var written := if fate.reached <= |line| then fate.reached else |line|;
      present := true;
      file := file + line[..written];
      if written != |line| || !fate.synced || !fate.checkpointed {
        return false;
      }
      checkpoint := Some(|file|);
      return true;
    }
  }

  ghost predicate IsLine(line: Bytes) {
    line != [] && line[|line| - 1] == NEWLINE && NEWLINE !in line[..|line| - 1]
  }

  /** A whole line at `off`, whatever surrounds it. */
  lemma WholeLine(j: Json, s: Bytes, off: nat, line: Bytes)
    requires IsLine(line) && off + |line| <= |s| && s[off..off + |line|] == line
    ensures Check(j, s, off) == (if !j.isObject(line) then (if off + |line| == |s| then BadTail(off) else Interior)
                                 else Check(j, s, off + |line|))
    ensures Events(j, s, off) == (if j.isObject(line) then [line[..|line| - 1]] else []) + Events(j, s, off + |line|)
  {
    var end := off + |line|;
    forall i | off <= i < end
      ensures s[i] == line[i - off]
      ensures i < end - 1 ==> s[i] != NEWLINE
    {
      assert s[i] == s[off..end][i - off];
      assert i < end - 1 ==> line[i - off] == line[..|line| - 1][i - off];
    }
    hide LineEnd;
    LineEndUnique(s, off, end);
    assert s[off..end - 1] == line[..|line| - 1];
    assert end == |s| ==> Check(j, s, end) == Clean(false);
  }

  lemma LastLine(j: Json, s: Bytes, off: nat)
    requires off < |s| && LineEnd(s, off) == |s| && s[|s| - 1] != NEWLINE
    requires JsonLaws(j) && j.isObject(s[off..])
    ensures Check(j, s, off) == Clean(true) && Events(j, s, off) == [s[off..]]
    ensures Check(j, s + [NEWLINE], off) == Clean(false) && Events(j, s + [NEWLINE], off) == [s[off..]]
  {
    var s' := s + [NEWLINE];
    assert forall i :: off <= i < |s| ==> s[i] != NEWLINE;
    hide LineEnd;
    assert s[off..|s|] == s[off..];
    assert Events(j, s, |s|) == [] && Events(j, s', |s'|) == [];
    LineEndUnique(s', off, |s'|);
    assert s'[off..|s'|] == s[off..] + [NEWLINE] && s'[off..|s'| - 1] == s[off..];
  }

  lemma LineAt(s: Bytes, off: nat)
    requires off < |s| && s[LineEnd(s, off) - 1] == NEWLINE
    ensures IsLine(s[off..LineEnd(s, off)])
  {
    var end := LineEnd(s, off);
    var line := s[off..end];
    assert line[..|line| - 1] == s[off..end - 1];
  }

  lemma LastValidLine(j: Json, s: Bytes, off: nat)
    requires off < |s| && LineEnd(s, off) == |s| && Check(j, s, off) == Clean(true)
    ensures s[|s| - 1] != NEWLINE && j.isObject(s[off..])
  {
    assert s[off..|s|] == s[off..];
    hide LineEnd;
  }

  /** A line that is not the last one, and is an object unless the check stops there. */
  lemma InnerLine(j: Json, s: Bytes, off: nat)
    requires off < |s| && LineEnd(s, off) < |s| && !Check(j, s, off).Interior?
    ensures IsLine(s[off..LineEnd(s, off)]) && j.isObject(s[off..LineEnd(s, off)])
    ensures Check(j, s, off) == Check(j, s, LineEnd(s, off))
  {
    LineAt(s, off);
    hide LineEnd, IsLine;
  }

  lemma NoLine(j: Json, s: Bytes)
    ensures Check(j, s, |s|) == Clean(false)
  {
  }

  /** Completing a final event that lost only its separator keeps every event. */
  lemma {:induction false} SeparatorKeepsEvents(j: Json, s: Bytes, off: nat)
    requires JsonLaws(j) && off <= |s| && Check(j, s, off) == Clean(true)
    ensures Check(j, s + [NEWLINE], off) == Clean(false)
    ensures Events(j, s + [NEWLINE], off) == Events(j, s, off)
    decreases |s| - off
  {
    hide LineEnd, Check, Events, JsonLaws, IsLine;
    NoLine(j, s);
    var end, s' := LineEnd(s, off), s + [NEWLINE];
    if end < |s| {
      var line := s[off..end];
      InnerLine(j, s, off);
      assert s'[off..end] == line;
      SeparatorKeepsEvents(j, s, end);
      WholeLine(j, s, off, line);
      WholeLine(j, s', off, line);
    } else {
      LastValidLine(j, s, off);
      LastLine(j, s, off);
    }
  }

  lemma BadLastLine(j: Json, s: Bytes, off: nat)
    requires off < |s| && LineEnd(s, off) == |s| && Check(j, s, off).BadTail?
    ensures Check(j, s, off) == BadTail(off) && !j.isObject(s[off..])
    ensures Events(j, s, off) == [] && Events(j, s[..off], off) == [] && Check(j, s[..off], off) == Clean(false)
  {
    assert s[off..] == s[off..|s|];
    assert !j.isObject(s[off..|s|]) by {
      assert Check(j, s, |s|) == Clean(false);
    }
    hide LineEnd;
    assert Events(j, s, |s|) == [];
  }

  /** Cutting an invalid final line removes no event, and leaves only whole valid lines. */
  lemma {:induction false} CutKeepsEvents(j: Json, s: Bytes, off: nat)
    requires JsonLaws(j) && off <= |s| && Check(j, s, off).BadTail?
    ensures var cut := Check(j, s, off).lineStart;
            && Check(j, s[..cut], off) == Clean(false)
            && Events(j, s[..cut], off) == Events(j, s, off)
            && !j.isObject(s[cut..])
    decreases |s| - off
  {
    hide LineEnd, Check, Events, JsonLaws, IsLine;
    NoLine(j, s);
    var end := LineEnd(s, off);
    if end < |s| {
      var line, cut := s[off..end], Check(j, s, off).lineStart;
      InnerLine(j, s, off);
      CutKeepsEvents(j, s, end);
      SubSlice(s, cut, off, end);
      WholeLine(j, s, off, line);
      WholeLine(j, s[..cut], off, line);
    } else {
      BadLastLine(j, s, off);
    }
  }

  lemma LineBeforeBoundary(s: Bytes, off: nat, start: nat)
    requires off < start <= |s| && s[start - 1] == NEWLINE
    ensures LineEnd(s, off) <= start && IsLine(s[off..LineEnd(s, off)])
  {
    var end := LineEnd(s, off);
    assert end <= start by {
      assert forall i :: off <= i < end - 1 ==> s[i] != NEWLINE;
    }
    LineAt(s, off);
  }

  /** Lines are read alike up to a line boundary that two files share. */
  lemma {:induction false} SharedLines(j: Json, s: Bytes, s': Bytes, off: nat, start: nat)
    requires off <= start <= |s| && start <= |s'| && s[..start] == s'[..start]
    requires start == 0 || s[start - 1] == NEWLINE
    requires Events(j, s, start) == Events(j, s', start)
    ensures Events(j, s, off) == Events(j, s', off)
    decreases start - off
  {
    hide Events, LineEnd, Check, IsLine;
    if off < start {
      LineBeforeBoundary(s, off, start);
      var end := LineEnd(s, off);
      SubSlice(s, start, off, end);
      SubSlice(s', start, off, end);
      SharedLines(j, s, s', end, start);
      WholeLine(j, s, off, s[off..end]);
      WholeLine(j, s', off, s[off..end]);
    }
  }

  /** Repair starts where a line starts: always without a usable checkpoint. */
  predicate StartsOnALine(l: JournalFiles) {
    UsableCheckpoint(l) ==> l.checkpoint.value == 0 || l.file[l.checkpoint.value - 1] == NEWLINE
  }

  /** Where a file is checked from a line boundary, cutting its invalid final line or adding its
      lost separator leaves the events of the whole file. */
  lemma MendedKeepsEvents(j: Json, s: Bytes, start: nat)
    requires JsonLaws(j) && start <= |s| && (start == 0 || s[start - 1] == NEWLINE)
    ensures var v := Check(j, s, start);
            && (v.BadTail? ==>
                  && Events(j, s[..v.lineStart], 0) == Events(j, s, 0)
                  && Check(j, s[..v.lineStart], start) == Clean(false))
            && (v == Clean(true) ==> Events(j, s + [NEWLINE], 0) == Events(j, s, 0))
  {
    hide LineEnd, Events, JsonLaws, Check;
    var v := Check(j, s, start);
    if v.BadTail? {
      CutKeepsEvents(j, s, start);
      SharedLines(j, s, s[..v.lineStart], 0, start);
    } else if v == Clean(true) {
      SeparatorKeepsEvents(j, s, start);
      SharedLines(j, s, s + [NEWLINE], 0, start);
    }
  }

  lemma RepairKeepsEvents(j: Json, l: JournalFiles, fate: RepairFate)
    requires JsonLaws(j) && StartsOnALine(l)
    ensures Events(j, Repaired(j, l, fate).1.file, 0) == Events(j, l.file, 0)
    ensures Repaired(j, l, fate).0.Detached? ==> Check(j, Repaired(j, l, fate).1.file, Start(l)) == Clean(false)
  {
    var start := Start(l);
    assert start == 0 || l.file[start - 1] == NEWLINE;
    hide LineStart, LineEnd, Events, JsonLaws, Start, StartsOnALine, UsableCheckpoint, Check;
    MendedKeepsEvents(j, l.file, start);
  }

  lemma RepairKeepsBytes(j: Json, l: JournalFiles, fate: RepairFate)
    ensures var (outcome, l') := Repaired(j, l, fate);
            && (outcome.Corrupt? ==> l' == l)
            && (l'.file == l.file
                || l'.file == l.file + [NEWLINE]
                || (|l'.sidecars| == |l.sidecars| + 1 && l'.file + l'.sidecars[|l.sidecars|] == l.file))
            && (outcome.Detached? ==>
                  Check(j, l.file, Start(l)) == BadTail(|l'.file|) && l'.checkpoint == Some(|l'.file|))
  {
    hide Check, Start;
  }

  /** For any journal, whoever wrote it and however damaged, and wherever repair stops: the
      events read from it are the same before and after, and no byte is lost. Interior corruption
      changes nothing at all; otherwise the old file is the new one, or the new one plus a whole
      sidecar holding exactly the invalid final line, or the new one without its final separator. */
  lemma RepairLosesNoEvent(j: Json, l: JournalFiles, fate: RepairFate)
    requires JsonLaws(j) && StartsOnALine(l)
    ensures var (outcome, l') := Repaired(j, l, fate);
            && Events(j, l'.file, 0) == Events(j, l.file, 0)
            && (outcome.Corrupt? ==> l' == l)
            && (l'.file == l.file
                || l'.file == l.file + [NEWLINE]
                || (|l'.sidecars| == |l.sidecars| + 1 && l'.file + l'.sidecars[|l.sidecars|] == l.file))
            && (outcome.Detached? ==>
                  && Check(j, l.file, Start(l)) == BadTail(|l'.file|)
                  && l'.checkpoint == Some(|l'.file|)
                  && Check(j, l'.file, Start(l)) == Clean(false))
  {
    RepairKeepsEvents(j, l, fate);
    RepairKeepsBytes(j, l, fate);
    hide Repaired, Check, Start, Events, JsonLaws, StartsOnALine;
  }

  /** The condition is needed: a checkpoint inside a line loses that line's event, unless the
      rest of the line happens to be an object too. */
  lemma MidLineCheckpointLosesEvent(j: Json, e: Bytes, c: nat, sidecars: seq<Bytes>)
    requires JsonLaws(j) && IsEvent(j, e) && 0 < c < |e| && !j.isObject(e[c..] + [NEWLINE])
    ensures var l := JournalFiles(true, e + [NEWLINE], Some(c), sidecars);
            && Events(j, l.file, 0) == [e]
            && Events(j, Repaired(j, l, Finished).1.file, 0) == []
  {
    var s := e + [NEWLINE];
    var l := JournalFiles(true, s, Some(c), sidecars);
    LineEndUnique(s, 0, |s|);
    LineEndUnique(s, c, |s|);
    assert s[0..|s|] == s && s[0..|s| - 1] == e && s[c..|s|] == e[c..] + [NEWLINE];
    assert Events(j, s, |s|) == [];
    assert Check(j, s, c) == BadTail(c);
    var cut := s[..c];
    assert cut == e[..c] && cut[0..c] == cut;
    LineEndUnique(cut, 0, c);
    assert Events(j, cut, c) == [];
    assert Repaired(j, l, Finished).1.file == cut;
  }

  /******* Whole runs of one journal *******/

  ghost predicate AllEvents(j: Json, es: seq<Bytes>) {
    forall e :: e in es ==> IsEvent(j, e)
  }

  ghost function Join(es: seq<Bytes>): Bytes {
    if es == [] then [] else Join(es[..|es| - 1]) + es[|es| - 1] + [NEWLINE]
  }

  /** What an interrupted append leaves of a line: less than the event, or all but the separator. */
  ghost predicate Partial(j: Json, t: Bytes) {
    t == [] || exists e :: IsEvent(j, e) && |t| <= |e| && t == e[..|t|]
  }

  lemma {:induction false} JoinPrefix(es: seq<Bytes>, k: nat)
    requires k <= |es|
    ensures |Join(es[..k])| <= |Join(es)|
    ensures Join(es)[..|Join(es[..k])|] == Join(es[..k])
    decreases |es|
  {
    if k == |es| {
      assert es[..k] == es;
    } else {
      var front := es[..|es| - 1];
      JoinPrefix(front, k);
      assert front[..k] == es[..k];
    }
  }

  lemma {:induction false} JoinEndsLine(es: seq<Bytes>)
    ensures Join(es) == [] || Join(es)[|Join(es)| - 1] == NEWLINE
  {
  }

  lemma EventLine(j: Json, e: Bytes)
    requires JsonLaws(j) && IsEvent(j, e)
    ensures IsLine(e + [NEWLINE]) && j.isObject(e + [NEWLINE])
    ensures (e + [NEWLINE])[..|e|] == e
  {
  }

  lemma PartialLine(j: Json, pre: Bytes, t: Bytes)
    requires JsonLaws(j) && Partial(j, t)
    ensures Check(j, pre + t, |pre|) ==
            (if t == [] then Clean(false) else if j.isObject(t) then Clean(true) else BadTail(|pre|))
    ensures Events(j, pre + t, |pre|) == if j.isObject(t) then [t] else []
  {
    var s := pre + t;
    assert Events(j, s, |s|) == [];
    if t != [] {
      assert forall i :: |pre| <= i < |s| ==> s[i] == t[i - |pre|] && s[i] in t;
      assert s[|pre|..|s|] == t;
      hide LineEnd;
      LineEndUnique(s, |pre|, |s|);
    }
  }

  lemma JoinedLineAt(es: seq<Bytes>, k: nat, t: Bytes)
    requires k < |es|
    ensures var s, off := Join(es) + t, |Join(es[..k])|;
            && |Join(es[..k + 1])| == off + |es[k]| + 1 <= |Join(es)|
            && s[off..off + |es[k]| + 1] == es[k] + [NEWLINE]
  {
    JoinPrefix(es, k + 1);
    assert es[..k + 1][..k] == es[..k];
    var s, off, line := Join(es) + t, |Join(es[..k])|, es[k] + [NEWLINE];
    assert Join(es[..k + 1]) == Join(es[..k]) + line;
    hide Join;
    assert s[off..off + |line|] == Join(es)[..off + |line|][off..] == (Join(es[..k]) + line)[off..];
  }

  /** Whole lines followed by a partial one, checked and read from any line boundary. */
  lemma {:induction false} CheckJoined(j: Json, es: seq<Bytes>, k: nat, t: Bytes)
    requires JsonLaws(j) && AllEvents(j, es) && Partial(j, t) && k <= |es|
    ensures |Join(es[..k])| <= |Join(es)|
    ensures var s := Join(es) + t;
            && Check(j, s, |Join(es[..k])|) ==
               (if t == [] then Clean(false) else if j.isObject(t) then Clean(true) else BadTail(|Join(es)|))
            && Events(j, s, |Join(es[..k])|) == es[k..] + (if j.isObject(t) then [t] else [])
    decreases |es| - k
  {
    hide LineEnd, IsEvent, Partial, Join, Check, Events, JsonLaws;
    if k == |es| {
      assert es[..k] == es;
      PartialLine(j, Join(es), t);
    } else {
      CheckJoined(j, es, k + 1, t);
      JoinedLineAt(es, k, t);
      EventLine(j, es[k]);
      WholeLine(j, Join(es) + t, |Join(es[..k])|, es[k] + [NEWLINE]);
      assert es[k..] == [es[k]] + es[k + 1..];
    }
  }

  datatype Entry = Entry(event: Bytes, reported: bool)
  datatype World = World(log: JournalFiles, complete: seq<Entry>)

  datatype Event =
    | Poll(event: Bytes, repair: RepairFate, append: AppendFate)
    | Restart(repair: RepairFate)

  function Recorded(entries: seq<Entry>): (es: seq<Bytes>)
    ensures |es| == |entries|
  {
    seq(|entries|, i requires 0 <= i < |entries| => entries[i].event)
  }

  /** `complete` records every event whose JSON all reached the file, separator or not. */
  function Next(j: Json, w: World, e: Event): World {
    var (outcome, l) := Repaired(j, w.log, e.repair);
    if e.Restart? || outcome.Corrupt? || outcome.Failed? then World(l, w.complete) else
    var whole := e.append.reached >= |e.event|;
    World(Appended(l, e.event, e.append),
          if whole then w.complete + [Entry(e.event, Reported(e.event, e.append))] else w.complete)
  }

  function Run(j: Json, events: seq<Event>): World {
    if events == [] then World(JournalFiles(false, [], None, []), [])
    else Next(j, Run(j, events[..|events| - 1]), events[|events| - 1])
  }

  /** `whole` lines have their separator; the checkpoint ends the first `checkpointed` of them. */
  ghost predicate Inv(j: Json, w: World, checkpointed: nat, whole: nat) {
    var es := Recorded(w.complete);
    && AllEvents(j, es)
    && checkpointed <= whole <= |es|
    && |Join(es[..whole])| <= |w.log.file|
    && w.log.file[..|Join(es[..whole])|] == Join(es[..whole])
    && (var tail := w.log.file[|Join(es[..whole])|..];
        && Partial(j, tail)
        && es[whole..] == if j.isObject(tail) then [tail] else [])
    && (!w.log.present ==> w.log.file == [])
    && (w.log.checkpoint.Some? ==> w.log.checkpoint.value == |Join(es[..checkpointed])|)
  }

  /** Without a checkpoint the backward search still starts repair at a line boundary. */
  lemma StartIsBoundary(j: Json, es: seq<Bytes>, t: Bytes) returns (k: nat)
    requires AllEvents(j, es) && Partial(j, t)
    ensures k <= |es| && LineStart(Join(es) + t, LastLineEnd(Join(es) + t)) == |Join(es[..k])|
  {
    var s := Join(es) + t;
    JoinEndsLine(es);
    if t != [] {
      k := |es|;
      assert es[..k] == es;
      assert NEWLINE !in t;
      forall i | |Join(es)| <= i < |s|
        ensures s[i] != NEWLINE
      {
        assert s[i] == t[i - |Join(es)|] && t[i - |Join(es)|] in t;
      }
      LineStartUnique(s, |s|, |Join(es)|);
    } else if es == [] {
      k := 0;
    } else {
      k := |es| - 1;
      var pre, e := Join(es[..k]), es[k];
      JoinEndsLine(es[..k]);
      assert IsEvent(j, e);
      assert s == pre + e + [NEWLINE];
      forall i | |pre| <= i < |s| - 1
        ensures s[i] != NEWLINE
      {
        assert s[i] == e[i - |pre|] && e[i - |pre|] in e;
      }
      LineStartUnique(s, |s| - 1, |pre|);
    }
  }

  /** In the invariant, repair looks at nothing but the unfinished tail. */
  lemma RepairVerdict(j: Json, w: World, checkpointed: nat, whole: nat)
    requires JsonLaws(j) && Inv(j, w, checkpointed, whole)
    ensures var lines := Join(Recorded(w.complete)[..whole]);
            var tail := w.log.file[|lines|..];
            Check(j, w.log.file, Start(w.log)) ==
            (if tail == [] then Clean(false) else if j.isObject(tail) then Clean(true) else BadTail(|lines|))
  {
    var es := Recorded(w.complete);
    var lines := es[..whole];
    var tail := w.log.file[|Join(lines)|..];
    assert w.log.file == Join(lines) + tail;
    JoinPrefix(lines, checkpointed);
    assert lines[..checkpointed] == es[..checkpointed];
    var k := checkpointed;
    if !UsableCheckpoint(w.log) {
      k := StartIsBoundary(j, lines, tail);
    }
    CheckJoined(j, lines, k, tail);
  }

  lemma UnfinishedTail(j: Json, w: World, checkpointed: nat, whole: nat)
    requires JsonLaws(j) && Inv(j, w, checkpointed, whole)
    ensures var all, file, cut := Join(Recorded(w.complete)), w.log.file, |Join(Recorded(w.complete)[..whole])|;
            && (cut == |file| || w.log.checkpoint == Some(|file|) ==> all == file)
            && (cut < |file| && j.isObject(file[cut..]) ==> all == file + [NEWLINE])
            && (cut < |file| && !j.isObject(file[cut..]) ==> all == file[..cut])
  {
    var es := Recorded(w.complete);
    var lines := es[..whole];
    var tail := w.log.file[|Join(lines)|..];
    JoinPrefix(lines, checkpointed);
    assert lines[..checkpointed] == es[..checkpointed];
    if j.isObject(tail) {
      assert es == lines + [tail] && es[..|es| - 1] == lines && es[|es| - 1] == tail;
    } else {
      assert lines == es;
    }
  }

  /** In the invariant, repair either does nothing to the file or leaves exactly the complete events. */
  lemma RepairShape(j: Json, w: World, checkpointed: nat, whole: nat, fate: RepairFate)
    requires JsonLaws(j) && Inv(j, w, checkpointed, whole)
    ensures var all := Join(Recorded(w.complete));
            var (outcome, l) := Repaired(j, w.log, fate);
            && !outcome.Corrupt?
            && (l.file == w.log.file || l.file == all)
            && (l.checkpoint == w.log.checkpoint || (l.checkpoint == Some(|all|) && l.file == all))
            && (!outcome.Failed? ==> l.file == all)
            && (!l.present ==> l.file == [])
  {
    RepairVerdict(j, w, checkpointed, whole);
    UnfinishedTail(j, w, checkpointed, whole);
    assert w.log.file == [] ==> w.log.file[|Join(Recorded(w.complete)[..whole])|..] == [];
    hide Join, Start, Check, Partial, AllEvents, JsonLaws;
  }

  /** A file that is exactly whole lines. */
  lemma WholeLinesInv(j: Json, l: JournalFiles, entries: seq<Entry>, checkpointed: nat)
    requires JsonLaws(j) && AllEvents(j, Recorded(entries)) && checkpointed <= |entries|
    requires l.file == Join(Recorded(entries)) && (!l.present ==> l.file == [])
    requires l.checkpoint.Some? ==> l.checkpoint.value == |Join(Recorded(entries)[..checkpointed])|
    ensures Inv(j, World(l, entries), checkpointed, |entries|)
  {
    var es := Recorded(entries);
    assert es[..|es|] == es && es[|es|..] == [];
    assert !j.isObject([]);
    hide Join, IsEvent;
    assert l.file[|Join(es)|..] == [];
  }

  lemma RepairKeepsInv(j: Json, w: World, checkpointed: nat, whole: nat, fate: RepairFate)
    returns (checkpointed': nat, whole': nat)
    requires JsonLaws(j) && Inv(j, w, checkpointed, whole)
    ensures var (outcome, l) := Repaired(j, w.log, fate);
            && Inv(j, World(l, w.complete), checkpointed', whole')
            && !outcome.Corrupt?
            && (!outcome.Failed? ==> whole' == |w.complete| && l.file == Join(Recorded(w.complete)))
  {
    RepairShape(j, w, checkpointed, whole, fate);
    var es := Recorded(w.complete);
    assert es[..|es|] == es;
    var (outcome, l) := Repaired(j, w.log, fate);
    hide Repaired, Join, Partial, AllEvents, JsonLaws, Recorded;
    checkpointed' := if l.checkpoint == w.log.checkpoint then checkpointed else |es|;
    if l.file == Join(es) {
      whole' := |es|;
      WholeLinesInv(j, l, w.complete, checkpointed');
    } else {
      whole' := whole;
    }
  }

  /** Entries after a line of which the event arrived. */
  lemma RecordedSnoc(entries: seq<Entry>, e: Entry)
    ensures Recorded(entries + [e]) == Recorded(entries) + [e.event]
    ensures Join(Recorded(entries + [e])) == Join(Recorded(entries)) + e.event + [NEWLINE]
    ensures forall k :: 0 <= k <= |entries| ==> Recorded(entries + [e])[..k] == Recorded(entries)[..k]
  {
    assert Recorded(entries + [e]) == Recorded(entries) + [e.event];
    assert Recorded(entries + [e])[..|entries|] == Recorded(entries);
  }

  /** The event arrived, its separator did not. */
  lemma UnseparatedInv(j: Json, w: World, checkpointed: nat, e: Bytes, fate: AppendFate)
    requires JsonLaws(j) && IsEvent(j, e) && fate.reached == |e|
    requires Inv(j, w, checkpointed, |w.complete|) && w.log.file == Join(Recorded(w.complete))
    ensures Inv(j, World(Appended(w.log, e, fate), w.complete + [Entry(e, false)]), checkpointed, |w.complete|)
  {
    var es, l := Recorded(w.complete), Appended(w.log, e, fate);
    RecordedSnoc(w.complete, Entry(e, false));
    assert (e + [NEWLINE])[..|e|] == e;
    assert l.file == Join(es) + e && l.file[|Join(es)|..] == e && e[..|e|] == e;
    assert es[..|es|] == es && (es + [e])[..|es|] == es && (es + [e])[|es|..] == [e];
    assert Partial(j, e);
    hide Join, JsonLaws, Recorded, Appended, Partial;
  }

  /** Not even the event arrived whole. */
  lemma PartialInv(j: Json, w: World, checkpointed: nat, e: Bytes, fate: AppendFate)
    requires JsonLaws(j) && IsEvent(j, e) && fate.reached < |e|
    requires Inv(j, w, checkpointed, |w.complete|) && w.log.file == Join(Recorded(w.complete))
    ensures Inv(j, World(Appended(w.log, e, fate), w.complete), checkpointed, |w.complete|)
  {
    var es, l, tail := Recorded(w.complete), Appended(w.log, e, fate), e[..fate.reached];
    assert (e + [NEWLINE])[..fate.reached] == tail;
    assert l.file == Join(es) + tail && l.file[|Join(es)|..] == tail;
    assert es[..|es|] == es && es[|es|..] == [];
    assert Partial(j, tail) && !j.isObject(tail);
    hide Join, JsonLaws, Recorded, Appended, Partial;
  }

  lemma AppendKeepsInv(j: Json, w: World, checkpointed: nat, e: Bytes, fate: AppendFate)
    returns (checkpointed': nat, whole': nat)
    requires JsonLaws(j) && IsEvent(j, e)
    requires Inv(j, w, checkpointed, |w.complete|) && w.log.file == Join(Recorded(w.complete))
    ensures var entries := if fate.reached >= |e| then w.complete + [Entry(e, Reported(e, fate))] else w.complete;
            Inv(j, World(Appended(w.log, e, fate), entries), checkpointed', whole')
  {
    checkpointed', whole' := checkpointed, |w.complete|;
    if fate.reached < |e| {
      PartialInv(j, w, checkpointed, e, fate);
    } else if fate.reached == |e| {
      UnseparatedInv(j, w, checkpointed, e, fate);
    } else {
      var entries := w.complete + [Entry(e, Reported(e, fate))];
      whole' := |entries|;
      checkpointed' := if Reported(e, fate) then whole' else checkpointed;
      RecordedSnoc(w.complete, Entry(e, Reported(e, fate)));
      var l := Appended(w.log, e, fate);
      assert (e + [NEWLINE])[..|e| + 1] == e + [NEWLINE];
      assert l.file == Join(Recorded(w.complete)) + e + [NEWLINE];
      assert Recorded(entries)[..|entries|] == Recorded(entries);
      assert AllEvents(j, Recorded(entries));
      hide Join, JsonLaws, Recorded, AllEvents, Partial, IsEvent;
      WholeLinesInv(j, l, entries, checkpointed');
    }
  }

  lemma {:induction false} RunKeepsInv(j: Json, events: seq<Event>) returns (checkpointed: nat, whole: nat)
    requires JsonLaws(j) && forall e :: e in events && e.Poll? ==> IsEvent(j, e.event)
    ensures Inv(j, Run(j, events), checkpointed, whole)
  {
    checkpointed, whole := 0, 0;
    if events != [] {
      var w, e := Run(j, events[..|events| - 1]), events[|events| - 1];
      checkpointed, whole := RunKeepsInv(j, events[..|events| - 1]);
      checkpointed, whole := RepairKeepsInv(j, w, checkpointed, whole, e.repair);
      var (outcome, l) := Repaired(j, w.log, e.repair);
      hide Inv, Repaired, Join;
      if e.Poll? && !outcome.Failed? {
        checkpointed, whole := AppendKeepsInv(j, World(l, w.complete), checkpointed, e.event, e.append);
      }
    }
  }

  /** The events whose append returned normally, in order. */
  function Successes(j: Json, events: seq<Event>): seq<Bytes> {
    if events == [] then [] else
    var w, e := Run(j, events[..|events| - 1]), events[|events| - 1];
    var outcome := Repaired(j, w.log, e.repair).0;
    Successes(j, events[..|events| - 1]) +
    (if e.Poll? && !outcome.Corrupt? && !outcome.Failed? && Reported(e.event, e.append) then [e.event] else [])
  }

  function ReportedEvents(entries: seq<Entry>): seq<Bytes> {
    if entries == [] then [] else
    ReportedEvents(entries[..|entries| - 1]) +
    (if entries[|entries| - 1].reported then [entries[|entries| - 1].event] else [])
  }

  lemma ReportedSnoc(entries: seq<Entry>, e: Entry)
    ensures ReportedEvents(entries + [e]) == ReportedEvents(entries) + (if e.reported then [e.event] else [])
  {
    assert (entries + [e])[..|entries|] == entries;
  }

  /** What one event adds to the reported ones. */
  lemma NextReports(j: Json, w: World, e: Event)
    ensures var outcome := Repaired(j, w.log, e.repair).0;
            ReportedEvents(Next(j, w, e).complete) == ReportedEvents(w.complete) +
            (if e.Poll? && !outcome.Corrupt? && !outcome.Failed? && Reported(e.event, e.append) then [e.event] else [])
  {
    hide Repaired, Appended;
    if e.Poll? {
      assert Reported(e.event, e.append) ==> e.append.reached >= |e.event|;
      ReportedSnoc(w.complete, Entry(e.event, Reported(e.event, e.append)));
    }
    hide ReportedEvents, Reported;
  }

  lemma {:induction false} SuccessesAreReported(j: Json, events: seq<Event>)
    ensures ReportedEvents(Run(j, events).complete) == Successes(j, events)
  {
    if events != [] {
      SuccessesAreReported(j, events[..|events| - 1]);
      NextReports(j, Run(j, events[..|events| - 1]), events[|events| - 1]);
      hide Repaired, Next, Reported, ReportedEvents;
    }
  }

  /** Over every run of torn appends, crashes, repairs and retries: the journal reads back
      exactly the events whose JSON all arrived, in order, among them every event reported as
      written; repair never meets interior corruption; after a repair that does not fail every
      line of the file is whole; and the checkpoint only ever covers whole valid lines. */
  lemma RunReadsBack(j: Json, events: seq<Event>, fate: RepairFate)
    requires JsonLaws(j) && forall e :: e in events && e.Poll? ==> IsEvent(j, e.event)
    ensures var w := Run(j, events);
            && Events(j, w.log.file, 0) == Recorded(w.complete)
            && ReportedEvents(w.complete) == Successes(j, events)
            && (w.log.checkpoint.Some? ==>
                  && 0 <= w.log.checkpoint.value <= |w.log.file|
                  && Check(j, w.log.file[..w.log.checkpoint.value], 0) == Clean(false))
            && var (outcome, l) := Repaired(j, w.log, fate);
               && !outcome.Corrupt?
               && Events(j, l.file, 0) == Recorded(w.complete)
               && (!outcome.Failed? ==> Check(j, l.file, 0) == Clean(false))
  {
    SuccessesAreReported(j, events);
    var checkpointed, whole := RunKeepsInv(j, events);
    var w := Run(j, events);
    InvReadsBack(j, w, checkpointed, whole);
    var (outcome, l) := Repaired(j, w.log, fate);
    var c, n := RepairKeepsInv(j, w, checkpointed, whole, fate);
    InvReadsBack(j, World(l, w.complete), c, n);
    hide Events, Repaired;
    var es := Recorded(w.complete);
    if !outcome.Failed? {
      CheckJoined(j, es, 0, []);
      assert es[..0] == [] && Join(es) + [] == Join(es);
    }
  }

  lemma InvReadsBack(j: Json, w: World, checkpointed: nat, whole: nat)
    requires JsonLaws(j) && Inv(j, w, checkpointed, whole)
    ensures Events(j, w.log.file, 0) == Recorded(w.complete)
    ensures w.log.checkpoint.Some? ==>
              && 0 <= w.log.checkpoint.value <= |w.log.file|
              && Check(j, w.log.file[..w.log.checkpoint.value], 0) == Clean(false)
  {
    var es := Recorded(w.complete);
    var lines, file := es[..whole], w.log.file;
    var tail := file[|Join(lines)|..];
    assert file == Join(lines) + tail;
    CheckJoined(j, lines, 0, tail);
    assert lines[..0] == [] && lines[0..] == lines;
    assert lines + es[whole..] == es;
    if w.log.checkpoint.Some? {
      var front := es[..checkpointed];
      JoinPrefix(lines, checkpointed);
      assert lines[..checkpointed] == front;
      assert file[..|Join(front)|] == Join(lines)[..|Join(front)|] == Join(front);
      CheckJoined(j, front, 0, []);
      assert front[..0] == [] && Join(front) + [] == Join(front);
    }
  }
}
