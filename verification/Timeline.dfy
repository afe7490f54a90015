/** Which static schedule version the collector had observed: at one instant, and over a range. */
module Timeline {
  import opened Common

  datatype Confidence = CollectorObserved | LegacyScheduleUncertain

  datatype Digest = Digest(hex: string)

  /** What two observations must share to be one version. */
  datatype Version = Version(sha256: Digest, confidence: Confidence)

  /** One line of the history; `checked` is None when its time does not parse. */
  datatype Event = Event(checked: Option<int>, sha256: Digest, legacy: bool)

  datatype Check = Check(at: int, version: Version)

  function ConfidenceOf(e: Event): Confidence {
    if e.legacy then LegacyScheduleUncertain else CollectorObserved
  }

  /** The events with a time, in history order. */
  function Checks(history: seq<Event>): seq<Check> {
    if history == [] then [] else
    var e := history[|history| - 1];
    var front := Checks(history[..|history| - 1]);
    if e.checked.None? then front else front + [Check(e.checked.value, Version(e.sha256, ConfidenceOf(e)))]
  }

  /******* At one instant *******/

  /** The first of the latest checks up to `t`. */
  function Latest(checks: seq<Check>, t: int): Option<Check> {
    if checks == [] then None else
    var last := checks[|checks| - 1];
    var best := Latest(checks[..|checks| - 1], t);
    if last.at <= t && (best.None? || last.at > best.value.at) then Some(last) else best
  }

  method ObservedVersionAt(history: seq<Event>, t: int) returns (observed: Option<Check>)
    ensures observed == Latest(Checks(history), t)
  {
    observed := None;
    for i := 0 to |history|
      invariant observed == Latest(Checks(history[..i]), t)
    {
      assert history[..i + 1][..i] == history[..i];
      var e := history[i];
      if e.checked.Some? {
        var check := Check(e.checked.value, Version(e.sha256, ConfidenceOf(e)));
        assert (Checks(history[..i]) + [check])[..|Checks(history[..i])|] == Checks(history[..i]);
        if check.at <= t && (observed.None? || check.at > observed.value.at) {
          observed := Some(check);
        }
      }
    }
    assert history[..|history|] == history;
  }

  /** Event `i` is what was observed at `t`: the first of the latest up to then, with its digest, its time
      and the confidence of its source. */
  ghost predicate ObservedEvent(history: seq<Event>, t: int, i: int, c: Check) {
    && 0 <= i < |history| && history[i].checked == Some(c.at) && c.at <= t
    && c.version == Version(history[i].sha256, if history[i].legacy then LegacyScheduleUncertain else CollectorObserved)
    && (forall j :: 0 <= j < |history| && history[j].checked.Some? && history[j].checked.value <= t ==>
          history[j].checked.value <= c.at)
    && (forall j :: 0 <= j < i ==> history[j].checked != Some(c.at))
  }

  /** The lookup, in terms of the history alone. */
  lemma {:induction false} ObservedMeaning(history: seq<Event>, t: int)
    ensures var c := Latest(Checks(history), t);
            && (c.Some? ==> exists i :: ObservedEvent(history, t, i, c.value))
            && (c.None? ==> forall j :: 0 <= j < |history| && history[j].checked.Some? ==> history[j].checked.value > t)
  {
    if history != [] {
      var front, e := history[..|history| - 1], history[|history| - 1];
      ObservedMeaning(front, t);
      assert history == front + [e];
      var before, after := Latest(Checks(front), t), Latest(Checks(history), t);
      if e.checked.Some? {
        var check := Check(e.checked.value, Version(e.sha256, ConfidenceOf(e)));
        assert (Checks(front) + [check])[..|Checks(front)|] == Checks(front);
        assert after == if check.at <= t && (before.None? || check.at > before.value.at) then Some(check) else before;
        if after == Some(check) && (before.None? || check.at > before.value.at) {
          assert ObservedEvent(history, t, |history| - 1, check);
        } else {
          ObservedLonger(front, e, t, before);
        }
      } else {
        assert after == before;
        ObservedLonger(front, e, t, before);
      }
    }
  }

  lemma ObservedLonger(front: seq<Event>, e: Event, t: int, observed: Option<Check>)
    requires observed.Some? ==> exists i :: ObservedEvent(front, t, i, observed.value)
    requires e.checked.Some? && e.checked.value <= t ==> observed.Some? && e.checked.value <= observed.value.at
    ensures observed.Some? ==> exists i :: ObservedEvent(front + [e], t, i, observed.value)
  {
    if observed.Some? {
      var i :| ObservedEvent(front, t, i, observed.value);
      assert ObservedEvent(front + [e], t, i, observed.value);
    }
  }

  /** The check at `k` is up to `t`, none up to `t` is later, and it is the first of its time. */
  ghost predicate FirstOfLatest(checks: seq<Check>, t: int, k: nat) {
    && k < |checks| && checks[k].at <= t
    && (forall i :: 0 <= i < |checks| && checks[i].at <= t ==> checks[i].at <= checks[k].at)
    && (forall i :: 0 <= i < k ==> checks[i].at != checks[k].at)
  }

  lemma {:induction false} LatestIsLatest(checks: seq<Check>, t: int) returns (k: nat)
    ensures Latest(checks, t).None? ==> forall i :: 0 <= i < |checks| ==> checks[i].at > t
    ensures Latest(checks, t).Some? ==> FirstOfLatest(checks, t, k) && checks[k] == Latest(checks, t).value
  {
    k := 0;
    if checks != [] {
      var n := |checks| - 1;
      var front, last := checks[..n], checks[n];
      assert forall i :: 0 <= i < n ==> checks[i] == front[i];
      var j := LatestIsLatest(front, t);
      k := if last.at <= t && (Latest(front, t).None? || last.at > Latest(front, t).value.at) then n else j;
    }
  }

  /******* Stable sorting *******/

  ghost predicate Ordered(s: seq<Check>) {
    forall i, j :: 0 <= i < j < |s| ==> s[i].at <= s[j].at
  }

  /** `c` goes behind everything that is not later. */
  function Insert(s: seq<Check>, c: Check): seq<Check> {
    if s == [] || s[|s| - 1].at <= c.at then s + [c]
    else Insert(s[..|s| - 1], c) + [s[|s| - 1]]
  }

  function StableSort(s: seq<Check>): seq<Check> {
    if s == [] then [] else Insert(StableSort(s[..|s| - 1]), s[|s| - 1])
  }

  lemma {:induction false} InsertContents(s: seq<Check>, c: Check)
    ensures multiset(Insert(s, c)) == multiset(s) + multiset{c}
    ensures forall x :: x in Insert(s, c) ==> x in s || x == c
  {
    if s != [] && s[|s| - 1].at > c.at {
      InsertContents(s[..|s| - 1], c);
      assert s == s[..|s| - 1] + [s[|s| - 1]];
    }
  }

  lemma {:induction false} InsertOrdered(s: seq<Check>, c: Check)
    requires Ordered(s)
    ensures Ordered(Insert(s, c))
  {
    if s != [] && s[|s| - 1].at > c.at {
      var front, last := s[..|s| - 1], s[|s| - 1];
      InsertOrdered(front, c);
      InsertContents(front, c);
      var r := Insert(front, c);
      assert Insert(s, c) == r + [last];
      hide Insert;
      forall i | 0 <= i < |r|
        ensures r[i].at <= last.at
      {
        assert r[i] in r;
      }
    }
  }

  lemma {:induction false} SortOrdered(s: seq<Check>)
    ensures Ordered(StableSort(s)) && multiset(StableSort(s)) == multiset(s)
  {
    if s != [] {
      var front, last := s[..|s| - 1], s[|s| - 1];
      hide Insert, Ordered;
      SortOrdered(front);
      InsertOrdered(StableSort(front), last);
      InsertContents(StableSort(front), last);
      assert s == front + [last];
    }
  }

  lemma SortStep(front: seq<Check>, last: Check)
    ensures StableSort(front + [last]) == Insert(StableSort(front), last) && Ordered(StableSort(front))
  {
    assert (front + [last])[..|front|] == front;
    SortOrdered(front);
    hide Insert, Ordered;
  }

  /** The last check up to `t` in list order. */
  function Winner(s: seq<Check>, t: int): Option<Check> {
    if s == [] then None
    else if s[|s| - 1].at <= t then Some(s[|s| - 1])
    else Winner(s[..|s| - 1], t)
  }

  lemma LatestSnoc(s: seq<Check>, c: Check, t: int)
    ensures Latest(s + [c], t) ==
            if c.at <= t && (Latest(s, t).None? || c.at > Latest(s, t).value.at) then Some(c) else Latest(s, t)
    ensures Winner(s + [c], t) == if c.at <= t then Some(c) else Winner(s, t)
  {
    assert (s + [c])[..|s|] == s;
  }

  lemma {:induction false} LatestBelow(s: seq<Check>, t: int)
    ensures Latest(s, t).Some? ==> Latest(s, t).value.at <= t && Latest(s, t).value in s
    ensures Latest(s, t).None? <==> Winner(s, t).None?
  {
    if s != [] {
      LatestBelow(s[..|s| - 1], t);
    }
  }

  /** Inserting behind everything that is not later is like coming last, for what is latest. */
  lemma {:induction false} LatestInsert(s: seq<Check>, c: Check, t: int)
    requires Ordered(s)
    ensures Latest(Insert(s, c), t) == Latest(s + [c], t)
  {
    LatestSnoc(s, c, t);
    if s != [] && s[|s| - 1].at > c.at {
      var front, last := s[..|s| - 1], s[|s| - 1];
      LatestInsert(front, c, t);
      LatestSnoc(front, c, t);
      LatestSnoc(Insert(front, c), last, t);
      LatestBelow(front, t);
    }
  }

  lemma LatestCongruent(a: seq<Check>, b: seq<Check>, c: Check, t: int)
    requires Latest(a, t) == Latest(b, t)
    ensures Latest(a + [c], t) == Latest(b + [c], t)
  {
    LatestSnoc(a, c, t);
    LatestSnoc(b, c, t);
  }

  lemma {:induction false} LatestSorted(s: seq<Check>, t: int)
    ensures Latest(StableSort(s), t) == Latest(s, t)
  {
    if s != [] {
      var front, last := s[..|s| - 1], s[|s| - 1];
      SortStep(front, last);
      assert s == front + [last];
      var sorted := StableSort(front);
      hide *;
      LatestSorted(front, t);
      LatestInsert(sorted, last, t);
      LatestCongruent(sorted, front, last, t);
    }
  }

  /******* Over a range *******/

  datatype Segment = Segment(from: int, until: int, version: Version)

  /** Checks strictly inside the range, in order. */
  function Inside(s: seq<Check>, start: int, end: int): seq<Check> {
    if s == [] then [] else
    var front, last := Inside(s[..|s| - 1], start, end), s[|s| - 1];
    if start < last.at < end then front + [last] else front
  }

  function Boundaries(s: seq<Check>, start: int, end: int): seq<Check> {
    (if Latest(s, start).Some? then [Latest(s, start).value] else []) + Inside(s, start, end)
  }

  function From(start: int, c: Check): int { if c.at < start then start else c.at }

  function Until(bs: seq<Check>, k: nat, end: int): int {
    if k < |bs| then bs[k].at else end
  }

  /** The segments of the first `k` boundaries, neighbours of one version merged. */
  function Merged(bs: seq<Check>, k: nat, start: int, end: int): seq<Segment>
    requires k <= |bs|
  {
    if k == 0 then [] else
    var segments := Merged(bs, k - 1, start, end);
    var until := Until(bs, k, end);
    if segments != [] && segments[|segments| - 1].version == bs[k - 1].version
    then segments[|segments| - 1 := segments[|segments| - 1].(until := until)]
    else segments + [Segment(From(start, bs[k - 1]), until, bs[k - 1].version)]
  }

  function TimelineOf(history: seq<Event>, start: int, end: int): seq<Segment> {
    var bs := Boundaries(StableSort(Checks(history)), start, end);
    Merged(bs, |bs|, start, end)
  }

  datatype RangeError = EndNotAfterStart

  method ObservedTimeline(history: seq<Event>, start: int, end: int) returns (result: Result<seq<Segment>, RangeError>)
    ensures end <= start ==> result == Err(EndNotAfterStart)
    ensures end > start ==> result == Ok(TimelineOf(history, start, end))
  {
    if end <= start {
      return Err(EndNotAfterStart);
    }
    var bs := Boundaries(StableSort(Checks(history)), start, end);
    var timeline: seq<Segment> := [];
    for index := 0 to |bs|
      invariant timeline == Merged(bs, index, start, end)
    {
      var from := if start < bs[index].at then bs[index].at else start;
      var until := if index + 1 < |bs| then bs[index + 1].at else end;
      if timeline != [] && timeline[|timeline| - 1].version == bs[index].version {
        timeline := timeline[|timeline| - 1 := timeline[|timeline| - 1].(until := until)];
      } else {
        timeline := timeline + [Segment(from, until, bs[index].version)];
      }
    }
    return Ok(timeline);
  }

  /** The range from the first boundary to the end, without gaps or overlaps, neighbours different. */
  ghost predicate Partitions(segments: seq<Segment>, from: int, until: int) {
    && (segments != [] ==> segments[0].from == from && segments[|segments| - 1].until == until)
    && (forall i :: 0 <= i < |segments| ==> from <= segments[i].from <= segments[i].until <= until)
    && (forall i :: 0 <= i < |segments| - 1 ==>
          segments[i].until == segments[i + 1].from && segments[i].version != segments[i + 1].version)
  }

  ghost predicate GoodBoundaries(bs: seq<Check>, start: int, end: int) {
    && Ordered(bs) && start < end
    && (forall i :: 0 <= i < |bs| ==> bs[i].at < end && (i > 0 ==> start < bs[i].at))
  }

  lemma {:induction false} MergedPartitions(bs: seq<Check>, k: nat, start: int, end: int)
    requires GoodBoundaries(bs, start, end) && 0 < k <= |bs|
    ensures Merged(bs, k, start, end) != []
    ensures Merged(bs, k, start, end)[|Merged(bs, k, start, end)| - 1].version == bs[k - 1].version
    ensures Partitions(Merged(bs, k, start, end), From(start, bs[0]), Until(bs, k, end))
  {
    if k > 1 {
      MergedPartitions(bs, k - 1, start, end);
      assert bs[0].at <= bs[k - 1].at;
      assert k < |bs| ==> bs[k - 1].at <= bs[k].at;
    } else {
      assert Merged(bs, 0, start, end) == [];
    }
  }

  ghost predicate Names(segments: seq<Segment>, t: int, v: Version) {
    exists i :: 0 <= i < |segments| && segments[i].from <= t < segments[i].until && segments[i].version == v
  }

  /** The last of the first `k` segments starts no later than boundary `k - 1` and runs to the next. */
  lemma MergedLast(bs: seq<Check>, k: nat, start: int, end: int)
    requires GoodBoundaries(bs, start, end) && 0 < k <= |bs|
    ensures var s := Merged(bs, k, start, end);
            && s != [] && s[|s| - 1].version == bs[k - 1].version
            && s[|s| - 1].from <= From(start, bs[k - 1]) && s[|s| - 1].until == Until(bs, k, end)
  {
    MergedPartitions(bs, k, start, end);
    if k > 1 {
      MergedPartitions(bs, k - 1, start, end);
    }
  }

  /** The segments there are stay, or grow, when one more boundary is taken in. */
  lemma MergedGrows(bs: seq<Check>, k: nat, start: int, end: int, i: nat)
    requires GoodBoundaries(bs, start, end) && 1 < k <= |bs| && i < |Merged(bs, k - 1, start, end)|
    ensures var s, s' := Merged(bs, k - 1, start, end), Merged(bs, k, start, end);
            i < |s'| && s'[i].from == s[i].from && s'[i].version == s[i].version && s'[i].until >= s[i].until
  {
    MergedLast(bs, k - 1, start, end);
    assert k < |bs| ==> bs[k - 1].at <= bs[k].at;
  }

  /** An instant between the first boundary and the end is named the version of the last boundary up to it. */
  lemma {:induction false} MergedNames(bs: seq<Check>, k: nat, start: int, end: int, t: int)
    requires GoodBoundaries(bs, start, end) && 0 < k <= |bs|
    requires From(start, bs[0]) <= t < Until(bs, k, end)
    ensures Winner(bs[..k], t).Some? && Names(Merged(bs, k, start, end), t, Winner(bs[..k], t).value.version)
  {
    var segments := Merged(bs, k, start, end);
    MergedLast(bs, k, start, end);
    assert bs[..k][..k - 1] == bs[..k - 1];
    if bs[k - 1].at <= t {
      hide Merged;
      assert segments[|segments| - 1].from <= t;
    } else {
      MergedNames(bs, k - 1, start, end, t);
      var before, v := Merged(bs, k - 1, start, end), Winner(bs[..k - 1], t).value.version;
      var i :| 0 <= i < |before| && before[i].from <= t < before[i].until && before[i].version == v;
      MergedGrows(bs, k, start, end, i);
    }
  }

  /** No instant is in two segments. */
  lemma {:induction false} SegmentsAscend(segments: seq<Segment>, from: int, until: int, i: nat, j: nat)
    requires Partitions(segments, from, until) && i < j < |segments|
    ensures segments[i].until <= segments[j].from
    decreases j
  {
    if i < j - 1 {
      SegmentsAscend(segments, from, until, i, j - 1);
    }
  }

  lemma NamesOne(segments: seq<Segment>, from: int, until: int, t: int, v: Version, w: Version)
    requires Partitions(segments, from, until) && Names(segments, t, v) && Names(segments, t, w)
    ensures v == w
  {
    var i :| 0 <= i < |segments| && segments[i].from <= t < segments[i].until && segments[i].version == v;
    var j :| 0 <= j < |segments| && segments[j].from <= t < segments[j].until && segments[j].version == w;
    if i < j {
      SegmentsAscend(segments, from, until, i, j);
    } else if j < i {
      SegmentsAscend(segments, from, until, j, i);
    }
  }

  /******* The timeline and the instants *******/

  lemma {:induction false} InsideShape(s: seq<Check>, start: int, end: int)
    requires Ordered(s)
    ensures Ordered(Inside(s, start, end))
    ensures forall c :: c in Inside(s, start, end) ==> c in s && start < c.at < end
  {
    if s != [] {
      var front, last := s[..|s| - 1], s[|s| - 1];
      InsideShape(front, start, end);
      assert forall c :: c in front ==> c.at <= last.at;
    }
  }

  lemma BoundariesGood(s: seq<Check>, start: int, end: int)
    requires Ordered(s) && start < end
    ensures GoodBoundaries(Boundaries(s, start, end), start, end)
  {
    InsideShape(s, start, end);
    LatestBelow(s, start);
    var inside, bs := Inside(s, start, end), Boundaries(s, start, end);
    hide Inside, Latest;
    assert forall i :: 0 <= i < |inside| ==> inside[i] in inside;
    assert Latest(s, start).None? ==> bs == inside;
    assert Latest(s, start).Some? ==> bs == [Latest(s, start).value] + inside;
  }

  lemma {:induction false} WinnerFound(s: seq<Check>, t: int)
    requires Ordered(s)
    ensures Winner(s, t).Some? ==> Winner(s, t).value in s && Winner(s, t).value.at <= t
    ensures Winner(s, t).Some? ==> Latest(s, t).Some? && Latest(s, t).value.at == Winner(s, t).value.at
  {
    if s != [] {
      var front := s[..|s| - 1];
      WinnerFound(front, t);
      LatestBelow(s, t);
      LatestBelow(front, t);
      assert forall c :: c in front ==> c.at <= s[|s| - 1].at;
    }
  }

  /** What the boundaries say at `t`, in terms of the whole list. */
  lemma {:induction false} WinnerInside(s: seq<Check>, start: int, end: int, t: int)
    requires Ordered(s) && start <= t < end
    ensures Winner(Inside(s, start, end), t) ==
            if Winner(s, t).Some? && Winner(s, t).value.at > start then Winner(s, t) else None
    ensures Winner(s, t).Some? && Winner(s, t).value.at <= start ==> Latest(s, t) == Latest(s, start)
  {
    if s != [] {
      var front, last := s[..|s| - 1], s[|s| - 1];
      WinnerInside(front, start, end, t);
      InsideShape(front, start, end);
      LatestSnoc(Inside(front, start, end), last, t);
      if last.at <= start {
        InsideEmpty(front, start, end);
        LatestEarly(front, start, t);
      }
    }
  }

  lemma {:induction false} InsideEmpty(s: seq<Check>, start: int, end: int)
    requires forall c :: c in s ==> c.at <= start
    ensures Inside(s, start, end) == []
  {
    if s != [] {
      InsideEmpty(s[..|s| - 1], start, end);
      assert s[|s| - 1] in s;
    }
  }

  lemma {:induction false} LatestEarly(s: seq<Check>, start: int, t: int)
    requires start <= t && forall c :: c in s ==> c.at <= start
    ensures Latest(s, t) == Latest(s, start)
  {
    if s != [] {
      LatestEarly(s[..|s| - 1], start, t);
      assert s[|s| - 1] in s;
    }
  }

  /** The last of the latest checks up to `t`. */
  function LastLatest(checks: seq<Check>, t: int): Option<Check> {
    if checks == [] then None else
    var last := checks[|checks| - 1];
    var best := LastLatest(checks[..|checks| - 1], t);
    if last.at <= t && (best.None? || last.at >= best.value.at) then Some(last) else best
  }

  lemma LastLatestSnoc(s: seq<Check>, c: Check, t: int)
    ensures LastLatest(s + [c], t) ==
            if c.at <= t && (LastLatest(s, t).None? || c.at >= LastLatest(s, t).value.at) then Some(c)
            else LastLatest(s, t)
  {
    assert (s + [c])[..|s|] == s;
  }

  lemma {:induction false} LastLatestBelow(s: seq<Check>, t: int)
    ensures LastLatest(s, t).Some? ==> LastLatest(s, t).value.at <= t && LastLatest(s, t).value in s
  {
    if s != [] {
      LastLatestBelow(s[..|s| - 1], t);
    }
  }

  lemma {:induction false} LastLatestInsert(s: seq<Check>, c: Check, t: int)
    requires Ordered(s)
    ensures LastLatest(Insert(s, c), t) == LastLatest(s + [c], t)
  {
    LastLatestSnoc(s, c, t);
    if s != [] && s[|s| - 1].at > c.at {
      var front, last := s[..|s| - 1], s[|s| - 1];
      LastLatestInsert(front, c, t);
      LastLatestSnoc(front, c, t);
      LastLatestSnoc(Insert(front, c), last, t);
      LastLatestBelow(front, t);
      assert forall x :: x in front ==> x.at <= last.at;
    }
  }

  lemma {:induction false} LastLatestOrdered(s: seq<Check>, t: int)
    requires Ordered(s)
    ensures LastLatest(s, t) == Winner(s, t)
  {
    if s != [] {
      var front := s[..|s| - 1];
      LastLatestOrdered(front, t);
      LastLatestBelow(front, t);
      assert forall x :: x in front ==> x.at <= s[|s| - 1].at;
    }
  }

  /** Stability: in the sorted list the last check of a time is the one that was last in the history. */
  lemma {:induction false} WinnerSorted(s: seq<Check>, t: int)
    ensures Winner(StableSort(s), t) == LastLatest(s, t)
  {
    SortOrdered(s);
    LastLatestOrdered(StableSort(s), t);
    LastLatestSorted(s, t);
  }

  lemma {:induction false} LastLatestSorted(s: seq<Check>, t: int)
    ensures LastLatest(StableSort(s), t) == LastLatest(s, t)
  {
    if s != [] {
      var front, last := s[..|s| - 1], s[|s| - 1];
      SortStep(front, last);
      assert s == front + [last];
      var sorted := StableSort(front);
      hide *;
      LastLatestSorted(front, t);
      LastLatestInsert(sorted, last, t);
      LastLatestSnoc(sorted, last, t);
      LastLatestSnoc(front, last, t);
    }
  }

  /** For a non-empty range the segments follow each other without gap or overlap from the first
      boundary to the end of the range, and neighbours differ in content or confidence. */
  lemma TimelinePartitions(history: seq<Event>, start: int, end: int)
    requires start < end
    ensures var bs := Boundaries(StableSort(Checks(history)), start, end);
            Partitions(TimelineOf(history, start, end), if bs == [] then end else From(start, bs[0]), end)
    ensures Latest(Checks(history), start).Some? ==>
              TimelineOf(history, start, end) != [] && TimelineOf(history, start, end)[0].from == start
  {
    var s := StableSort(Checks(history));
    SortOrdered(Checks(history));
    LatestSorted(Checks(history), start);
    LatestBelow(s, start);
    BoundariesGood(s, start, end);
    var bs := Boundaries(s, start, end);
    hide StableSort, Checks, Latest, Inside;
    if bs != [] {
      MergedPartitions(bs, |bs|, start, end);
    }
  }

  /** What the timeline names at `t`: the last of the latest checks when that is inside the range, else
      the first of the latest checks at the start; nothing exactly when nothing was observed up to `t`. */
  lemma TimelineNames(history: seq<Event>, start: int, end: int, t: int)
    requires start <= t < end
    ensures var checks := Checks(history);
            var last := LastLatest(checks, t);
            if last.None? then forall v :: !Names(TimelineOf(history, start, end), t, v)
            else Latest(checks, t).Some? &&
                 Names(TimelineOf(history, start, end), t,
                       if last.value.at > start then last.value.version else Latest(checks, t).value.version)
  {
    var checks := Checks(history);
    var s := StableSort(checks);
    SortOrdered(checks);
    LatestSorted(checks, t);
    WinnerSorted(checks, t);
    BoundariesGood(s, start, end);
    WinnerFound(s, t);
    LatestBelow(s, start);
    LatestBelow(s, t);
    WinnerInside(s, start, end, t);
    var bs := Boundaries(s, start, end);
    hide StableSort, Checks, LastLatest;
    BoundaryNames(s, start, end, t);
  }

  lemma {:induction false} WinnerAppend(a: seq<Check>, b: seq<Check>, t: int)
    ensures Winner(a + b, t) == if Winner(b, t).Some? then Winner(b, t) else Winner(a, t)
  {
    if b == [] {
      assert a + b == a;
    } else {
      WinnerAppend(a, b[..|b| - 1], t);
      assert (a + b)[..|a + b| - 1] == a + b[..|b| - 1];
    }
  }

  lemma {:induction false} WinnerNone(s: seq<Check>, t: int)
    ensures Winner(s, t).None? <==> forall i :: 0 <= i < |s| ==> s[i].at > t
    ensures Winner(s, t).Some? ==> exists i :: 0 <= i < |s| && s[i] == Winner(s, t).value && s[i].at <= t
  {
    if s != [] {
      WinnerNone(s[..|s| - 1], t);
    }
  }

  /** Up to the first boundary nothing is named, from then on the last boundary's version. */
  lemma BoundaryWinner(bs: seq<Check>, start: int, end: int, t: int)
    requires GoodBoundaries(bs, start, end) && start <= t < end
    ensures Winner(bs, t).Some? ==> Names(Merged(bs, |bs|, start, end), t, Winner(bs, t).value.version)
    ensures Winner(bs, t).None? ==> forall v :: !Names(Merged(bs, |bs|, start, end), t, v)
  {
    WinnerNone(bs, t);
    assert bs[..|bs|] == bs;
    if bs != [] {
      if Winner(bs, t).Some? {
        var i :| 0 <= i < |bs| && bs[i] == Winner(bs, t).value && bs[i].at <= t;
        assert bs[0].at <= bs[i].at;
        MergedNames(bs, |bs|, start, end, t);
      } else {
        MergedPartitions(bs, |bs|, start, end);
      }
    }
  }

  lemma BoundaryNames(s: seq<Check>, start: int, end: int, t: int)
    requires Ordered(s) && start <= t < end
    ensures var bs := Boundaries(s, start, end);
            if Winner(s, t).None? then forall v :: !Names(Merged(bs, |bs|, start, end), t, v)
            else Latest(s, t).Some? &&
                 Names(Merged(bs, |bs|, start, end), t,
                       if Winner(s, t).value.at > start then Winner(s, t).value.version else Latest(s, t).value.version)
  {
    var bs, before := Boundaries(s, start, end), if Latest(s, start).Some? then [Latest(s, start).value] else [];
    BoundariesGood(s, start, end);
    WinnerFound(s, t);
    WinnerInside(s, start, end, t);
    WinnerAppend(before, Inside(s, start, end), t);
    LatestBelow(s, start);
    LatestBelow(s, t);
    WinnerNone(s, t);
    WinnerNone(bs, t);
    hide Merged, Inside, Ordered, Names;
    BoundaryWinner(bs, start, end, t);
  }

  /** Both say the same at `t`. */
  ghost predicate AgreeAt(history: seq<Event>, start: int, end: int, t: int) {
    var observed := Latest(Checks(history), t);
    if observed.None? then forall v :: !Names(TimelineOf(history, start, end), t, v)
    else Names(TimelineOf(history, start, end), t, observed.value.version)
  }

  /** At every time inside the range at which something was checked, the first and the last check of
      that time found the same version. */
  ghost predicate TiesAgree(checks: seq<Check>, start: int, end: int) {
    forall t :: start < t < end && Latest(checks, t).Some? && Latest(checks, t).value.at == t ==>
                  LastLatest(checks, t).Some? && LastLatest(checks, t).value.version == Latest(checks, t).value.version
  }

  lemma {:induction false} SameTime(checks: seq<Check>, t: int)
    ensures Latest(checks, t).None? <==> LastLatest(checks, t).None?
    ensures Latest(checks, t).Some? ==> Latest(checks, t).value.at == LastLatest(checks, t).value.at
  {
    if checks != [] {
      SameTime(checks[..|checks| - 1], t);
    }
  }

  /** Nothing changes between the latest check and `t`. */
  lemma {:induction false} LatestAtItsTime(checks: seq<Check>, t: int)
    requires Latest(checks, t).Some?
    ensures var at := Latest(checks, t).value.at;
            && Latest(checks, at) == Latest(checks, t)
            && LastLatest(checks, at) == LastLatest(checks, t)
  {
    LatestBelow(checks, t);
    LatestBetween(checks, Latest(checks, t).value.at, t);
  }

  lemma {:induction false} LatestBetween(checks: seq<Check>, at: int, t: int)
    requires at <= t && (Latest(checks, t).Some? ==> Latest(checks, t).value.at <= at)
    ensures Latest(checks, at) == Latest(checks, t)
    ensures LastLatest(checks, at) == LastLatest(checks, t)
  {
    if checks != [] {
      LatestBetween(checks[..|checks| - 1], at, t);
      SameTime(checks[..|checks| - 1], t);
    }
  }

  /** The timeline and the pointwise lookup agree at every instant of the range if and only if no time
      inside the range has checks that differ first from last. */
  lemma AgreeIffTiesAgree(history: seq<Event>, start: int, end: int)
    requires start < end
    ensures (forall t :: start <= t < end ==> AgreeAt(history, start, end, t)) <==>
            TiesAgree(Checks(history), start, end)
  {
    var checks := Checks(history);
    if TiesAgree(checks, start, end) {
      forall t | start <= t < end
        ensures AgreeAt(history, start, end, t)
      {
        AgreeWhenTiesAgree(history, start, end, t);
      }
    }
    if forall t :: start <= t < end ==> AgreeAt(history, start, end, t) {
      forall t | start < t < end && Latest(checks, t).Some? && Latest(checks, t).value.at == t
        ensures LastLatest(checks, t).Some? && LastLatest(checks, t).value.version == Latest(checks, t).value.version
      {
        assert AgreeAt(history, start, end, t);
        hide AgreeAt, TiesAgree;
        TieAgrees(history, start, end, t);
      }
    }
  }

  lemma AgreeWhenTiesAgree(history: seq<Event>, start: int, end: int, t: int)
    requires start <= t < end && TiesAgree(Checks(history), start, end)
    ensures AgreeAt(history, start, end, t)
  {
    var checks := Checks(history);
    TimelineNames(history, start, end, t);
    SameTime(checks, t);
    hide TimelineOf, Names, Checks;
    if Latest(checks, t).Some? {
      LatestAtItsTime(checks, t);
      LatestBelow(checks, t);
    }
  }

  lemma TieAgrees(history: seq<Event>, start: int, end: int, t: int)
    requires start < t < end && AgreeAt(history, start, end, t)
    requires Latest(Checks(history), t).Some? && Latest(Checks(history), t).value.at == t
    ensures LastLatest(Checks(history), t).Some?
    ensures LastLatest(Checks(history), t).value.version == Latest(Checks(history), t).value.version
  {
    var checks := Checks(history);
    TimelineNames(history, start, end, t);
    TimelinePartitions(history, start, end);
    SameTime(checks, t);
    var bs := Boundaries(StableSort(checks), start, end);
    var from := if bs == [] then end else From(start, bs[0]);
    var timeline := TimelineOf(history, start, end);
    hide TimelineOf, Names, Boundaries, Partitions, Checks;
    NamesOne(timeline, from, end, t, LastLatest(checks, t).value.version, Latest(checks, t).value.version);
  }

  ghost predicate DistinctTimes(checks: seq<Check>) {
    forall i, j :: 0 <= i < j < |checks| ==> checks[i].at != checks[j].at
  }

  /** With distinct check times there are no ties. */
  lemma {:induction false} DistinctTimesAgree(checks: seq<Check>, t: int)
    requires DistinctTimes(checks)
    ensures LastLatest(checks, t) == Latest(checks, t)
  {
    if checks != [] {
      var front := checks[..|checks| - 1];
      DistinctTimesAgree(front, t);
      LatestBelow(front, t);
    }
  }

  /** For a history with distinct check times the timeline is the pointwise lookup, instant by instant. */
  lemma TimelineIsPointwise(history: seq<Event>, start: int, end: int, t: int)
    requires start <= t < end
    requires DistinctTimes(Checks(history))
    ensures AgreeAt(history, start, end, t)
  {
    var checks := Checks(history);
    assert TiesAgree(checks, start, end) by {
      forall u | start < u < end && Latest(checks, u).Some?
        ensures LastLatest(checks, u) == Latest(checks, u)
      {
        DistinctTimesAgree(checks, u);
      }
    }
    AgreeWhenTiesAgree(history, start, end, t);
  }

  lemma {:induction false} InsertDistinct(s: seq<Check>, c: Check)
    requires DistinctTimes(s) && forall x :: x in s ==> x.at != c.at
    ensures DistinctTimes(Insert(s, c))
  {
    if s != [] && s[|s| - 1].at > c.at {
      var front, last := s[..|s| - 1], s[|s| - 1];
      InsertDistinct(front, c);
      InsertContents(front, c);
      var r := Insert(front, c);
      assert Insert(s, c) == r + [last];
      hide Insert;
      assert forall x :: x in front ==> x.at != last.at;
      forall i | 0 <= i < |r|
        ensures r[i].at != last.at
      {
        assert r[i] in r;
      }
    }
  }

  lemma {:induction false} SortDistinct(s: seq<Check>)
    requires DistinctTimes(s)
    ensures DistinctTimes(StableSort(s))
    ensures forall x :: x in StableSort(s) <==> x in s
  {
    if s != [] {
      var front, last := s[..|s| - 1], s[|s| - 1];
      SortDistinct(front);
      InsertDistinct(StableSort(front), last);
      InsertContents(StableSort(front), last);
      assert s == front + [last];
      hide Insert, DistinctTimes;
      forall x
        ensures x in StableSort(s) <==> x in s
      {
        assert x in StableSort(s) <==> x in multiset(StableSort(s));
      }
    }
  }

  lemma {:induction false} InsideDistinct(s: seq<Check>, start: int, end: int)
    requires DistinctTimes(s) && Ordered(s)
    ensures DistinctTimes(Inside(s, start, end))
  {
    if s != [] {
      InsideDistinct(s[..|s| - 1], start, end);
      InsideShape(s[..|s| - 1], start, end);
      assert forall x :: x in s[..|s| - 1] ==> x.at != s[|s| - 1].at;
    }
  }

  /** With distinct check times no segment is empty. */
  lemma {:induction false} NoEmptySegments(bs: seq<Check>, k: nat, start: int, end: int)
    requires GoodBoundaries(bs, start, end) && DistinctTimes(bs) && k <= |bs|
    ensures forall i :: 0 <= i < |Merged(bs, k, start, end)| ==>
                          Merged(bs, k, start, end)[i].from < Merged(bs, k, start, end)[i].until
  {
    if k > 0 {
      NoEmptySegments(bs, k - 1, start, end);
      assert From(start, bs[k - 1]) < Until(bs, k, end) by {
        assert k < |bs| ==> bs[k - 1].at <= bs[k].at && bs[k - 1].at != bs[k].at;
      }
      if k > 1 {
        MergedLast(bs, k - 1, start, end);
        assert bs[k - 2].at <= bs[k - 1].at;
      }
    }
  }

  lemma TimelineHasNoEmptySegments(history: seq<Event>, start: int, end: int, i: nat)
    requires start < end && DistinctTimes(Checks(history)) && i < |TimelineOf(history, start, end)|
    ensures TimelineOf(history, start, end)[i].from < TimelineOf(history, start, end)[i].until
  {
    var s := StableSort(Checks(history));
    SortOrdered(Checks(history));
    SortDistinct(Checks(history));
    InsideDistinct(s, start, end);
    InsideShape(s, start, end);
    LatestBelow(s, start);
    BoundariesGood(s, start, end);
    var bs := Boundaries(s, start, end);
    hide StableSort, Inside, Latest;
    assert DistinctTimes(bs);
    NoEmptySegments(bs, |bs|, start, end);
  }

  /** Two checks at one time inside the range, of different files: the lookup says the first, the timeline the
      second. */
  lemma TiesDisagree()
    ensures var a, b := Event(Some(5), Digest("a"), false), Event(Some(5), Digest("b"), false);
            !AgreeAt([a, b], 0, 10, 5)
  {
    var a, b := Event(Some(5), Digest("a"), false), Event(Some(5), Digest("b"), false);
    var ca, cb := Check(5, Version(Digest("a"), CollectorObserved)), Check(5, Version(Digest("b"), CollectorObserved));
    assert [a, b][..1] == [a] && [a][..0] == [];
    assert Checks([a]) == [ca] && Checks([a, b]) == [ca, cb];
    assert [] + [ca] == [ca] && [ca] + [cb] == [ca, cb];
    LatestSnoc([], ca, 5);
    LatestSnoc([ca], cb, 5);
    LastLatestSnoc([], ca, 5);
    LastLatestSnoc([ca], cb, 5);
    assert "a" != "b";
    if AgreeAt([a, b], 0, 10, 5) {
      hide AgreeAt;
      TieAgrees([a, b], 0, 10, 5);
    }
  }
}
