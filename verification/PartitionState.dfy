/** The files of one (feed, date) partition: pending spool segments, commit markers, Parquet
    files and a compaction transaction; and what every reachable state of them satisfies.

    File names are the lists they are digests of, so a name determines what the file was made
    from. A Parquet file is its sequence of rows. */
module PartitionState {
  import opened Common
  import SpoolCodec

  datatype Row = Row(cells: SpoolCodec.Row)

  datatype Name = Name(file: string)

  /** The empty file of a day without data, the output of one spool commit, or of one compaction. */
  datatype FileName = Blank | Part(segments: seq<Name>) | Compacted(parts: seq<FileName>)

  /** A marker that is read back: the transaction written, or anything the reader refuses. */
  datatype Marker = Transaction(sources: seq<Name>, output: FileName, expectedRows: int) | Unreadable

  datatype Compaction = Compaction(sources: seq<FileName>, output: FileName, expectedRows: int)

  datatype Partition = Partition(
    segments: map<Name, seq<Row>>,
    markers: map<FileName, Marker>,
    files: map<FileName, seq<Row>>,
    compaction: Option<Compaction>)

  const NO_FILES: Partition := Partition(map[], map[], map[], None)

  /******* Lists *******/

  ghost predicate NoDup<T>(s: seq<T>) {
    forall i, j :: 0 <= i < j < |s| ==> s[i] != s[j]
  }

  ghost predicate Lists<T(!new)>(s: seq<T>, pool: set<T>) {
    NoDup(s) && forall x :: x in s <==> x in pool
  }

  ghost predicate Apart<T>(a: seq<T>, b: seq<T>) {
    forall x :: x in a ==> x !in b
  }

  /******* Rows *******/

  ghost predicate AllIn<K, V>(m: map<K, V>, keys: seq<K>) {
    forall k :: k in keys ==> k in m
  }

  function RowsAt<K>(m: map<K, seq<Row>>, keys: seq<K>): seq<Row>
    requires AllIn(m, keys)
  {
    if keys == [] then [] else RowsAt(m, keys[..|keys| - 1]) + m[keys[|keys| - 1]]
  }

  lemma RowsSnoc<K>(m: map<K, seq<Row>>, keys: seq<K>, k: K)
    requires AllIn(m, keys) && k in m
    ensures RowsAt(m, keys + [k]) == RowsAt(m, keys) + m[k]
  {
    assert (keys + [k])[..|keys|] == keys;
  }

  lemma {:induction false} RowsAppend<K>(m: map<K, seq<Row>>, a: seq<K>, b: seq<K>)
    requires AllIn(m, a) && AllIn(m, b)
    ensures RowsAt(m, a + b) == RowsAt(m, a) + RowsAt(m, b)
    decreases |b|
  {
    if b == [] {
      assert a + b == a;
    } else {
      var front, k := b[..|b| - 1], b[|b| - 1];
      RowsAppend(m, a, front);
      assert a + b == (a + front) + [k];
      RowsSnoc(m, a + front, k);
    }
  }

  lemma {:induction false} RowsSame<K>(m: map<K, seq<Row>>, m': map<K, seq<Row>>, keys: seq<K>)
    requires AllIn(m, keys) && AllIn(m', keys)
    requires forall k :: k in keys ==> m[k] == m'[k]
    ensures RowsAt(m, keys) == RowsAt(m', keys)
  {
    if keys != [] {
      RowsSame(m, m', keys[..|keys| - 1]);
    }
  }

  /** The rows of a set of segments do not depend on the order they are listed in. */
  lemma {:induction false} RowsPermuted<K(!new)>(m: map<K, seq<Row>>, a: seq<K>, b: seq<K>)
    requires AllIn(m, a) && AllIn(m, b) && NoDup(a) && NoDup(b)
    requires forall k :: k in a <==> k in b
    ensures multiset(RowsAt(m, a)) == multiset(RowsAt(m, b))
    decreases |a|
  {
    if a == [] {
      FirstElement(b);
    } else {
      var front, k := a[..|a| - 1], a[|a| - 1];
      assert k in b;
      var i :| 0 <= i < |b| && b[i] == k;
      var rest := b[..i] + b[i + 1..];
      Without(b, i);
      Without(a, |a| - 1);
      assert a[..|a| - 1] + a[|a| - 1 + 1..] == front;
      forall x
        ensures x in front <==> x in rest
      {
        assert x in front <==> x in a && x != k;
      }
      hide NoDup;
      RowsPermuted(m, front, rest);
      RowsWithout(m, b, i);
    }
  }

  lemma FirstElement<T(!new)>(b: seq<T>)
    ensures b == [] || exists x :: x in b
  {
    if b != [] {
      assert b[0] in b;
    }
  }

  lemma RowsWithout<K>(m: map<K, seq<Row>>, b: seq<K>, i: nat)
    requires AllIn(m, b) && i < |b|
    ensures AllIn(m, b[..i] + b[i + 1..])
    ensures multiset(RowsAt(m, b)) == multiset(RowsAt(m, b[..i] + b[i + 1..])) + multiset(m[b[i]])
  {
    var k := b[i];
    assert b == (b[..i] + [k]) + b[i + 1..];
    RowsAppend(m, b[..i] + [k], b[i + 1..]);
    RowsAppend(m, b[..i], b[i + 1..]);
    RowsSnoc(m, b[..i], k);
  }

  lemma Without<T>(b: seq<T>, i: nat)
    requires i < |b| && NoDup(b)
    ensures NoDup(b[..i] + b[i + 1..])
    ensures forall x :: x in b[..i] + b[i + 1..] <==> x in b && x != b[i]
  {
    var rest := b[..i] + b[i + 1..];
    forall x | x in b && x != b[i]
      ensures x in rest
    {
      var j :| 0 <= j < |b| && b[j] == x;
      assert rest[if j < i then j else j - 1] == x;
    }
  }

  /******* What a file was made from *******/

  ghost function Origin(f: FileName): seq<Name>
    decreases f
  {
    match f
    case Blank => []
    case Part(segments) => segments
    case Compacted(parts) => Origins(parts)
  }

  ghost function Origins(fs: seq<FileName>): seq<Name>
    decreases fs
  {
    if fs == [] then [] else Origins(fs[..|fs| - 1]) + Origin(fs[|fs| - 1])
  }

  /** A file is never one of the files it was made from. */
  lemma NotItsOwnSource(parts: seq<FileName>)
    ensures Compacted(parts) !in parts
  {
  }

  /******* The invariant *******/

  /** A finished compaction output stands for its sources, which may still be there. */
  ghost predicate Superseded(p: Partition, f: FileName) {
    p.compaction.Some? && p.compaction.value.output in p.files && f in p.compaction.value.sources
  }

  ghost predicate Visible(p: Partition, f: FileName) {
    f in p.files && !Superseded(p, f)
  }

  ghost predicate Covered(p: Partition, n: Name) {
    exists f :: Visible(p, f) && n in Origin(f)
  }

  /** Every file holds exactly the rows of the segments it was made from. */
  ghost predicate Contents(p: Partition, staged: map<Name, seq<Row>>) {
    && (forall n :: n in p.segments ==> n in staged && staged[n] == p.segments[n])
    && (forall f :: f in p.files ==> AllIn(staged, Origin(f)) && p.files[f] == RowsAt(staged, Origin(f)))
  }

  ghost predicate Disjoint(p: Partition) {
    && (forall f :: Visible(p, f) ==> NoDup(Origin(f)))
    && (forall f, g :: Visible(p, f) && Visible(p, g) && f != g ==> Apart(Origin(f), Origin(g)))
  }

  /** At most one marker; until its output is there, all of its sources are. */
  ghost predicate Markers(p: Partition, staged: map<Name, seq<Row>>) {
    && (forall k, l :: k in p.markers && l in p.markers ==> k == l)
    && (forall k :: k in p.markers ==> GoodMarker(p, staged, k))
  }

  ghost predicate GoodMarker(p: Partition, staged: map<Name, seq<Row>>, k: FileName)
    requires k in p.markers
  {
    && k.Part? && k.segments != [] && NoDup(k.segments) && AllIn(staged, k.segments)
    && p.markers[k] == Transaction(k.segments, k, |RowsAt(staged, k.segments)|)
    && (p.compaction.Some? ==> k !in p.compaction.value.sources)
    && (k !in p.files ==> forall n :: n in k.segments ==> n in p.segments && !Covered(p, n))
  }

  /** A pending segment that is in an output is one whose commit is being finished. */
  ghost predicate Pending(p: Partition) {
    forall n, f :: n in p.segments && Visible(p, f) && n in Origin(f) ==> f in p.markers
  }

  /** Nothing staged is lost. */
  ghost predicate Complete(p: Partition, staged: map<Name, seq<Row>>) {
    forall n :: n in staged ==> n in p.segments || Covered(p, n)
  }

  ghost predicate Compacting(p: Partition, staged: map<Name, seq<Row>>) {
    p.compaction.Some? ==>
      var tx := p.compaction.value;
      && tx.output == Compacted(tx.sources) && NoDup(tx.sources)
      && AllIn(staged, Origins(tx.sources)) && NoDup(Origins(tx.sources))
      && tx.expectedRows == |RowsAt(staged, Origins(tx.sources))|
      && (tx.output in p.files || forall f :: f in tx.sources ==> f in p.files)
  }

  ghost predicate Inv(p: Partition, staged: map<Name, seq<Row>>) {
    && Contents(p, staged) && Disjoint(p) && Markers(p, staged)
    && Pending(p) && Complete(p, staged) && Compacting(p, staged)
  }

  /******* What the invariant means *******/

  /** Each staged segment is in exactly one place: pending and in no output, or in exactly one output. */
  lemma ExactlyOnePlace(p: Partition, staged: map<Name, seq<Row>>, n: Name)
    requires Inv(p, staged) && n in staged
    ensures Covered(p, n) || n in p.segments
    ensures Covered(p, n) && n in p.segments ==> exists f :: f in p.markers && Visible(p, f) && n in Origin(f)
    ensures forall f, g :: Visible(p, f) && Visible(p, g) && n in Origin(f) && n in Origin(g) ==> f == g
  {
    if Covered(p, n) && n in p.segments {
      var f :| Visible(p, f) && n in Origin(f);
      assert f in p.markers;
    }
  }

  lemma {:induction false} OriginsMember(fs: seq<FileName>, n: Name)
    ensures n in Origins(fs) <==> exists f :: f in fs && n in Origin(f)
    decreases |fs|
  {
    if fs != [] {
      var front, last := fs[..|fs| - 1], fs[|fs| - 1];
      OriginsMember(front, n);
      if n in Origins(front) {
        var f :| f in front && n in Origin(f);
        assert f in fs;
      } else if n in Origin(last) {
        assert last in fs;
      }
      forall f | f in fs && n in Origin(f)
        ensures n in Origins(fs)
      {
        assert f in front || f == last;
      }
    }
  }

  lemma ApartNoDup<T>(a: seq<T>, b: seq<T>)
    requires NoDup(a) && NoDup(b) && Apart(a, b)
    ensures NoDup(a + b)
  {
    forall i, j | 0 <= i < j < |a + b|
      ensures (a + b)[i] != (a + b)[j]
    {
      if i < |a| <= j {
        assert a[i] in a && b[j - |a|] in b;
      }
    }
  }

  /** Files with disjoint origins, listed once each, list no segment twice. */
  lemma {:induction false} OriginsNoDup(fs: seq<FileName>)
    requires NoDup(fs)
    requires forall f :: f in fs ==> NoDup(Origin(f))
    requires forall f, g :: f in fs && g in fs && f != g ==> Apart(Origin(f), Origin(g))
    ensures NoDup(Origins(fs))
    decreases |fs|
  {
    if fs != [] {
      var front, last := fs[..|fs| - 1], fs[|fs| - 1];
      OriginsNoDup(front);
      forall n | n in Origins(front)
        ensures n !in Origin(last)
      {
        OriginsMember(front, n);
        var f :| f in front && n in Origin(f);
        assert f in fs && last in fs && f != last;
      }
      ApartNoDup(Origins(front), Origin(last));
    }
  }

  /** The rows of the files are the rows of the segments they were made from. */
  lemma {:induction false} FileRows(p: Partition, staged: map<Name, seq<Row>>, fs: seq<FileName>)
    requires Contents(p, staged) && AllIn(p.files, fs)
    ensures AllIn(staged, Origins(fs))
    ensures RowsAt(p.files, fs) == RowsAt(staged, Origins(fs))
    decreases |fs|
  {
    if fs != [] {
      var front, last := fs[..|fs| - 1], fs[|fs| - 1];
      FileRows(p, staged, front);
      RowsAppend(staged, Origins(front), Origin(last));
    }
  }

  /** Conservation: the rows of the visible files and of the pending segments in none of them are,
      with multiplicity, the rows ever staged. */
  lemma Conservation(p: Partition, staged: map<Name, seq<Row>>, fs: seq<FileName>, pending: seq<Name>, all: seq<Name>)
    requires Inv(p, staged) && Lists(all, staged.Keys) && NoDup(fs) && NoDup(pending)
    requires forall f :: f in fs <==> Visible(p, f)
    requires forall n :: n in pending <==> n in p.segments && !Covered(p, n)
    ensures AllIn(p.files, fs) && AllIn(p.segments, pending) && AllIn(staged, all)
    ensures multiset(RowsAt(p.files, fs)) + multiset(RowsAt(p.segments, pending)) == multiset(RowsAt(staged, all))
  {
    forall n
      ensures n in Origins(fs) <==> Covered(p, n)
    {
      OriginsMember(fs, n);
    }
    hide RowsAt, Origins;
    FileRows(p, staged, fs);
    OriginsNoDup(fs);
    ListedOnce(p, staged, Origins(fs), pending);
    hide Inv, Visible, Covered;
    RowsSame(staged, p.segments, pending);
    RowsAppend(staged, Origins(fs), pending);
    RowsPermuted(staged, Origins(fs) + pending, all);
  }

  lemma ListedOnce(p: Partition, staged: map<Name, seq<Row>>, covered: seq<Name>, pending: seq<Name>)
    requires Inv(p, staged) && NoDup(covered) && NoDup(pending)
    requires forall n :: n in covered <==> Covered(p, n)
    requires forall n :: n in pending <==> n in p.segments && !Covered(p, n)
    ensures NoDup(covered + pending)
    ensures forall n :: n in covered + pending <==> n in staged
    ensures AllIn(staged, covered) && AllIn(staged, pending)
    ensures forall n :: n in pending ==> staged[n] == p.segments[n]
  {
    forall n | Covered(p, n)
      ensures n in staged
    {
      var f :| Visible(p, f) && n in Origin(f);
      assert f in p.files;
    }
    hide Covered, Markers, Disjoint, Compacting, Pending, RowsAt;
    ApartNoDup(covered, pending);
  }

  /** With nothing pending and no compaction half done, the files on disk hold the rows ever staged. */
  lemma Drained(p: Partition, staged: map<Name, seq<Row>>, fs: seq<FileName>, all: seq<Name>)
    requires Inv(p, staged) && p.segments == map[] && p.compaction.None?
    requires Lists(fs, p.files.Keys) && Lists(all, staged.Keys)
    ensures AllIn(p.files, fs) && AllIn(staged, all)
    ensures multiset(RowsAt(p.files, fs)) == multiset(RowsAt(staged, all))
  {
    hide RowsAt, Origin, Inv;
    Conservation(p, staged, fs, [], all);
    assert RowsAt(p.segments, []) == [] by {
      NoRows(p.segments);
    }
  }

  lemma NoRows<K>(m: map<K, seq<Row>>)
    ensures AllIn(m, []) && RowsAt(m, []) == []
  {
  }
}
