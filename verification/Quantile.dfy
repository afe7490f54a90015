/** An exact distribution of whole-second revisions that keeps a histogram instead of the values. */
module Quantile {
  import opened Common

  function Abs(x: int): nat { if x < 0 then -x else x }

  /** How many of the values have a magnitude in `pool`. */
  ghost function CountIn(values: seq<int>, pool: nat -> bool): nat {
    if values == [] then 0 else
    CountIn(values[..|values| - 1], pool) + (if pool(Abs(values[|values| - 1])) then 1 else 0)
  }

  ghost function Below(x: nat): nat -> bool { v => v < x }

  ghost function UpTo(x: nat): nat -> bool { v => v <= x }

  ghost function Only(x: nat): nat -> bool { v => v == x }

  ghost function With(pool: nat -> bool, x: nat): nat -> bool { (v: nat) => pool(v) || v == x }

  lemma {:induction false} CountBounded(values: seq<int>, pool: nat -> bool)
    ensures CountIn(values, pool) <= |values|
    ensures (forall i :: 0 <= i < |values| ==> pool(Abs(values[i]))) ==> CountIn(values, pool) == |values|
  {
    if values != [] {
      CountBounded(values[..|values| - 1], pool);
    }
  }

  lemma {:induction false} CountUnion(values: seq<int>, pool: nat -> bool, x: nat)
    requires !pool(x)
    ensures CountIn(values, With(pool, x)) == CountIn(values, pool) + CountIn(values, Only(x))
  {
    if values != [] {
      CountUnion(values[..|values| - 1], pool, x);
    }
  }

  /** Pools that agree on the magnitudes there are count the same. */
  lemma {:induction false} CountSame(values: seq<int>, a: nat -> bool, b: nat -> bool)
    requires forall i :: 0 <= i < |values| ==> (a(Abs(values[i])) <==> b(Abs(values[i])))
    ensures CountIn(values, a) == CountIn(values, b)
  {
    if values != [] {
      CountSame(values[..|values| - 1], a, b);
    }
  }

  lemma CountSnoc(values: seq<int>, x: int, pool: nat -> bool)
    ensures CountIn(values + [x], pool) == CountIn(values, pool) + (if pool(Abs(x)) then 1 else 0)
  {
    assert (values + [x])[..|values|] == values;
  }

  /** In rank `k` by magnitude: fewer than `k + 1` values are smaller and more than `k` are no larger. */
  ghost predicate HasRank(values: seq<int>, x: nat, k: nat) {
    CountIn(values, Below(x)) <= k < CountIn(values, UpTo(x))
  }

  ghost predicate SortedMagnitudes(values: seq<int>, s: seq<int>) {
    && multiset(s) == multiset(values)
    && forall i, j :: 0 <= i < j < |s| ==> Abs(s[i]) <= Abs(s[j])
  }

  /** One element taken out, in the multiset and in the count. */
  lemma TakeOut(b: seq<int>, i: nat, pool: nat -> bool)
    requires i < |b|
    ensures multiset(b) == multiset(b[..i] + b[i + 1..]) + multiset{b[i]}
    ensures CountIn(b, pool) == CountIn(b[..i] + b[i + 1..], pool) + (if pool(Abs(b[i])) then 1 else 0)
  {
    hide CountIn;
    assert b == b[..i] + [b[i]] + b[i + 1..];
    CountAppend(b[..i] + [b[i]], b[i + 1..], pool);
    CountAppend(b[..i], b[i + 1..], pool);
    CountSnoc(b[..i], b[i], pool);
  }

  lemma SameRest(a: seq<int>, b: seq<int>, a': seq<int>, b': seq<int>, x: int)
    requires multiset(a) == multiset(b)
    requires multiset(a) == multiset(a') + multiset{x} && multiset(b) == multiset(b') + multiset{x}
    ensures multiset(a') == multiset(b')
  {
    assert multiset(a') == multiset(a) - multiset{x} && multiset(b') == multiset(b) - multiset{x};
  }

  lemma {:induction false} CountPermuted(a: seq<int>, b: seq<int>, pool: nat -> bool)
    requires multiset(a) == multiset(b)
    ensures CountIn(a, pool) == CountIn(b, pool)
  {
    hide CountIn;
    if a != [] {
      var x := a[|a| - 1];
      assert x in multiset(b);
      var i :| 0 <= i < |b| && b[i] == x;
      var front, rest := a[..|a| - 1] + a[|a|..], b[..i] + b[i + 1..];
      TakeOut(a, |a| - 1, pool);
      TakeOut(b, i, pool);
      SameRest(a, b, front, rest, x);
      CountPermuted(front, rest, pool);
    } else {
      assert |b| == |multiset(b)| == 0;
    }
  }

  lemma {:induction false} CountAppend(a: seq<int>, b: seq<int>, pool: nat -> bool)
    ensures CountIn(a + b, pool) == CountIn(a, pool) + CountIn(b, pool)
  {
    if b == [] {
      assert a + b == a;
    } else {
      CountAppend(a, b[..|b| - 1], pool);
      assert (a + b)[..|a + b| - 1] == a + b[..|b| - 1];
    }
  }

  /** In a sorted list the values below an element come before it, and those up to it reach at least to it. */
  lemma {:induction false} SortedCount(s: seq<int>, k: nat)
    requires k < |s| && forall i, j :: 0 <= i < j < |s| ==> Abs(s[i]) <= Abs(s[j])
    ensures HasRank(s, Abs(s[k]), k)
  {
    var x := Abs(s[k]);
    BelowComesFirst(s, k);
    UpToReaches(s, k);
    hide CountIn;
  }

  lemma BelowComesFirst(s: seq<int>, k: nat)
    requires k < |s| && forall i, j :: 0 <= i < j < |s| ==> Abs(s[i]) <= Abs(s[j])
    ensures CountIn(s, Below(Abs(s[k]))) <= k
  {
    hide CountIn;
    assert s == s[..k] + s[k..];
    CountAppend(s[..k], s[k..], Below(Abs(s[k])));
    CountBounded(s[..k], Below(Abs(s[k])));
    CountNone(s[k..], Below(Abs(s[k])));
  }

  lemma UpToReaches(s: seq<int>, k: nat)
    requires k < |s| && forall i, j :: 0 <= i < j < |s| ==> Abs(s[i]) <= Abs(s[j])
    ensures CountIn(s, UpTo(Abs(s[k]))) > k
  {
    hide CountIn;
    assert s == s[..k + 1] + s[k + 1..];
    CountAppend(s[..k + 1], s[k + 1..], UpTo(Abs(s[k])));
    CountBounded(s[..k + 1], UpTo(Abs(s[k])));
  }

  lemma {:induction false} CountNone(values: seq<int>, pool: nat -> bool)
    requires forall i :: 0 <= i < |values| ==> !pool(Abs(values[i]))
    ensures CountIn(values, pool) == 0
  {
    if values != [] {
      CountNone(values[..|values| - 1], pool);
    }
  }

  lemma {:induction false} CountMonotone(values: seq<int>, a: nat -> bool, b: nat -> bool)
    requires forall v :: a(v) ==> b(v)
    ensures CountIn(values, a) <= CountIn(values, b)
  {
    if values != [] {
      CountMonotone(values[..|values| - 1], a, b);
    }
  }

  /** Only one magnitude has a given rank, and it is the one at that index of the sorted list. */
  lemma RankIsSortedElement(values: seq<int>, s: seq<int>, x: nat, k: nat)
    requires SortedMagnitudes(values, s) && HasRank(values, x, k) && k < |s|
    ensures Abs(s[k]) == x
  {
    SortedCount(s, k);
    var y := Abs(s[k]);
    CountPermuted(s, values, Below(y));
    CountPermuted(s, values, UpTo(y));
    if x < y {
      CountMonotone(values, UpTo(x), Below(y));
    } else if y < x {
      CountMonotone(values, UpTo(y), Below(x));
    }
  }

  /** `int((count - 1) * fraction)`, with exact arithmetic. */
  function Target(count: nat, fraction: real): (k: nat)
    requires count > 0 && 0.0 <= fraction <= 1.0
    ensures k < count
  {
    var product := (count - 1) as real * fraction;
    assert 0.0 <= product <= (count - 1) as real by { Scaled((count - 1) as real, fraction); }
    product.Floor
  }

  lemma TargetMeaning(count: nat, fraction: real)
    requires count > 0 && 0.0 <= fraction <= 1.0
    ensures var k := Target(count, fraction);
            k as real <= (count - 1) as real * fraction < k as real + 1.0
  {
  }

  lemma Scaled(n: real, fraction: real)
    requires n >= 0.0 && 0.0 <= fraction <= 1.0
    ensures 0.0 <= n * fraction <= n
  {
  }

  /** Taking the smallest magnitude that is left: what was taken is what is below it. */
  lemma SmallestIsNext(values: seq<int>, keys: set<nat>, seen: nat -> bool, todo: set<nat>, value: nat)
    requires value in todo && todo <= keys && forall y :: y in todo ==> value <= y
    requires forall i :: 0 <= i < |values| ==> Abs(values[i]) in keys
    requires forall x :: x in keys ==> (seen(x) <==> x !in todo)
    requires forall x: nat, y :: seen(x) && y in todo ==> x < y
    ensures CountIn(values, With(seen, value)) == CountIn(values, seen) + CountIn(values, Only(value))
    ensures CountIn(values, seen) == CountIn(values, Below(value))
    ensures CountIn(values, With(seen, value)) == CountIn(values, UpTo(value))
  {
    hide CountIn;
    CountUnion(values, seen, value);
    CountSame(values, seen, Below(value));
    CountSame(values, With(seen, value), UpTo(value));
  }

  class RevisionDistribution {
    var histogram: map<nat, nat>
    var count: nat
    ghost var values: seq<int>

    ghost predicate Valid()
      reads this
    {
      && count == |values|
      && (forall i :: 0 <= i < |values| ==> Abs(values[i]) in histogram)
      && (forall x :: x in histogram ==> histogram[x] == CountIn(values, Only(x)))
    }

    constructor ()
      ensures Valid() && values == []
    {
      histogram, count, values := map[], 0, [];
    }

    method Add(value: int)
      requires Valid()
      modifies this
      ensures Valid() && values == old(values) + [value]
    {
      var x := Abs(value);
      if x !in histogram {
        CountNone(values, Only(x));
      }
      forall y: nat
        ensures CountIn(values + [value], Only(y)) == CountIn(values, Only(y)) + (if x == y then 1 else 0)
      {
        CountSnoc(values, value, Only(y));
      }
      histogram := histogram[x := (if x in histogram then histogram[x] else 0) + 1];
      count := count + 1;
      values := values + [value];
    }

    method Smallest(keys: set<nat>) returns (x: nat)
      requires keys != {}
      ensures x in keys && forall y :: y in keys ==> x <= y
    {
      x :| x in keys;
      var rest := keys - {x};
      while rest != {}
        invariant rest < keys && x in keys && x !in rest
        invariant forall y :: y in keys && y !in rest ==> x <= y
        decreases rest
      {
        var y :| y in rest;
        rest := rest - {y};
        if y < x {
          x := y;
        }
      }
    }

    /** The value the scan returns has the target's rank; the scan never runs out of values. */
    method Quantile(fraction: real) returns (result: Option<nat>)
      requires Valid() && 0.0 <= fraction <= 1.0
      ensures result.None? <==> values == []
      ensures values != [] ==> HasRank(values, result.value, Target(|values|, fraction))
    {
      if count == 0 {
        return None;
      }
      var target := Target(count, fraction);
      hide Target, CountIn;
      var value := Scan(target);
      result := Some(value);
    }

    method Scan(target: nat) returns (value: nat)
      requires Valid() && target < count
      ensures HasRank(values, value, target)
    {
      hide CountIn;
      var cumulative := 0;
      var todo := histogram.Keys;
      ghost var seen: nat -> bool := v => false;
      CountNone(values, seen);
      while todo != {}
        invariant todo <= histogram.Keys
        invariant forall x :: x in histogram ==> (seen(x) <==> x !in todo)
        invariant forall x: nat, y :: seen(x) && y in todo ==> x < y
        invariant cumulative == CountIn(values, seen) <= target
        decreases todo
      {
        value := Smallest(todo);
        SmallestIsNext(values, histogram.Keys, seen, todo, value);
        cumulative := cumulative + histogram[value];
        if cumulative > target {
          return;
        }
        todo, seen := todo - {value}, With(seen, value);
      }
      CountBounded(values, seen);
      assert false;
    }
  }

  lemma ElementAt(s: seq<int>, fraction: real)
    requires s != [] && 0.0 <= fraction <= 1.0
    ensures exists k: nat :: k < |s| && k as real <= (|s| - 1) as real * fraction < k as real + 1.0
                             && Abs(s[Target(|s|, fraction)]) == if s[k] < 0 then -s[k] else s[k]
  {
    TargetMeaning(|s|, fraction);
    var k := Target(|s|, fraction);
    assert Abs(s[k]) == if s[k] < 0 then -s[k] else s[k];
  }

  /** The quantile is the magnitude at index floor((n - 1) * fraction) of the sorted magnitudes. */
  method SortedQuantile(values: seq<int>, fraction: real, s: seq<int>) returns (result: Option<nat>)
    requires 0.0 <= fraction <= 1.0 && SortedMagnitudes(values, s)
    ensures result == if values == [] then None else Some(Abs(s[Target(|s|, fraction)]))
    ensures values != [] ==>
              exists k: nat :: k < |s| && k as real <= (|s| - 1) as real * fraction < k as real + 1.0
                               && result == Some(if s[k] < 0 then -s[k] else s[k])
  {
    var d := new RevisionDistribution();
    for i := 0 to |values|
      invariant d.Valid() && d.values == values[..i] && fresh(d)
    {
      d.Add(values[i]);
      assert values[..i + 1] == values[..i] + [values[i]];
    }
    assert values[..|values|] == values;
    result := d.Quantile(fraction);
    assert |s| == |multiset(s)| == |multiset(values)| == |values|;
    if values != [] {
      RankIsSortedElement(values, s, result.value, Target(|values|, fraction));
      ElementAt(s, fraction);
    }
  }
}
