/**
 Byte-wise ordering of strings and the two list operations the finder applies to its
 accumulated identifiers: PHP's `array_unique` and `sort`. Identifiers always contain
 `::`, so they are never numeric strings and PHP compares them as `strcmp` does.
 */
module StringOrder {

  /** `a` sorts strictly before `b`: a proper prefix, or smaller at the first difference. */
  predicate Less(a: string, b: string)
    decreases |a|
  {
    if |a| == 0 then 0 < |b|
    else if |b| == 0 then false
    else if a[0] != b[0] then a[0] < b[0]
    else Less(a[1..], b[1..])
  }

  predicate LessEq(a: string, b: string) {
    a == b || Less(a, b)
  }

  lemma {:induction false} LessIrreflexive(a: string)
    ensures !Less(a, a)
    decreases |a|
  {
    if 0 < |a| {
      LessIrreflexive(a[1..]);
    }
  }

  lemma {:induction false} LessTransitive(a: string, b: string, c: string)
    requires Less(a, b) && Less(b, c)
    ensures Less(a, c)
    decreases |a|
  {
    if 0 < |a| && a[0] == b[0] && b[0] == c[0] {
      LessTransitive(a[1..], b[1..], c[1..]);
    }
  }

  /** Any two different strings are ordered one way or the other. */
  lemma {:induction false} LessTotal(a: string, b: string)
    requires a != b
    ensures Less(a, b) || Less(b, a)
    decreases |a|
  {
    if 0 < |a| && 0 < |b| && a[0] == b[0] {
      assert a == [a[0]] + a[1..] && b == [b[0]] + b[1..];
      LessTotal(a[1..], b[1..]);
    }
  }

  lemma {:induction false} LessAsymmetric(a: string, b: string)
    requires Less(a, b)
    ensures !Less(b, a)
  {
    if Less(b, a) {
      LessTransitive(a, b, a);
      LessIrreflexive(a);
    }
  }

  /** Strings agreeing up to `k` and smaller at `k` sort first. */
  lemma {:induction false} LessAtFirstDifference(a: string, b: string, k: nat)
    requires k < |a| && k < |b| && a[..k] == b[..k] && a[k] < b[k]
    ensures Less(a, b)
    decreases k
  {
    if 0 < k {
      assert a[0] == a[..k][0] == b[..k][0] == b[0];
      assert a[1..][..k - 1] == a[..k][1..] && b[1..][..k - 1] == b[..k][1..];
      LessAtFirstDifference(a[1..], b[1..], k - 1);
    }
  }

  predicate Sorted(xs: seq<string>) {
    forall i, j | 0 <= i < j < |xs| :: LessEq(xs[i], xs[j])
  }

  predicate StrictlyAscending(xs: seq<string>) {
    forall i, j | 0 <= i < j < |xs| :: Less(xs[i], xs[j])
  }

  predicate Distinct(xs: seq<string>) {
    forall i, j | 0 <= i < j < |xs| :: xs[i] != xs[j]
  }

  /** PHP's `array_unique` followed by `array_values`: the first occurrence of each value, in order. */
  function Unique(xs: seq<string>): (r: seq<string>)
    ensures Distinct(r)
    ensures forall x :: x in r <==> x in xs
    ensures |r| <= |xs|
    decreases |xs|
  {
    if |xs| == 0 then []
    else
      var u := Unique(xs[..|xs| - 1]);
      var x := xs[|xs| - 1];
      assert forall y :: y in xs <==> y in xs[..|xs| - 1] || y == x by {
        assert xs == xs[..|xs| - 1] + [x];
      }
      if x in u then u else u + [x]
  }

  /** Every element of a sorted list that is not `x`'s successor sorts before `x`. */
  lemma {:induction false} BelowAll(y: string, s: seq<string>)
    requires Sorted([y] + s)
    ensures forall z :: z in s ==> LessEq(y, z)
  {
    forall z | z in s
      ensures LessEq(y, z)
    {
      var k :| 0 <= k < |s| && s[k] == z;
      assert ([y] + s)[0] == y && ([y] + s)[k + 1] == z;
    }
  }

  /** Insert `x` into a sorted list, in front of the first element not below it. */
  function Insert(x: string, s: seq<string>): (r: seq<string>)
    requires Sorted(s)
    ensures Sorted(r)
    ensures multiset(r) == multiset(s) + multiset{x}
    decreases |s|
  {
    if |s| == 0 then [x]
    else if LessEq(x, s[0]) then
      forall z | z in s
        ensures LessEq(x, z)
      {
        var k :| 0 <= k < |s| && s[k] == z;
        if 0 < k && x != s[0] && s[0] != z {
          LessTransitive(x, s[0], z);
        }
      }
      SortedCons(x, s);
      [x] + s
    else
      LessTotal(x, s[0]);
      var rest := Insert(x, s[1..]);
      assert s == [s[0]] + s[1..];
      BelowAll(s[0], s[1..]);
      forall z | z in rest
        ensures LessEq(s[0], z)
      {
        assert z in multiset(rest);
      }
      SortedCons(s[0], rest);
      assert multiset([s[0]] + rest) == multiset{s[0]} + multiset(rest);
      [s[0]] + rest
  }

  /** A sorted list stays sorted under a new head that sorts before all of it. */
  lemma SortedCons(y: string, s: seq<string>)
    requires Sorted(s) && forall z :: z in s ==> LessEq(y, z)
    ensures Sorted([y] + s)
  {
    var r := [y] + s;
    forall i, j | 0 <= i < j < |r|
      ensures LessEq(r[i], r[j])
    {
      assert r[j] == s[j - 1];
      if 0 < i {
        assert r[i] == s[i - 1];
      }
    }
  }

  /** PHP's `sort` on identifiers: insertion sort under `Less`. */
  function SortStrings(xs: seq<string>): (r: seq<string>)
    ensures Sorted(r)
    ensures multiset(r) == multiset(xs)
    decreases |xs|
  {
    if |xs| == 0 then []
    else
      assert xs == [xs[0]] + xs[1..];
      Insert(xs[0], SortStrings(xs[1..]))
  }

  lemma {:induction false} DistinctAtMostOnce(xs: seq<string>, v: string)
    requires Distinct(xs)
    ensures multiset(xs)[v] <= 1
    decreases |xs|
  {
    if 0 < |xs| {
      var tail := xs[1..];
      assert xs == [xs[0]] + tail;
      assert Distinct(tail) by {
        forall i, j | 0 <= i < j < |tail|
          ensures tail[i] != tail[j]
        {
          assert tail[i] == xs[i + 1] && tail[j] == xs[j + 1];
        }
      }
      DistinctAtMostOnce(tail, v);
      if xs[0] == v {
        assert v !in tail by {
          forall k | 0 <= k < |tail|
            ensures tail[k] != v
          {
            assert tail[k] == xs[k + 1];
          }
        }
      }
    }
  }

  /** A sorted permutation of a duplicate-free list is strictly ascending. */
  lemma {:induction false} SortedDistinctIsStrict(xs: seq<string>, ys: seq<string>)
    requires Distinct(xs) && multiset(ys) == multiset(xs) && Sorted(ys)
    ensures StrictlyAscending(ys)
  {
    forall i, j | 0 <= i < j < |ys|
      ensures Less(ys[i], ys[j])
    {
      if ys[i] == ys[j] {
        var v := ys[i];
        var front, back := ys[..j], ys[j..];
        assert ys == front + back;
        assert front[i] == v && back[0] == v;
        assert multiset(ys)[v] == multiset(front)[v] + multiset(back)[v];
        DistinctAtMostOnce(xs, v);
      }
    }
  }

  /** The head of a strictly ascending list sorts before every other element, which all differ from it. */
  lemma HeadIsLeast(xs: seq<string>)
    requires StrictlyAscending(xs) && 0 < |xs|
    ensures forall t :: t in xs[1..] ==> Less(xs[0], t) && t != xs[0]
  {
    forall t | t in xs[1..]
      ensures Less(xs[0], t) && t != xs[0]
    {
      var k :| 0 <= k < |xs[1..]| && xs[1..][k] == t;
      assert xs[k + 1] == t;
      LessIrreflexive(xs[0]);
    }
  }

  /**
   A strictly ascending list is determined by its elements: two of them holding the same
   strings are equal. So the result of unique-then-sort depends only on the set of inputs.
   */
  lemma {:induction false} AscendingUnique(xs: seq<string>, ys: seq<string>)
    requires StrictlyAscending(xs) && StrictlyAscending(ys)
    requires forall t :: t in xs <==> t in ys
    ensures xs == ys
    decreases |xs|
  {
    if 0 < |xs| {
      assert xs[0] in xs;
    }
    if 0 < |ys| {
      assert ys[0] in ys;
    }
    if 0 < |xs| && 0 < |ys| {
      HeadIsLeast(xs);
      HeadIsLeast(ys);
      assert xs == [xs[0]] + xs[1..] && ys == [ys[0]] + ys[1..];
      if xs[0] != ys[0] {
        assert Less(xs[0], ys[0]) && Less(ys[0], xs[0]);
        LessAsymmetric(xs[0], ys[0]);
        assert false;
      }
      var xt, yt := xs[1..], ys[1..];
      assert StrictlyAscending(xt) by {
        forall i, j | 0 <= i < j < |xt|
          ensures Less(xt[i], xt[j])
        {
          assert xt[i] == xs[i + 1] && xt[j] == xs[j + 1];
        }
      }
      assert StrictlyAscending(yt) by {
        forall i, j | 0 <= i < j < |yt|
          ensures Less(yt[i], yt[j])
        {
          assert yt[i] == ys[i + 1] && yt[j] == ys[j + 1];
        }
      }
      forall t
        ensures t in xt <==> t in yt
      {
        assert t in xs <==> t == xs[0] || t in xt;
        assert t in ys <==> t == ys[0] || t in yt;
      }
      AscendingUnique(xt, yt);
    }
  }

  /** The unique-then-sort step at the end of the finder. */
  function UniqueSorted(xs: seq<string>): (r: seq<string>)
    ensures StrictlyAscending(r)
    ensures forall x :: x in r <==> x in xs
  {
    var u := Unique(xs);
    var r := SortStrings(u);
    SortedDistinctIsStrict(u, r);
    assert forall x :: x in r <==> x in multiset(u);
    r
  }
}
