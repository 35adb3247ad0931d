/** Sums and counts over sequences, and that they depend only on the multiset of elements. */
module Sums {

  function SumBy<X>(f: X -> int, s: seq<X>): (sum: int) {
    if s == [] then 0 else SumBy(f, s[..|s| - 1]) + f(s[|s| - 1])
  }

  function CountBy<X>(p: X -> bool, s: seq<X>): (count: nat)
    ensures count <= |s|
  {
    if s == [] then 0 else CountBy(p, s[..|s| - 1]) + if p(s[|s| - 1]) then 1 else 0
  }

  function Indicator<X>(p: X -> bool): (f: X -> int) {
    x => if p(x) then 1 else 0
  }

  lemma {:induction false} SumConcat<X>(f: X -> int, a: seq<X>, b: seq<X>)
    ensures SumBy(f, a + b) == SumBy(f, a) + SumBy(f, b)
    decreases |b|
  {
    if b == [] {
      assert a + b == a;
    } else {
      var n := |b| - 1;
      SumConcat(f, a, b[..n]);
      assert (a + b)[..|a + b| - 1] == a + b[..n];
    }
  }

  lemma {:induction false} CountIsSum<X>(p: X -> bool, s: seq<X>)
    ensures CountBy(p, s) == SumBy(Indicator(p), s)
  {
    if s != [] {
      CountIsSum(p, s[..|s| - 1]);
    }
  }

  function WithoutAt<X>(s: seq<X>, k: nat): (r: seq<X>)
    requires k < |s|
  {
    s[..k] + s[k + 1..]
  }

  lemma {:induction false} WithoutAtMultiset<X>(s: seq<X>, k: nat)
    requires k < |s|
    ensures multiset(WithoutAt(s, k)) == multiset(s) - multiset{s[k]}
  {
    assert s == s[..k] + [s[k]] + s[k + 1..];
  }

  lemma {:induction false} SumMiddle<X>(f: X -> int, a: seq<X>, x: X, b: seq<X>)
    ensures SumBy(f, a + [x] + b) == SumBy(f, a + b) + f(x)
  {
    SumConcat(f, a + [x], b);
    SumConcat(f, a, b);
  }

  lemma {:induction false} SumWithoutAt<X>(f: X -> int, s: seq<X>, k: nat)
    requires k < |s|
    ensures SumBy(f, s) == SumBy(f, WithoutAt(s, k)) + f(s[k])
  {
    var a, x, b := s[..k], s[k], s[k + 1..];
    SumMiddle(f, a, x, b);
    assert s == a + [x] + b;
  }

  /** A sum does not depend on the order of the terms. */
  lemma {:induction false} SumPermutation<X>(f: X -> int, a: seq<X>, b: seq<X>)
    requires multiset(a) == multiset(b)
    ensures SumBy(f, a) == SumBy(f, b)
    decreases |a|
  {
    if a == [] {
      assert |b| == |multiset(b)| == |multiset(a)| == 0;
    } else {
      var n := |a| - 1;
      assert a[n] in multiset(b);
      var k :| 0 <= k < |b| && b[k] == a[n];
      WithoutAtMultiset(a, n);
      WithoutAtMultiset(b, k);
      SumPermutation(f, WithoutAt(a, n), WithoutAt(b, k));
      SumWithoutAt(f, a, n);
      SumWithoutAt(f, b, k);
    }
  }

  lemma {:induction false} CountPermutation<X>(p: X -> bool, a: seq<X>, b: seq<X>)
    requires multiset(a) == multiset(b)
    ensures CountBy(p, a) == CountBy(p, b)
  {
    CountIsSum(p, a);
    CountIsSum(p, b);
    SumPermutation(Indicator(p), a, b);
  }

  /** If every element satisfies exactly one of `q` and `r` when it satisfies `p`, and none otherwise. */
  lemma {:induction false} CountSplit<X>(p: X -> bool, q: X -> bool, r: X -> bool, s: seq<X>)
    requires forall x :: x in s ==> (p(x) <==> q(x) || r(x)) && !(q(x) && r(x))
    ensures CountBy(p, s) == CountBy(q, s) + CountBy(r, s)
  {
    if s != [] {
      CountSplit(p, q, r, s[..|s| - 1]);
      assert s[|s| - 1] in s;
    }
  }

  lemma {:induction false} CountMonotone<X>(p: X -> bool, q: X -> bool, s: seq<X>)
    requires forall x :: x in s && p(x) ==> q(x)
    ensures CountBy(p, s) <= CountBy(q, s)
  {
    if s != [] {
      CountMonotone(p, q, s[..|s| - 1]);
      assert s[|s| - 1] in s;
    }
  }

  lemma {:induction false} CountSame<X>(p: X -> bool, q: X -> bool, s: seq<X>)
    requires forall x :: x in s ==> p(x) == q(x)
    ensures CountBy(p, s) == CountBy(q, s)
  {
    CountMonotone(p, q, s);
    CountMonotone(q, p, s);
  }

  lemma {:induction false} CountAtLeast<X>(p: X -> bool, s: seq<X>, k: nat)
    requires k <= |s| && forall i :: 0 <= i < k ==> p(s[i])
    ensures CountBy(p, s) >= k
  {
    if k > 0 {
      CountAtLeast(p, s[..|s| - 1], if k == |s| then k - 1 else k);
    }
  }

  lemma {:induction false} CountAtMost<X>(p: X -> bool, s: seq<X>, k: nat)
    requires k <= |s| && forall i :: k <= i < |s| ==> !p(s[i])
    ensures CountBy(p, s) <= k
  {
    if k < |s| {
      CountAtMost(p, s[..|s| - 1], k);
    }
  }

  lemma {:induction false} CountNone<X>(p: X -> bool, s: seq<X>)
    requires forall x :: x in s ==> !p(x)
    ensures CountBy(p, s) == 0
  {
    if s != [] {
      CountNone(p, s[..|s| - 1]);
      assert s[|s| - 1] in s;
    }
  }

  ghost predicate Ascending(s: seq<int>) {
    forall i, j :: 0 <= i < j < |s| ==> s[i] <= s[j]
  }

  ghost predicate DownwardClosed(p: int -> bool) {
    forall v, w :: v <= w && p(w) ==> p(v)
  }

  /** In an ascending sequence, at least k elements pass a downward-closed test iff the k-th does. */
  lemma {:induction false} RankByCount(p: int -> bool, s: seq<int>, k: nat)
    requires Ascending(s) && DownwardClosed(p)
    requires 1 <= k <= |s|
    ensures CountBy(p, s) >= k <==> p(s[k - 1])
  {
    if p(s[k - 1]) {
      forall i | 0 <= i < k ensures p(s[i]) {
        assert s[i] <= s[k - 1];
      }
      CountAtLeast(p, s, k);
    } else {
      forall i | k - 1 <= i < |s| ensures !p(s[i]) {
        assert s[k - 1] <= s[i];
      }
      CountAtMost(p, s, k - 1);
    }
  }
}
