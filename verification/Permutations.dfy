/**
 The two in-place permutation engines: `next_permutation` of algos/timetravel.c and
 `nextPerm` of algos/x11evo.c, each proved to step to the arrangement of the next rank.
 */
module Permutations {
  import opened Ranking

  /** One more, modulo n!. */
  function NextRank(r: nat, n: nat): nat {
    if r + 1 == Factorial(n) then 0 else r + 1
  }

  /** t is the arrangement of s's values whose rank follows s's, wrapping at the last one. */
  predicate IsSuccessor(s: seq<int>, t: seq<int>) {
    SameValues(s, t) && Distinct(t) && Rank(t) == NextRank(Rank(s), |s|)
  }

  predicate NonIncreasing(s: seq<int>) {
    forall i, j :: 0 <= i < j < |s| ==> s[i] >= s[j]
  }

  predicate IsReverse(s: seq<int>, t: seq<int>) {
    |s| == |t| && forall i :: 0 <= i < |s| ==> t[i] == s[|s| - 1 - i]
  }

  // ----- what "successor" means in the lexicographic order -----

  /** A successor is unique, so any two correct engines compute the same function. */
  lemma SuccessorUnique(s: seq<int>, t: seq<int>, u: seq<int>)
    requires Distinct(s) && IsSuccessor(s, t) && IsSuccessor(s, u)
    ensures t == u
  {
    RankIsLexOrder(t, u);
  }

  /** A successor that does not wrap is the immediate one: nothing lies strictly between. */
  lemma SuccessorImmediate(s: seq<int>, t: seq<int>, c: seq<int>)
    requires Distinct(s) && IsSuccessor(s, t) && Rank(s) + 1 < Factorial(|s|)
    requires Distinct(c) && SameValues(s, c)
    ensures LexLess(s, t)
    ensures !(LexLess(s, c) && LexLess(c, t))
  {
    assert Rank(t) == Rank(s) + 1;
    RankIsLexOrder(s, t);
    RankIsLexOrder(s, c);
    RankIsLexOrder(c, t);
  }

  // ----- the two ways an arrangement advances -----

  lemma ReverseElems(s: seq<int>, t: seq<int>)
    requires IsReverse(s, t)
    ensures Elems(s) == Elems(t)
  {
    forall e
      ensures e in Elems(s) <==> e in Elems(t)
    {
      if e in Elems(s) {
        var i :| 0 <= i < |s| && s[i] == e;
        assert t[|s| - 1 - i] == e;
      }
    }
  }

  lemma WrapSuccessor(s: seq<int>, t: seq<int>)
    requires NonIncreasing(s) && IsReverse(s, t)
    ensures Distinct(s) ==> IsSuccessor(s, t) && Rank(s) + 1 == Factorial(|s|)
  {
    if Distinct(s) {
      assert Descending(s);
      RankDescending(s);
      assert Ascending(t);
      RankAscending(t);
      ReverseElems(s, t);
    }
  }

  /** The suffix [x] + d, d descending, k the last place of d above x: swap and reverse. */
  lemma SuffixSuccessor(x: int, d: seq<int>, k: nat, r: seq<int>)
    requires Distinct([x] + d) && NonIncreasing(d) && k < |d| && x < d[k]
    requires forall m :: k < m < |d| ==> d[m] <= x
    requires IsReverse(d[k := x], r)
    ensures Elems([d[k]] + r) == Elems([x] + d)
    ensures Distinct([d[k]] + r)
    ensures Rank([d[k]] + r) == Rank([x] + d) + 1
  {
    HeadDistinct(x, d);
    PivotTail(x, d, k, r);
    PivotElems(x, d, k, r);
    PivotDistinct(x, d, k, r);
    PivotRank(x, d, k, r);
  }

  lemma PivotRank(x: int, d: seq<int>, k: nat, r: seq<int>)
    requires Distinct([x] + d) && Distinct(d) && NonIncreasing(d) && k < |d| && x < d[k] && Ascending(r) && |r| == |d|
    requires forall m :: k < m < |d| ==> d[m] <= x
    requires Elems([d[k]] + r) == Elems([x] + d)
    ensures Rank([d[k]] + r) == Rank([x] + d) + 1
  {
    assert Descending(d);
    RankDescending(d);
    RankAscending(r);
    RankHead(x, d);
    RankHead(d[k], r);
    PivotBelow(x, d, k);
    LastDigit(|Below(Elems([x] + d), d[k])|, Factorial(|d|));
  }

  lemma HeadDistinct(x: int, d: seq<int>)
    requires Distinct([x] + d)
    ensures Distinct(d) && x !in d
  {
    var s := [x] + d;
    forall m | 0 <= m < |d|
      ensures d[m] != x
    {
      assert s[0] != s[m + 1];
    }
    forall i, j | 0 <= i < j < |d|
      ensures d[i] != d[j]
    {
      assert s[i + 1] != s[j + 1];
    }
  }

  lemma PivotTail(x: int, d: seq<int>, k: nat, r: seq<int>)
    requires Distinct([x] + d) && NonIncreasing(d) && k < |d| && x < d[k]
    requires forall m :: k < m < |d| ==> d[m] <= x
    requires IsReverse(d[k := x], r)
    ensures Ascending(r)
  {
    HeadDistinct(x, d);
    var e := d[k := x];
    assert forall i, j :: 0 <= i < j < |e| ==> e[i] > e[j];
  }

  lemma PivotElems(x: int, d: seq<int>, k: nat, r: seq<int>)
    requires k < |d| && IsReverse(d[k := x], r)
    ensures Elems([d[k]] + r) == Elems([x] + d)
  {
    var e := d[k := x];
    ReverseElems(e, r);
    assert Elems([d[k]] + r) == {d[k]} + Elems(e);
    assert Elems([x] + d) == {x} + Elems(d);
    assert e[k] == x;
    forall v
      ensures v in {d[k]} + Elems(e) <==> v in {x} + Elems(d)
    {
      if v in Elems(d) && v != d[k] {
        var i :| 0 <= i < |d| && d[i] == v;
        assert e[i] == v;
      }
    }
  }

  lemma PivotDistinct(x: int, d: seq<int>, k: nat, r: seq<int>)
    requires Distinct([x] + d) && k < |d| && IsReverse(d[k := x], r) && Ascending(r)
    ensures Distinct([d[k]] + r)
  {
    HeadDistinct(x, d);
    var e := d[k := x];
    assert forall m :: 0 <= m < |e| ==> e[m] != d[k];
  }

  lemma PivotBelow(x: int, d: seq<int>, k: nat)
    requires NonIncreasing(d) && k < |d| && x < d[k]
    requires forall m :: k < m < |d| ==> d[m] <= x
    ensures |Below(Elems([x] + d), d[k])| == |Below(Elems([x] + d), x)| + 1
  {
    var S := Elems([x] + d);
    assert ([x] + d)[0] == x;
    forall v | v in S && x < v
      ensures v >= d[k]
    {
      var i :| 0 <= i < |[x] + d| && ([x] + d)[i] == v;
      assert d[i - 1] == v;
    }
    assert Below(S, d[k]) == Below(S, x) + {x};
  }

  lemma SuffixDistinct(s: seq<int>, i: nat)
    requires Distinct(s) && i <= |s|
    ensures Distinct(s[i..])
  {
  }

  lemma PivotSuffix(s: seq<int>, i: nat, k: nat, t: seq<int>)
    requires Distinct(s) && i < k < |s| && NonIncreasing(s[i + 1..]) && s[i] < s[k]
    requires forall m :: k < m < |s| ==> s[m] <= s[i]
    requires |t| == |s| && t[i] == s[k]
    requires IsReverse(s[i + 1..][k - i - 1 := s[i]], t[i + 1..])
    ensures Distinct(t[i..]) && SameValues(s[i..], t[i..]) && Rank(t[i..]) == Rank(s[i..]) + 1
  {
    var x, d, r, j := s[i], s[i + 1..], t[i + 1..], k - i - 1;
    HeadAndTail(s, i);
    HeadAndTail(t, i);
    SuffixDistinct(s, i);
    forall m | j < m < |d|
      ensures d[m] <= x
    {
      assert d[m] == s[i + 1 + m];
    }
    SuffixSuccessor(x, d, j, r);
  }

  lemma HeadAndTail(s: seq<int>, i: nat)
    requires i < |s|
    ensures s[i..] == [s[i]] + s[i + 1..]
  {
  }

  /** One step at pivot i and partner k, stated on whole arrangements. */
  lemma PivotSuccessor(s: seq<int>, i: nat, k: nat, t: seq<int>)
    requires Distinct(s) && i < k < |s| && NonIncreasing(s[i + 1..]) && s[i] < s[k]
    requires forall m :: k < m < |s| ==> s[m] <= s[i]
    requires |t| == |s| && t[..i] == s[..i] && t[i] == s[k]
    requires IsReverse(s[i + 1..][k - i - 1 := s[i]], t[i + 1..])
    ensures IsSuccessor(s, t) && Rank(s) + 1 < Factorial(|s|)
  {
    PivotSuffix(s, i, k, t);
    var p, a, b := s[..i], s[i..], t[i..];
    assert p + a == s && p + b == t;
    PrefixSuccessor(p, a, b);
  }

  /** Advancing a suffix by one rank, without wrapping it, advances the whole arrangement by one. */
  lemma PrefixSuccessor(p: seq<int>, a: seq<int>, b: seq<int>)
    requires Distinct(p + a) && Distinct(b) && SameValues(a, b) && Rank(b) == Rank(a) + 1
    ensures IsSuccessor(p + a, p + b) && Rank(p + a) + 1 < Factorial(|p + a|)
  {
    RankPrefix(p, a, b);
    RankBound(p + b);
    assert Elems(p + a) == Elems(p) + Elems(a) && Elems(p + b) == Elems(p) + Elems(b);
    ConcatDistinct(p, a, b);
  }

  predicate Swapped(s: seq<int>, i: nat, k: nat, u: seq<int>) {
    i < |s| && k < |s| && |u| == |s| && u[i] == s[k] && u[k] == s[i] &&
    forall m :: 0 <= m < |s| && m != i && m != k ==> u[m] == s[m]
  }

  /** The same step as the engines perform it: u is s with i and k swapped, t reverses u after i. */
  lemma SwapReversed(s: seq<int>, i: nat, k: nat, u: seq<int>, t: seq<int>)
    requires i < k < |s| && NonIncreasing(s[i + 1..]) && s[i] < s[k]
    requires forall m :: k < m < |s| ==> s[m] <= s[i]
    requires Swapped(s, i, k, u)
    requires |t| == |s| && forall m :: 0 <= m <= i ==> t[m] == u[m]
    requires forall m :: i < m < |s| ==> t[m] == u[|s| + i - m]
    ensures Distinct(s) ==> IsSuccessor(s, t) && Rank(s) + 1 < Factorial(|s|)
  {
    if Distinct(s) {
      assert t[..i] == s[..i];
      assert IsReverse(s[i + 1..][k - i - 1 := s[i]], t[i + 1..]);
      PivotSuccessor(s, i, k, t);
    }
  }

  lemma ConcatDistinct(p: seq<int>, a: seq<int>, b: seq<int>)
    requires Distinct(p + a) && Distinct(b) && Elems(a) == Elems(b)
    ensures Distinct(p + b)
  {
    forall i, j | 0 <= i < j < |p + b|
      ensures (p + b)[i] != (p + b)[j]
    {
      if j < |p| {
        assert (p + a)[i] == p[i] && (p + a)[j] == p[j];
      } else if i < |p| {
        assert b[j - |p|] in Elems(a);
        var m :| 0 <= m < |a| && a[m] == b[j - |p|];
        assert (p + a)[i] == p[i] && (p + a)[|p| + m] == a[m];
      }
    }
  }

  // ----- algos/timetravel.c -----

  method Swap(p: array<int>, i: nat, j: nat)
    requires i < p.Length && j < p.Length
    modifies p
    ensures Swapped(old(p[..]), i, j, p[..])
    ensures multiset(p[..]) == old(multiset(p[..]))
  {
    var c := p[i];
    p[i] := p[j];
    p[j] := c;
  }

  /** `reverse(pbegin, pend)`: pointers walk inwards until they meet. */
  method Reverse(p: array<int>, begin: nat, end: nat)
    requires begin <= end <= p.Length
    modifies p
    ensures forall k :: begin <= k < end ==> p[k] == old(p[begin + end - 1 - k])
    ensures forall k :: 0 <= k < begin || end <= k < p.Length ==> p[k] == old(p[k])
    ensures multiset(p[..]) == old(multiset(p[..]))
  {
    var pbegin, pend := begin, end;
    while pbegin != pend && pbegin != pend - 1
      invariant begin <= pbegin <= pend <= end && pbegin - begin == end - pend
      invariant forall k :: begin <= k < pbegin || pend <= k < end ==> p[k] == old(p[begin + end - 1 - k])
      invariant forall k :: 0 <= k < begin || pbegin <= k < pend || end <= k < p.Length ==> p[k] == old(p[k])
      invariant multiset(p[..]) == old(multiset(p[..]))
    {
      pend := pend - 1;
      Swap(p, pbegin, pend);
      pbegin := pbegin + 1;
    }
  }

  /** The branch of `next_permutation` that found an ascent at i: swap with the partner, reverse the rest. */
  method AdvanceAt(p: array<int>, i: nat)
    requires i + 1 < p.Length && p[i] < p[i + 1] && NonIncreasing(p[..][i + 1..])
    modifies p
    ensures multiset(p[..]) == old(multiset(p[..]))
    ensures Distinct(old(p[..])) ==> IsSuccessor(old(p[..]), p[..])
  {
    ghost var s := p[..];
    var k := p.Length - 1;
    while !(p[i] < p[k])
      invariant i < k < p.Length
      invariant forall m :: k < m < p.Length ==> s[m] <= s[i]
      decreases k
    {
      k := k - 1;
    }
    Swap(p, i, k);
    ghost var u := p[..];
    Reverse(p, i + 1, p.Length);
    SwapReversed(s, i, k, u, p[..]);
  }

  /** `next_permutation`: scan for the last ascent; without one, wrap to the first arrangement. */
  method NextPermutation(p: array<int>)
    modifies p
    ensures multiset(p[..]) == old(multiset(p[..]))
    ensures Distinct(old(p[..])) ==> IsSuccessor(old(p[..]), p[..])
  {
    if p.Length == 0 {
      return;
    }
    if p.Length == 1 {
      return;
    }
    ghost var s := p[..];
    var i := p.Length - 1;
    while true
      invariant 1 <= i < p.Length
      invariant p[..] == s
      invariant NonIncreasing(s[i..])
      decreases i
    {
      var j := i;
      i := i - 1;
      if p[i] < p[j] {
        AdvanceAt(p, i);
        return;
      }
      if i == 0 {
        assert NonIncreasing(s);
        Reverse(p, 0, p.Length);
        WrapSuccessor(s, p[..]);
        return;
      }
    }
  }
}
