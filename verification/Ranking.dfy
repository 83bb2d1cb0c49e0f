/**
 The lexicographic rank of an arrangement, as an independent meaning for the
 "next permutation" routines of the pool: the rank counts, digit by digit in the
 factorial number system, how many arrangements of the same values come earlier.
 */
module Ranking {
  import opened Arithmetic

  function Factorial(n: nat): (f: nat)
    ensures f >= 1
  {
    if n == 0 then 1 else n * Factorial(n - 1)
  }

  predicate Distinct(s: seq<int>) {
    forall i, j :: 0 <= i < j < |s| ==> s[i] != s[j]
  }

  function Elems(s: seq<int>): set<int> {
    set e | e in s
  }

  /** The members of S that are smaller than x. */
  function Below(S: set<int>, x: int): set<int> {
    set e | e in S && e < x
  }

  function Rank(s: seq<int>): nat {
    if s == [] then 0
    else |Below(Elems(s), s[0])| * Factorial(|s| - 1) + Rank(s[1..])
  }

  predicate LexLess(a: seq<int>, b: seq<int>) {
    a != [] && b != [] && (a[0] < b[0] || (a[0] == b[0] && LexLess(a[1..], b[1..])))
  }

  /** b arranges the same values as a. */
  predicate SameValues(a: seq<int>, b: seq<int>) {
    |a| == |b| && Elems(a) == Elems(b)
  }

  lemma {:induction false} ElemsSize(s: seq<int>)
    ensures |Elems(s)| <= |s|
    ensures Distinct(s) ==> |Elems(s)| == |s|
  {
    if s != [] {
      ElemsSize(s[1..]);
      assert Elems(s) == Elems(s[1..]) + {s[0]};
      if Distinct(s) {
        assert s[0] !in Elems(s[1..]);
      }
    }
  }

  lemma SubsetSize(a: set<int>, b: set<int>)
    requires a <= b
    ensures |a| <= |b|
    ensures a != b ==> |a| < |b|
  {
    assert b == a + (b - a);
    assert a !! (b - a);
  }

  lemma BelowSize(s: seq<int>)
    requires s != []
    ensures |Below(Elems(s), s[0])| <= |s| - 1
  {
    ElemsSize(s);
    assert s[0] in Elems(s) && s[0] !in Below(Elems(s), s[0]);
    SubsetSize(Below(Elems(s), s[0]), Elems(s));
  }

  lemma RankHead(x: int, d: seq<int>)
    ensures Rank([x] + d) == |Below(Elems([x] + d), x)| * Factorial(|d|) + Rank(d)
  {
  }

  lemma {:induction false} RankBound(s: seq<int>)
    ensures Rank(s) < Factorial(|s|)
  {
    if s != [] {
      RankBound(s[1..]);
      BelowSize(s);
      var c, f := |Below(Elems(s), s[0])|, Factorial(|s| - 1);
      assert c * f <= (|s| - 1) * f by { MulMonotone(c, |s| - 1, f); }
      assert (|s| - 1) * f + f == |s| * f;
    }
  }

  /** Dropping the same head from two arrangements of the same distinct values keeps them so. */
  lemma SameTail(a: seq<int>, b: seq<int>)
    requires a != [] && SameValues(a, b) && Distinct(a) && Distinct(b) && a[0] == b[0]
    ensures SameValues(a[1..], b[1..]) && Distinct(a[1..]) && Distinct(b[1..])
  {
    assert Elems(a[1..]) == Elems(a) - {a[0]} by { TailElems(a); }
    assert Elems(b[1..]) == Elems(b) - {b[0]} by { TailElems(b); }
  }

  lemma TailElems(a: seq<int>)
    requires a != [] && Distinct(a)
    ensures Elems(a[1..]) == Elems(a) - {a[0]}
  {
  }

  lemma {:induction false} LexLessRank(a: seq<int>, b: seq<int>)
    requires SameValues(a, b) && Distinct(a) && Distinct(b) && LexLess(a, b)
    ensures Rank(a) < Rank(b)
  {
    var f := Factorial(|a| - 1);
    var ca, cb := |Below(Elems(a), a[0])|, |Below(Elems(b), b[0])|;
    if a[0] < b[0] {
      assert a[0] in Below(Elems(b), b[0]) && a[0] !in Below(Elems(a), a[0]);
      SubsetSize(Below(Elems(a), a[0]), Below(Elems(b), b[0]));
      RankBound(a[1..]);
      MulMonotone(ca + 1, cb, f);
      assert (ca + 1) * f == ca * f + f;
    } else {
      SameTail(a, b);
      LexLessRank(a[1..], b[1..]);
    }
  }

  lemma {:induction false} LexTotal(a: seq<int>, b: seq<int>)
    requires |a| == |b| && a != b
    ensures LexLess(a, b) || LexLess(b, a)
  {
    if a[0] == b[0] {
      assert a == [a[0]] + a[1..] && b == [b[0]] + b[1..];
      LexTotal(a[1..], b[1..]);
    }
  }

  /** Ranks order arrangements exactly as the lexicographic order does, and identify them. */
  lemma RankIsLexOrder(a: seq<int>, b: seq<int>)
    requires SameValues(a, b) && Distinct(a) && Distinct(b)
    ensures Rank(a) < Rank(b) <==> LexLess(a, b)
    ensures Rank(a) == Rank(b) <==> a == b
  {
    if a != b {
      LexTotal(a, b);
      if LexLess(a, b) {
        LexLessRank(a, b);
      }
      if LexLess(b, a) {
        LexLessRank(b, a);
      }
    } else if LexLess(a, b) {
      LexLessRank(a, b);
    }
  }

  // ----- the reference: the arrangement of a given rank -----

  predicate Ascending(s: seq<int>) {
    forall i, j :: 0 <= i < j < |s| ==> s[i] < s[j]
  }

  predicate Descending(s: seq<int>) {
    forall i, j :: 0 <= i < j < |s| ==> s[i] > s[j]
  }

  /** The arrangement of the ascending values `avail` whose rank is k (factorial number system). */
  function Unrank(avail: seq<int>, k: nat): (s: seq<int>)
    requires k < Factorial(|avail|)
    ensures |s| == |avail|
  {
    if avail == [] then []
    else
      var f := Factorial(|avail| - 1);
      var d := k / f;
      DigitInRange(k, |avail|);
      [avail[d]] + Unrank(avail[..d] + avail[d + 1..], k % f)
  }

  lemma DigitInRange(k: nat, n: nat)
    requires n > 0 && k < Factorial(n)
    ensures 0 <= k / Factorial(n - 1) < n
  {
  }

  lemma RemoveElems(avail: seq<int>, d: nat)
    requires Ascending(avail) && d < |avail|
    ensures var rest := avail[..d] + avail[d + 1..];
            Ascending(rest) && Elems(rest) == Elems(avail) - {avail[d]}
  {
  }

  lemma BelowAscending(avail: seq<int>, d: nat)
    requires Ascending(avail) && d < |avail|
    ensures |Below(Elems(avail), avail[d])| == d
  {
    var low := avail[..d];
    ElemsSize(low);
    forall e
      ensures e in Below(Elems(avail), avail[d]) <==> e in Elems(low)
    {
      if e in Below(Elems(avail), avail[d]) {
        var i :| 0 <= i < |avail| && avail[i] == e;
        assert i < d;
        assert low[i] == e;
      }
    }
    assert Below(Elems(avail), avail[d]) == Elems(low);
  }

  lemma PrependDistinct(x: int, t: seq<int>)
    requires Distinct(t) && x !in Elems(t)
    ensures Distinct([x] + t) && Elems([x] + t) == {x} + Elems(t)
  {
  }

  /** One digit of the number system: the rank of x followed by t, where d of the values are below x. */
  lemma RankCons(avail: seq<int>, d: nat, t: seq<int>)
    requires Ascending(avail) && d < |avail| && Distinct(t)
    requires SameValues(t, avail[..d] + avail[d + 1..])
    ensures var s := [avail[d]] + t;
            Distinct(s) && SameValues(s, avail) && Rank(s) == d * Factorial(|t|) + Rank(t)
  {
    var x := avail[d];
    RemoveElems(avail, d);
    PrependDistinct(x, t);
    BelowAscending(avail, d);
    RankOfCons(x, t, d, Elems(avail));
  }

  lemma RankOfCons(x: int, t: seq<int>, d: nat, S: set<int>)
    requires Elems([x] + t) == S && |Below(S, x)| == d
    ensures Rank([x] + t) == d * Factorial(|t|) + Rank(t)
  {
    assert ([x] + t)[1..] == t;
  }

  /** Unrank is the inverse of Rank: it yields an arrangement of the same values with that rank. */
  lemma {:induction false} UnrankRank(avail: seq<int>, k: nat)
    requires Ascending(avail) && k < Factorial(|avail|)
    ensures Distinct(Unrank(avail, k)) && SameValues(Unrank(avail, k), avail)
    ensures Rank(Unrank(avail, k)) == k
  {
    if avail != [] {
      var f := Factorial(|avail| - 1);
      var d, m := k / f, k % f;
      DigitInRange(k, |avail|);
      var rest := avail[..d] + avail[d + 1..];
      RemoveElems(avail, d);
      UnrankRank(rest, m);
      var t := Unrank(rest, m);
      RankCons(avail, d, t);
      assert Unrank(avail, k) == [avail[d]] + t;
      calc {
        Rank(Unrank(avail, k));
        d * Factorial(|t|) + Rank(t);
        d * f + m;
        { DivModLaw(k, f); }
        k;
      }
    }
  }

  // ----- ranks of the extreme arrangements and of a changed suffix -----

  lemma {:induction false} RankAscending(s: seq<int>)
    requires Ascending(s)
    ensures Rank(s) == 0
  {
    if s != [] {
      RankAscending(s[1..]);
      assert Below(Elems(s), s[0]) == {};
    }
  }

  lemma BelowDescending(s: seq<int>)
    requires s != [] && Descending(s)
    ensures |Below(Elems(s), s[0])| == |s| - 1
  {
    ElemsSize(s[1..]);
    assert Below(Elems(s), s[0]) == Elems(s[1..]);
  }

  lemma {:induction false} RankDescending(s: seq<int>)
    requires Descending(s)
    ensures Rank(s) == Factorial(|s|) - 1
  {
    if s != [] {
      RankDescending(s[1..]);
      BelowDescending(s);
      LastDigit(|s|, Factorial(|s| - 1));
    }
  }

  lemma LastDigit(n: nat, f: nat)
    requires n > 0
    ensures (n - 1) * f + f == n * f
  {
  }

  /** Rearranging a suffix moves the rank by exactly as much as the suffix's own rank moves. */
  lemma {:induction false} RankPrefix(p: seq<int>, t: seq<int>, u: seq<int>)
    requires SameValues(t, u)
    ensures Rank(p + u) - Rank(p + t) == Rank(u) - Rank(t)
  {
    if p == [] {
      assert p + u == u && p + t == t;
    } else {
      RankPrefix(p[1..], t, u);
      assert (p + u)[1..] == p[1..] + u && (p + t)[1..] == p[1..] + t;
      assert Elems(p + u) == Elems(p) + Elems(u);
      assert Elems(p + t) == Elems(p) + Elems(t);
    }
  }
}
