/**
 What `job_sort` (job_core.cpp) is for: jobs in non-increasing profit order, equal profits
 in their old order. Each adjacent swap it makes removes exactly one inversion.
 */
module StableSort {

  datatype Entry = Entry(id: nat, profit: real)

  predicate NonIncreasing(s: seq<Entry>) {
    forall i, j :: 0 <= i < j < |s| ==> s[i].profit >= s[j].profit
  }

  /** The entries of one profit, in order. */
  function WithProfit(s: seq<Entry>, p: real): seq<Entry> {
    if s == [] then []
    else (if s[0].profit == p then [s[0]] else []) + WithProfit(s[1..], p)
  }

  /** t rearranges s and keeps entries of equal profit in their order. */
  ghost predicate Stable(s: seq<Entry>, t: seq<Entry>) {
    forall p :: WithProfit(s, p) == WithProfit(t, p)
  }

  function Greater(s: seq<Entry>, p: real): nat {
    if s == [] then 0 else (if p < s[0].profit then 1 else 0) + Greater(s[1..], p)
  }

  /** The number of pairs in the wrong order. */
  function Inversions(s: seq<Entry>): nat {
    if s == [] then 0 else Greater(s[1..], s[0].profit) + Inversions(s[1..])
  }

  /** s with the entries at i and i+1 exchanged. */
  function Exchanged<T>(s: seq<T>, i: nat): seq<T>
    requires i + 1 < |s|
  {
    s[i := s[i + 1]][i + 1 := s[i]]
  }

  lemma ExchangedTail<T>(s: seq<T>, i: nat)
    requires 0 < i && i + 1 < |s|
    ensures Exchanged(s, i)[0] == s[0] && Exchanged(s, i)[1..] == Exchanged(s[1..], i - 1)
  {
  }

  lemma ExchangedHead<T>(s: seq<T>)
    requires 2 <= |s|
    ensures Exchanged(s, 0) == [s[1], s[0]] + s[2..] && s == [s[0], s[1]] + s[2..]
  {
  }

  lemma GreaterTwo(a: Entry, b: Entry, t: seq<Entry>, p: real)
    ensures Greater([a, b] + t, p) == (if p < a.profit then 1 else 0) + (if p < b.profit then 1 else 0) + Greater(t, p)
    ensures Greater([a] + t, p) == (if p < a.profit then 1 else 0) + Greater(t, p)
  {
  }

  lemma {:induction false} GreaterExchanged(s: seq<Entry>, i: nat, p: real)
    requires i + 1 < |s|
    ensures Greater(Exchanged(s, i), p) == Greater(s, p)
  {
    if i == 0 {
      ExchangedHead(s);
      GreaterTwo(s[0], s[1], s[2..], p);
      GreaterTwo(s[1], s[0], s[2..], p);
    } else {
      ExchangedTail(s, i);
      GreaterExchanged(s[1..], i - 1, p);
    }
  }

  lemma InversionsTwo(a: Entry, b: Entry, t: seq<Entry>)
    ensures Inversions([a, b] + t) ==
            (if a.profit < b.profit then 1 else 0) + Greater(t, a.profit) + Greater(t, b.profit) + Inversions(t)
  {
  }

  /** Exchanging an adjacent pair in the wrong order removes exactly one inversion. */
  lemma {:induction false} ExchangeRemovesOne(s: seq<Entry>, i: nat)
    requires i + 1 < |s| && s[i].profit < s[i + 1].profit
    ensures Inversions(Exchanged(s, i)) + 1 == Inversions(s)
  {
    if i == 0 {
      ExchangedHead(s);
      InversionsTwo(s[0], s[1], s[2..]);
      InversionsTwo(s[1], s[0], s[2..]);
    } else {
      ExchangedTail(s, i);
      ExchangeRemovesOne(s[1..], i - 1);
      GreaterExchanged(s[1..], i - 1, s[0].profit);
    }
  }

  lemma WithProfitTwo(a: Entry, b: Entry, t: seq<Entry>, p: real)
    ensures WithProfit([a, b] + t, p) ==
            (if a.profit == p then [a] else []) + (if b.profit == p then [b] else []) + WithProfit(t, p)
  {
  }

  lemma {:induction false} WithProfitExchanged(s: seq<Entry>, i: nat, p: real)
    requires i + 1 < |s| && s[i].profit < s[i + 1].profit
    ensures WithProfit(Exchanged(s, i), p) == WithProfit(s, p)
  {
    if i == 0 {
      ExchangedHead(s);
      WithProfitTwo(s[0], s[1], s[2..], p);
      WithProfitTwo(s[1], s[0], s[2..], p);
    } else {
      ExchangedTail(s, i);
      WithProfitExchanged(s[1..], i - 1, p);
    }
  }

  lemma ExchangeStable(s: seq<Entry>, i: nat)
    requires i + 1 < |s| && s[i].profit < s[i + 1].profit
    ensures Stable(s, Exchanged(s, i))
  {
    forall p
      ensures WithProfit(s, p) == WithProfit(Exchanged(s, i), p)
    {
      WithProfitExchanged(s, i, p);
    }
  }

  // ----- the specification has one solution -----

  lemma {:induction false} AboveAll(s: seq<Entry>, p: real)
    ensures (forall i :: 0 <= i < |s| ==> s[i].profit < p) ==> WithProfit(s, p) == []
  {
    if s != [] {
      AboveAll(s[1..], p);
    }
  }

  lemma SameHead(s: seq<Entry>, t: seq<Entry>)
    requires s != [] && NonIncreasing(s) && NonIncreasing(t) && Stable(s, t)
    ensures t != [] && t[0] == s[0]
  {
    var p := s[0].profit;
    assert WithProfit(s, p) == WithProfit(t, p) && WithProfit(s, p)[0] == s[0];
    AboveAll(t, p);
    assert t != [] && t[0].profit >= p;
    var q := t[0].profit;
    assert WithProfit(s, q) == WithProfit(t, q) && WithProfit(t, q)[0] == t[0];
    AboveAll(s, q);
  }

  lemma StableTails(s: seq<Entry>, t: seq<Entry>)
    requires s != [] && t != [] && s[0] == t[0] && Stable(s, t)
    ensures Stable(s[1..], t[1..])
  {
    forall q
      ensures WithProfit(s[1..], q) == WithProfit(t[1..], q)
    {
      assert WithProfit(s, q) == WithProfit(t, q);
      if q == s[0].profit {
        assert WithProfit(s[1..], q) == WithProfit(s, q)[1..];
        assert WithProfit(t[1..], q) == WithProfit(t, q)[1..];
      } else {
        assert WithProfit(s[1..], q) == WithProfit(s, q);
        assert WithProfit(t[1..], q) == WithProfit(t, q);
      }
    }
  }

  /** A non-increasing stable arrangement is determined by what it arranges. */
  lemma {:induction false} StableSortUnique(s: seq<Entry>, t: seq<Entry>)
    requires NonIncreasing(s) && NonIncreasing(t) && Stable(s, t)
    ensures s == t
    decreases |s|
  {
    if s != [] {
      SameHead(s, t);
      StableTails(s, t);
      StableSortUnique(s[1..], t[1..]);
      assert s == [s[0]] + s[1..] && t == [t[0]] + t[1..];
    } else if t != [] {
      SameHead(t, s);
    }
  }

  /** Stability is a rearrangement: nothing is lost or added. */
  lemma {:induction false} WithProfitCount(s: seq<Entry>, e: Entry)
    ensures multiset(WithProfit(s, e.profit))[e] == multiset(s)[e]
  {
    if s != [] {
      assert s == [s[0]] + s[1..];
      WithProfitCount(s[1..], e);
    }
  }

  lemma StableMultiset(s: seq<Entry>, t: seq<Entry>)
    requires Stable(s, t)
    ensures multiset(s) == multiset(t)
  {
    forall e
      ensures multiset(s)[e] == multiset(t)[e]
    {
      WithProfitCount(s, e);
      WithProfitCount(t, e);
    }
  }
}
