/**
 How the two permuted-hash coins pick the order of their hash functions from the block
 time: algos/timetravel.c steps from the identity on every call, algos/x11evo.c caches the
 order of the current day.
 */
module HashOrder {
  import opened Arithmetic
  import opened Ranking
  import opened Permutations

  const TWO32 := 0x1_0000_0000
  const TWO31 := 0x8000_0000

  /** The values 0, 1, ..., n-1 in order. */
  function Identity(n: nat): seq<int> {
    seq(n, i => i)
  }

  lemma IdentityRank(n: nat)
    ensures Ascending(Identity(n)) && Distinct(Identity(n)) && Rank(Identity(n)) == 0
  {
    RankAscending(Identity(n));
  }

  /** The only arrangement of 0..n-1 with rank k is Unrank's. */
  lemma ArrangementOfRank(n: nat, s: seq<int>, k: nat)
    requires SameValues(s, Identity(n)) && Distinct(s) && Rank(s) == k
    ensures k < Factorial(n) && s == Unrank(Identity(n), k)
  {
    RankBound(s);
    UnrankRank(Identity(n), k);
    RankIsLexOrder(s, Unrank(Identity(n), k));
  }

  lemma NextRankMod(k: nat, n: nat)
    ensures NextRank(k % Factorial(n), n) == (k + 1) % Factorial(n)
  {
    var f := Factorial(n);
    DivModLaw(k, f);
    DivModLaw(k + 1, f);
    var q, r := k / f, k % f;
    if r + 1 == f {
      assert k + 1 == (q + 1) * f + 0;
      ModUnique(k + 1, q + 1, 0, f);
    } else {
      ModUnique(k + 1, q, r + 1, f);
    }
  }

  // ----- algos/timetravel.c -----

  const HASH_FUNC_BASE_TIMESTAMP := 1389040865
  const HASH_FUNC_COUNT := 8
  const HASH_FUNC_COUNT_PERMUTATIONS := 40320

  /** The unsigned 32-bit difference, reduced by the permutation count. */
  function Steps(timestamp: int): nat {
    (timestamp - HASH_FUNC_BASE_TIMESTAMP) % TWO32 % HASH_FUNC_COUNT_PERMUTATIONS
  }

  /** From the base time on the steps are the seconds since then, modulo 8!; before it the difference wraps. */
  lemma StepsCount(timestamp: int)
    requires 0 <= timestamp < TWO32
    ensures timestamp >= HASH_FUNC_BASE_TIMESTAMP ==> Steps(timestamp) == (timestamp - 1389040865) % 40320
    ensures timestamp < HASH_FUNC_BASE_TIMESTAMP ==>
              Steps(timestamp) == (timestamp + 0x1_0000_0000 - 1389040865) % 40320
    ensures Factorial(8) == 40320
  {
  }

  lemma UnrankNext(n: nat, k: nat, l: nat)
    requires k < Factorial(n) && l == NextRank(k, n) < Factorial(n)
    ensures IsSuccessor(Unrank(Identity(n), k), Unrank(Identity(n), l))
  {
    IdentityRank(n);
    UnrankRank(Identity(n), k);
    UnrankRank(Identity(n), l);
  }

  lemma NextRest(e: nat)
    ensures (e + 1) % 40320 == (e % 40320 + 1) % 40320
  {
  }

  lemma NextSteps(timestamp: int)
    requires 0 <= timestamp < TWO32 - 1 && timestamp + 1 != HASH_FUNC_BASE_TIMESTAMP
    ensures Steps(timestamp + 1) == (Steps(timestamp) + 1) % 40320
  {
    StepsCount(timestamp);
    StepsCount(timestamp + 1);
    NextRest(if timestamp >= HASH_FUNC_BASE_TIMESTAMP then timestamp - 1389040865
             else timestamp + 0x1_0000_0000 - 1389040865);
  }

  /** The next second selects the next arrangement, the first after the last; but at the base time it starts over. */
  lemma NextSecond(timestamp: int)
    requires 0 <= timestamp < TWO32 - 1 && timestamp + 1 != HASH_FUNC_BASE_TIMESTAMP
    ensures IsSuccessor(Unrank(Identity(8), Steps(timestamp)), Unrank(Identity(8), Steps(timestamp + 1)))
    ensures Steps(HASH_FUNC_BASE_TIMESTAMP) == 0
  {
    StepsCount(timestamp);
    NextSteps(timestamp);
    UnrankNext(8, Steps(timestamp), Steps(timestamp + 1));
  }

  /** The step loop of `timetravel_hash`: the order it leaves has rank `Steps(timestamp)`. */
  method TimeTravelOrder(timestamp: int) returns (order: seq<int>)
    requires 0 <= timestamp < TWO32
    ensures Factorial(HASH_FUNC_COUNT) == HASH_FUNC_COUNT_PERMUTATIONS
    ensures order == Unrank(Identity(HASH_FUNC_COUNT), Steps(timestamp))
    ensures Rank(order) == Steps(timestamp)
  {
    assert Factorial(HASH_FUNC_COUNT) == HASH_FUNC_COUNT_PERMUTATIONS;
    var permutation := InitPerm(HASH_FUNC_COUNT);
    IdentityRank(HASH_FUNC_COUNT);
    var steps := Steps(timestamp);
    for i := 0 to steps
      invariant SameValues(permutation[..], Identity(HASH_FUNC_COUNT))
      invariant Distinct(permutation[..]) && Rank(permutation[..]) == i
    {
      NextPermutation(permutation);
    }
    order := permutation[..];
    ArrangementOfRank(HASH_FUNC_COUNT, order, steps);
  }

  // ----- algos/x11evo.c -----

  const EVO_COUNT := 11
  const INITIAL_DATE := 0x57254700
  const DAY_SECONDS := 86400

  /** The last loop of `nextPerm`: two indices swap their way inwards. */
  method ReverseTail(n: array<int>, tail: nat)
    requires tail < n.Length
    modifies n
    ensures forall k :: tail <= k < n.Length ==> n[k] == old(n[tail + n.Length - 1 - k])
    ensures forall k :: 0 <= k < tail ==> n[k] == old(n[k])
    ensures multiset(n[..]) == old(multiset(n[..]))
  {
    var i, j := tail, n.Length - 1;
    while i < j
      invariant tail <= i <= j + 1 <= n.Length && i - tail == n.Length - 1 - j
      invariant forall k :: tail <= k < i || j < k < n.Length ==> n[k] == old(n[tail + n.Length - 1 - k])
      invariant forall k :: 0 <= k < tail || i <= k <= j ==> n[k] == old(n[k])
      invariant multiset(n[..]) == old(multiset(n[..]))
    {
      Swap(n, i, j);
      i, j := i + 1, j - 1;
    }
  }

  /** `nextPerm` with a tail behind a pivot. */
  method AdvanceTail(n: array<int>, tail: nat)
    requires 0 < tail < n.Length && NonIncreasing(n[..][tail..]) && n[tail - 1] < n[tail]
    modifies n
    ensures multiset(n[..]) == old(multiset(n[..]))
    ensures Distinct(old(n[..])) ==> IsSuccessor(old(n[..]), n[..]) && Rank(old(n[..])) + 1 < Factorial(n.Length)
  {
    ghost var s := n[..];
    var j := n.Length - 1;
    while j > tail && n[j] <= n[tail - 1]
      invariant tail <= j < n.Length
      invariant forall m :: j < m < n.Length ==> s[m] <= s[tail - 1]
    {
      j := j - 1;
    }
    Swap(n, tail - 1, j);
    ghost var u := n[..];
    ReverseTail(n, tail);
    SwapReversed(s, tail - 1, j, u, n[..]);
  }

  /** `nextPerm` when everything is the tail. */
  method WrapTail(n: array<int>)
    requires 0 < n.Length && NonIncreasing(n[..])
    modifies n
    ensures multiset(n[..]) == old(multiset(n[..]))
    ensures Distinct(old(n[..])) ==> IsSuccessor(old(n[..]), n[..]) && Rank(old(n[..])) + 1 == Factorial(n.Length)
  {
    ghost var s := n[..];
    ReverseTail(n, 0);
    WrapSuccessor(s, n[..]);
  }

  /** `nextPerm`: the same step written with indices; returns whether there was a next one. */
  method NextPerm(n: array<int>) returns (more: bool)
    modifies n
    ensures multiset(n[..]) == old(multiset(n[..]))
    ensures Distinct(old(n[..])) ==> IsSuccessor(old(n[..]), n[..])
    ensures Distinct(old(n[..])) ==> more == (Rank(old(n[..])) + 1 < Factorial(n.Length))
  {
    if n.Length <= 1 {
      return false;
    }
    var i := n.Length - 1;
    while i > 0 && n[i - 1] >= n[i]
      invariant 0 <= i < n.Length
      invariant NonIncreasing(n[..][i..])
    {
      i := i - 1;
    }
    if i > 0 {
      AdvanceTail(n, i);
    } else {
      WrapTail(n);
    }
    return i != 0;
  }

  /** The conversion of an unsigned 32-bit word to `int`. */
  function ToInt32(u: int): int {
    if u < TWO31 then u else u - TWO32
  }

  /** C's integer division: towards zero. */
  function TruncDiv(a: int, b: int): int
    requires b > 0
  {
    if a >= 0 then a / b else -((-a) / b)
  }

  /** `getCurrentAlgoSeq`: the cast to int comes before the division. */
  function AlgoSeq(ntime: int): int {
    TruncDiv(ToInt32((ntime - INITIAL_DATE) % TWO32), DAY_SECONDS)
  }

  function AlgoChar(a: int): (c: char)
    requires 0 <= a < EVO_COUNT
    ensures c == "0123456789A"[a]
  {
    if a >= 10 then 'A' + (a - 10) as char else '0' + a as char
  }

  /** How `x11evo_hash` reads a character of the order string back. */
  function AlgoOf(c: char): int {
    if c >= 'A' then c as int - 'A' as int + 10 else c as int - '0' as int
  }

  function Decode(order: string): seq<int> {
    seq(|order|, i requires 0 <= i < |order| => AlgoOf(order[i]))
  }

  predicate AlgoList(s: seq<int>) {
    forall i :: 0 <= i < |s| ==> 0 <= s[i] < EVO_COUNT
  }

  function Render(s: seq<int>): (order: string)
    requires AlgoList(s)
    ensures Decode(order) == s
  {
    seq(|s|, i requires 0 <= i < |s| => AlgoChar(s[i]))
  }

  /** How many steps `getAlgoString` takes for a sequence number: none for a negative one. */
  function RankOfSeq(s: int): nat {
    if s < 0 then 0 else s % Factorial(EVO_COUNT)
  }

  lemma EvoAlgos(k: nat)
    requires k < Factorial(EVO_COUNT)
    ensures AlgoList(Unrank(Identity(EVO_COUNT), k))
  {
    IdentityRank(EVO_COUNT);
    UnrankRank(Identity(EVO_COUNT), k);
    var u := Unrank(Identity(EVO_COUNT), k);
    forall i | 0 <= i < |u|
      ensures 0 <= u[i] < EVO_COUNT
    {
      assert u[i] in Elems(Identity(EVO_COUNT));
    }
  }

  /** The order string of a sequence number. */
  function OrderString(s: int): (order: string)
    ensures Decode(order) == Unrank(Identity(EVO_COUNT), RankOfSeq(s))
  {
    EvoAlgos(RankOfSeq(s));
    Render(Unrank(Identity(EVO_COUNT), RankOfSeq(s)))
  }

  /** The printing loop of `getAlgoString`. */
  method Printed(algoList: array<int>) returns (str: string)
    requires AlgoList(algoList[..])
    ensures str == Render(algoList[..])
  {
    str := "";
    for j := 0 to algoList.Length
      invariant |str| == j
      invariant forall i :: 0 <= i < j ==> str[i] == AlgoChar(algoList[..][i])
    {
      str := str + [AlgoChar(algoList[..][j])];
    }
  }

  /** `initPerm`, and the identity loop of `timetravel_hash`. */
  method InitPerm(count: nat) returns (n: array<int>)
    ensures fresh(n) && n[..] == Identity(count)
  {
    n := new int[count];
    for i := 0 to count
      invariant forall j :: 0 <= j < i ==> n[j] == j
    {
      n[i] := i;
    }
  }

  /** The step loop of `getAlgoString`: s steps from the identity, none for a negative s. */
  method AlgoListAfter(s: int) returns (algoList: array<int>)
    ensures fresh(algoList) && algoList[..] == Unrank(Identity(EVO_COUNT), RankOfSeq(s))
  {
    algoList := InitPerm(EVO_COUNT);
    IdentityRank(EVO_COUNT);
    var k := 0;
    while k < s
      invariant 0 <= k && (k <= s || k == 0)
      invariant SameValues(algoList[..], Identity(EVO_COUNT)) && Distinct(algoList[..])
      invariant Rank(algoList[..]) == k % Factorial(EVO_COUNT)
    {
      NextRankMod(k, EVO_COUNT);
      var _ := NextPerm(algoList);
      k := k + 1;
    }
    ArrangementOfRank(EVO_COUNT, algoList[..], RankOfSeq(s));
  }

  /** `getAlgoString`. */
  method GetAlgoString(s: int) returns (str: string)
    ensures str == OrderString(s)
  {
    var algoList := AlgoListAfter(s);
    EvoAlgos(RankOfSeq(s));
    str := Printed(algoList);
  }

  /** The two statics of x11evo.c as one value. */
  datatype EvoState = EvoState(order: string, sequence: int)

  const EVO_INITIAL := EvoState("", -1)

  function EvoStep(st: EvoState, ntime: int): EvoState {
    if st.sequence != AlgoSeq(ntime) then EvoState(OrderString(AlgoSeq(ntime)), AlgoSeq(ntime)) else st
  }

  function EvoRun(ntimes: seq<int>): EvoState {
    if ntimes == [] then EVO_INITIAL
    else EvoStep(EvoRun(ntimes[..|ntimes| - 1]), ntimes[|ntimes| - 1])
  }

  class EvoCache {
    var hashOrder: string
    var sSequence: int

    function View(): EvoState
      reads this
    {
      EvoState(hashOrder, sSequence)
    }

    constructor ()
      ensures View() == EVO_INITIAL
    {
      hashOrder, sSequence := "", -1;
    }

    /** `evo_twisted_code`: recompute the order only when the day changed. */
    method TwistedCode(ntime: int)
      requires 0 <= ntime < TWO32
      modifies this
      ensures View() == EvoStep(old(View()), ntime)
    {
      var s := AlgoSeq(ntime);
      if sSequence != s {
        hashOrder := GetAlgoString(s);
        sSequence := s;
      }
    }
  }

  /** What the cache holds after any calls: the order of the last sequence number, or still nothing. */
  lemma {:induction false} CacheInvariant(ntimes: seq<int>)
    ensures var st := EvoRun(ntimes);
            st == EVO_INITIAL || st.order == OrderString(st.sequence)
    ensures ntimes != [] ==> EvoRun(ntimes).sequence == AlgoSeq(ntimes[|ntimes| - 1])
  {
    if ntimes != [] {
      CacheInvariant(ntimes[..|ntimes| - 1]);
    }
  }

  /** The number of whole days since INITIAL_DATE. */
  function Day(ntime: int): int {
    (ntime - INITIAL_DATE) / DAY_SECONDS
  }

  lemma AlgoSeqInRange(ntime: int)
    requires INITIAL_DATE <= ntime < TWO32
    ensures 0 <= Day(ntime) < Factorial(EVO_COUNT)
    ensures RankOfSeq(AlgoSeq(ntime)) == if ntime < INITIAL_DATE + TWO31 then Day(ntime) else 0
    ensures ntime >= INITIAL_DATE + TWO31 ==> 0 < Day(ntime)
    ensures ntime < INITIAL_DATE + TWO31 ==> AlgoSeq(ntime) != -1
  {
    assert Factorial(EVO_COUNT) == 39916800;
    assert (ntime - INITIAL_DATE) % TWO32 == ntime - INITIAL_DATE;
  }

  lemma UnrankEvo(j: nat, k: nat)
    requires j < Factorial(EVO_COUNT) && k < Factorial(EVO_COUNT) && j != k
    ensures Unrank(Identity(EVO_COUNT), j) != Unrank(Identity(EVO_COUNT), k)
  {
    IdentityRank(EVO_COUNT);
    UnrankRank(Identity(EVO_COUNT), j);
    UnrankRank(Identity(EVO_COUNT), k);
  }

  lemma OrderAfter(ntimes: seq<int>, ntime: int)
    requires ntimes != [] && ntimes[|ntimes| - 1] == ntime
    ensures var d := Decode(EvoRun(ntimes).order);
            (d == [] && AlgoSeq(ntime) == -1) ||
            d == Unrank(Identity(EVO_COUNT), RankOfSeq(AlgoSeq(ntime)))
  {
    CacheInvariant(ntimes);
    var st := EvoRun(ntimes);
    if st == EVO_INITIAL {
      assert Decode("") == [];
    } else {
      assert Decode(OrderString(st.sequence)) == Unrank(Identity(EVO_COUNT), RankOfSeq(st.sequence));
    }
  }

  /**
   After any calls ending with a block time not before INITIAL_DATE, the cached string decodes
   to the arrangement whose rank is the day number exactly when the time is less than 2^31
   seconds after INITIAL_DATE; from then on the int cast turns negative.
   */
  lemma DayOrder(ntimes: seq<int>, ntime: int)
    requires ntimes != [] && ntimes[|ntimes| - 1] == ntime
    requires INITIAL_DATE <= ntime < TWO32
    ensures 0 <= Day(ntime) < Factorial(EVO_COUNT)
    ensures Decode(EvoRun(ntimes).order) == Unrank(Identity(EVO_COUNT), Day(ntime)) <==>
            ntime < INITIAL_DATE + TWO31
  {
    OrderAfter(ntimes, ntime);
    AlgoSeqInRange(ntime);
    if ntime >= INITIAL_DATE + TWO31 {
      UnrankEvo(0, Day(ntime));
      assert Unrank(Identity(EVO_COUNT), Day(ntime)) != [];
    }
  }

  /** The first time the claim fails: 2084, where the cache holds the identity order instead. */
  lemma DayOrderFails()
    ensures var ntime := INITIAL_DATE + TWO31;
            ntime < TWO32 && Day(ntime) == 24855 &&
            Decode(EvoRun([ntime]).order) == Identity(EVO_COUNT)
  {
    var ntime := INITIAL_DATE + TWO31;
    assert [ntime][..0] == [];
    assert EvoRun([ntime]) == EvoStep(EVO_INITIAL, ntime);
    assert AlgoSeq(ntime) == -24855;
    IdentityRank(EVO_COUNT);
    ArrangementOfRank(EVO_COUNT, Identity(EVO_COUNT), 0);
  }
}
