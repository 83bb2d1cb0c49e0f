/**
 Merged mining: the tree of auxiliary chains of coind_aux.cpp and `coinbase_aux`
 (coinbase.cpp). A coin's slot is a function of its chain id and the tree size; the branch
 sent with a block must lead from that slot to the root that the parent coinbase embeds.
 */
module AuxTree {
  import opened Merkle
  import opened Options
  import opened Arithmetic

  const MAX_AUXS := 32

  // ----- branch and root -----

  /** Climbing from a leaf: the low bit of the index says on which side the leaf stands. */
  function Climb(h: Pairing, leaf: Hash, branch: seq<Hash>, index: nat): Hash
    decreases |branch|
  {
    if branch == [] then leaf
    else Climb(h, if index % 2 == 1 then h(branch[0], leaf) else h(leaf, branch[0]), branch[1..], index / 2)
  }

  /** The other one of a pair; an odd last one is its own. */
  function Sibling(hs: seq<Hash>, index: nat): Hash
    requires index < |hs|
  {
    if index % 2 == 1 then hs[index - 1] else if index + 1 < |hs| then hs[index + 1] else hs[index]
  }

  /** The siblings on the way from slot `index` to the root. */
  function Siblings(h: Pairing, hs: seq<Hash>, index: nat): seq<Hash>
    requires index < |hs|
    decreases |hs|
  {
    if |hs| == 1 then [] else [Sibling(hs, index)] + Siblings(h, Level(h, hs), index / 2)
  }

  lemma HalfPow2(k: nat) returns (n: nat)
    requires Pow2(k) > 1
    ensures k > 0 && n >= 1 && n == Pow2(k - 1) && Pow2(k) == 2 * n
  {
    n := Pow2(k - 1);
  }

  lemma ParentOf(h: Pairing, hs: seq<Hash>, index: nat, n: nat)
    requires |hs| == 2 * n && index < |hs|
    ensures Level(h, hs)[index / 2] ==
            if index % 2 == 1 then h(Sibling(hs, index), hs[index]) else h(hs[index], Sibling(hs, index))
  {
    LevelAt(h, hs, index / 2);
  }

  /** One step up changes nothing of where the climb ends. */
  lemma ClimbNext(h: Pairing, hs: seq<Hash>, up: seq<Hash>, index: nat, n: nat)
    requires |hs| == 2 * n > 1 && index < |hs| && up == Level(h, hs)
    ensures |up| == n && index / 2 < n
    ensures Climb(h, hs[index], Siblings(h, hs, index), index) ==
            Climb(h, up[index / 2], Siblings(h, up, index / 2), index / 2)
  {
    ParentOf(h, hs, index, n);
    SiblingsNext(h, hs, up, index);
    ClimbStep(h, hs[index], Sibling(hs, index), Siblings(h, up, index / 2), index);
  }

  /** From every slot of a power-of-two tree, the siblings lead to the root. */
  lemma {:induction false} ClimbReachesRoot(h: Pairing, hs: seq<Hash>, index: nat, k: nat)
    requires |hs| == Pow2(k) && index < |hs|
    ensures Climb(h, hs[index], Siblings(h, hs, index), index) == Root(h, hs)
    decreases k
  {
    if |hs| > 1 {
      var n := HalfPow2(k);
      var up := Level(h, hs);
      ClimbNext(h, hs, up, index, n);
      ClimbReachesRoot(h, up, index / 2, k - 1);
    }
  }

  lemma ClimbStep(h: Pairing, leaf: Hash, s: Hash, rest: seq<Hash>, index: nat)
    ensures Climb(h, leaf, [s] + rest, index) ==
            Climb(h, if index % 2 == 1 then h(s, leaf) else h(leaf, s), rest, index / 2)
  {
    assert ([s] + rest)[1..] == rest;
  }

  lemma PairNext(h: Pairing, hs: seq<Hash>, i: nat, l: seq<Hash>)
    requires 2 * i + 2 <= |hs|
    ensures l + [h(hs[i * 2], hs[i * 2 + 1])] + Level(h, hs[2 * (i + 1)..]) == l + Level(h, hs[2 * i..])
  {
    assert hs[2 * i..][2..] == hs[2 * (i + 1)..];
  }

  /** The pairing loop shared by both functions. */
  method Pairs(h: Pairing, hashlist: seq<Hash>, ghost n: nat) returns (l: seq<Hash>)
    requires |hashlist| == 2 * n && n >= 1
    ensures l == Level(h, hashlist) && |l| == n
    ensures |hashlist| > 1 ==> Root(h, hashlist) == Root(h, l)
  {
    l := [];
    for i := 0 to |hashlist| / 2
      invariant |l| == i && l + Level(h, hashlist[2 * i..]) == Level(h, hashlist)
    {
      PairNext(h, hashlist, i, l);
      l := l + [h(hashlist[i * 2], hashlist[i * 2 + 1])];
    }
    assert l == Level(h, hashlist);
  }

  /** `coind_aux_merkle_branch` of a tree of 2^k slots. */
  method AuxMerkleBranch(h: Pairing, leaves: seq<Hash>, slot: nat, ghost k: nat) returns (lresult: seq<Hash>)
    requires |leaves| == Pow2(k) && slot < |leaves|
    ensures lresult == Siblings(h, leaves, slot)
    ensures Climb(h, leaves[slot], lresult, slot) == Root(h, leaves)
  {
    ClimbReachesRoot(h, leaves, slot, k);
    var hashlist := leaves;
    var index: nat := slot;
    ghost var m := k;
    ghost var whole := Siblings(h, leaves, slot);
    ghost var rest := whole;
    lresult := [];
    while |hashlist| > 1
      invariant |hashlist| == Pow2(m)
      invariant index < |hashlist|
      invariant rest == Siblings(h, hashlist, index)
      invariant whole == lresult + rest
      decreases |hashlist|
    {
      ghost var n := HalfPow2(m);
      var up := Pairs(h, hashlist, n);
      SiblingsNext(h, hashlist, up, index);
      rest := Siblings(h, up, index / 2);
      var s := if index % 2 == 1 then hashlist[index - 1] else hashlist[index + 1];
      MoveOver(lresult, s, rest);
      lresult := lresult + [s];
      m := m - 1;
      hashlist := up;
      index := index / 2;
    }
  }

  lemma SiblingsNext(h: Pairing, hs: seq<Hash>, up: seq<Hash>, index: nat)
    requires |hs| > 1 && index < |hs| && up == Level(h, hs)
    ensures index / 2 < |up|
    ensures Siblings(h, hs, index) == [Sibling(hs, index)] + Siblings(h, up, index / 2)
  {
  }

  /** The loop of `coinbase_aux`: the root the parent coinbase embeds. */
  method CoinbaseAuxRoot(h: Pairing, leaves: seq<Hash>, ghost k: nat) returns (root: Hash)
    requires |leaves| == Pow2(k)
    ensures root == Root(h, leaves)
  {
    var hashlist := leaves;
    ghost var m := k;
    ghost var goal := Root(h, leaves);
    while |hashlist| > 1
      invariant |hashlist| == Pow2(m)
      invariant goal == Root(h, hashlist)
      decreases |hashlist|
    {
      ghost var n := HalfPow2(m);
      m := m - 1;
      hashlist := Pairs(h, hashlist, n);
    }
    root := hashlist[0];
  }

  // ----- slots -----

  /** The int product 1103515245 * chainid, wrapped to 32 bits. */
  function WrappedProduct(chainid: int): (p: int)
    ensures -0x8000_0000 <= p < 0x8000_0000
  {
    (1103515245 * chainid + 0x8000_0000) % 0x1_0000_0000 - 0x8000_0000
  }

  /** The merged-mining slot of a chain in a tree of a given size: in range whatever the chain id. */
  function Slot(chainid: int, size: nat): (pos: nat)
    requires size > 0
    ensures pos < size
  {
    (WrappedProduct(chainid) + 1103515245 * 12345 + 12345) % size
  }

  const WORD := 0x1_0000_0000

  /** One step of the 32-bit linear congruential generator of merged mining. */
  function Rand(r: int): nat {
    (r * 1103515245 + 12345) % WORD
  }

  /** The slot of the merged mining specification for nonce 0: a step, the chain id, another step. */
  function SpecifiedSlot(chainid: int, size: nat): nat
    requires size > 0
  {
    Rand((Rand(0) + chainid) % WORD) % size
  }

  lemma NegativeTimes(q: int, n: nat)
    ensures q < 0 ==> q * n + n <= 0
  {
    if q < 0 {
      assert (-q - 1) * n >= 0;
    }
  }

  lemma ModOfMod(x: nat, y: nat, n: nat, q: int)
    requires n > 0 && x == y + q * n
    ensures x % n == y % n
  {
    DivModLaw(y, n);
    var a := y / n + q;
    assert a * n == (y / n) * n + q * n;
    NegativeTimes(a, n);
    ModUnique(x, a, y % n, n);
  }

  lemma {:induction false} PowSum(a: nat, b: nat)
    ensures Pow2(a + b) == Pow2(a) * Pow2(b)
  {
    if b > 0 {
      PowSum(a, b - 1);
      assert Pow2(a) * (2 * Pow2(b - 1)) == 2 * (Pow2(a) * Pow2(b - 1));
    }
  }

  lemma Pow32()
    ensures Pow2(32) == WORD
  {
    assert Pow2(8) == 256;
    PowSum(8, 8);
    PowSum(16, 16);
  }

  /** Two to the k divides 2^32. */
  lemma DividesWord(k: nat)
    requires k <= 32
    ensures Pow2(k) * Pow2(32 - k) == WORD
  {
    PowSum(k, 32 - k);
    Pow32();
  }

  /** The code's sum and the generator's differ by a multiple of 2^32. */
  lemma SameModWord(chainid: int) returns (q: int)
    ensures WrappedProduct(chainid) + 1103515245 * 12345 + 12345 == Rand((Rand(0) + chainid) % WORD) + q * WORD
  {
    var sum := 12345 + chainid;
    assert Rand(0) == 12345;
    var p := (1103515245 * chainid + 0x8000_0000) / WORD;
    assert WrappedProduct(chainid) == 1103515245 * chainid - p * WORD;
    var r := (sum % WORD) * 1103515245 + 12345;
    assert sum % WORD == sum - (sum / WORD) * WORD;
    assert Rand(sum % WORD) == r - (r / WORD) * WORD;
    q := r / WORD - p + 1103515245 * (sum / WORD);
  }

  /** For trees of up to 2^32 slots the code's formula, with its wrapped product, is the specified slot. */
  lemma SlotAsSpecified(chainid: int, k: nat)
    requires k <= 32
    ensures Slot(chainid, Pow2(k)) == SpecifiedSlot(chainid, Pow2(k))
  {
    DividesWord(k);
    var q := SameModWord(chainid);
    SameSlot(WrappedProduct(chainid) + 1103515245 * 12345 + 12345, Rand((Rand(0) + chainid) % WORD), q,
             Pow2(k), Pow2(32 - k));
  }

  lemma SameSlot(x: nat, y: nat, q: int, size: nat, rest: nat)
    requires size > 0 && x == y + q * WORD && size * rest == WORD
    ensures x % size == y % size
  {
    assert q * WORD == (q * rest) * size by {
      assert q * (size * rest) == (q * rest) * size;
    }
    ModOfMod(x, y, size, q * rest);
  }

  function SlotIn(size: nat): (f: int -> nat)
    requires size > 0
    ensures forall c :: f(c) < size
  {
    (c: int) => Slot(c, size)
  }

  /** Distinct coins of the list have distinct slots. */
  predicate CollisionFree(ids: seq<int>, slot: int -> nat) {
    forall a, b :: 0 <= a < b < |ids| ==> slot(ids[a]) != slot(ids[b])
  }

  /** The size is good: room for all, no collision. */
  predicate Fits(ids: seq<int>, size: nat) {
    size > 0 && |ids| <= size && CollisionFree(ids, SlotIn(size))
  }

  /** auxs holds exactly the first n coins, each in its slot. */
  predicate Placed(ids: seq<int>, n: nat, slot: int -> nat, auxs: seq<int>) {
    && n <= |ids|
    && (forall k :: 0 <= k < n ==> slot(ids[k]) < |auxs| && auxs[slot(ids[k])] == k)
    && (forall p :: 0 <= p < |auxs| && auxs[p] != -1 ==> 0 <= auxs[p] < n && slot(ids[auxs[p]]) == p)
  }

  predicate Empty(auxs: seq<int>) {
    forall p :: 0 <= p < |auxs| ==> auxs[p] == -1
  }

  lemma PlacedNext(ids: seq<int>, n: nat, slot: int -> nat, auxs: seq<int>)
    requires n < |ids| && Placed(ids, n, slot, auxs) && slot(ids[n]) < |auxs| && auxs[slot(ids[n])] == -1
    ensures Placed(ids, n + 1, slot, auxs[slot(ids[n]) := n])
    ensures forall k :: 0 <= k < n ==> slot(ids[k]) != slot(ids[n])
  {
  }

  method Clear(auxs: array<int>)
    modifies auxs
    ensures Empty(auxs[..])
  {
    for p := 0 to auxs.Length
      invariant forall q :: 0 <= q < p ==> auxs[q] == -1
    {
      auxs[p] := -1;
    }
  }

  /** One size: every coin in its slot, or everything cleared at the first collision. */
  method TrySize(ids: seq<int>, slot: int -> nat, auxs: array<int>, index: array<int>) returns (done: bool)
    requires index.Length == |ids| && auxs != index && Empty(auxs[..]) && forall c :: slot(c) < auxs.Length
    modifies auxs, index
    ensures done <==> CollisionFree(ids, slot)
    ensures done ==> Placed(ids, |ids|, slot, auxs[..]) && forall k :: 0 <= k < |ids| ==> index[k] == slot(ids[k])
    ensures !done ==> Empty(auxs[..])
  {
    for li := 0 to |ids|
      invariant Placed(ids, li, slot, auxs[..])
      invariant forall k :: 0 <= k < li ==> index[k] == slot(ids[k])
      invariant CollisionFree(ids[..li], slot)
    {
      var c := ids[li];
      var pos := slot(c);
      assert slot(c) < auxs.Length;
      if auxs[pos] != -1 {
        ghost var k := auxs[..][pos];
        assert slot(ids[k]) == slot(ids[li]);
        Clear(auxs);
        return false;
      }
      PlacedNext(ids, li, slot, auxs[..]);
      ghost var was := auxs[..];
      index[li] := pos;
      auxs[pos] := li;
      assert auxs[..] == was[pos := li];
    }
    assert ids[..|ids|] == ids;
    return true;
  }

  /** One turn of the size loop: too small a size is passed over. */
  method TryFit(ids: seq<int>, size: nat, auxs: array<int>, index: array<int>) returns (done: bool)
    requires 0 < size <= auxs.Length && index.Length == |ids| && auxs != index && Empty(auxs[..])
    modifies auxs, index
    ensures done <==> Fits(ids, size)
    ensures done ==> Placed(ids, |ids|, SlotIn(size), auxs[..])
    ensures done ==> forall k :: 0 <= k < |ids| ==> index[k] == Slot(ids[k], size)
    ensures !done ==> Empty(auxs[..])
  {
    if size < |ids| {
      return false;
    }
    done := TrySize(ids, SlotIn(size), auxs, index);
  }

  /** No power of two up to the table's size has room for all coins without a collision. */
  ghost predicate NoSizeFits(ids: seq<int>) {
    forall m: nat :: Pow2(m) <= MAX_AUXS ==> !Fits(ids, Pow2(m))
  }

  /**
   `coind_aux_build_auxs` for the coins that can mine: the smallest power of two that has room
   for all of them and no collision, each coin alone in its slot and every other slot empty. None
   where no such size is within the table: there the code goes on past it.
   */
  method BuildAuxs(ids: seq<int>, auxs: array<int>, index: array<int>) returns (size: Option<nat>)
    requires auxs.Length == MAX_AUXS && index.Length == |ids| && auxs != index
    modifies auxs, index
    ensures ids == [] ==> size == Some(0)
    ensures ids != [] ==> (size == None <==> NoSizeFits(ids))
    ensures size.Some? && ids != [] ==> size.value <= MAX_AUXS && Fits(ids, size.value)
    ensures size.Some? && ids != [] ==> Placed(ids, |ids|, SlotIn(size.value), auxs[..])
    ensures size.Some? && ids != [] ==>
              exists k: nat :: size.value == Pow2(k) && forall m: nat :: m < k ==> !Fits(ids, Pow2(m))
    ensures size.Some? && ids != [] ==> forall k :: 0 <= k < |ids| ==> index[k] == Slot(ids[k], size.value)
    ensures ids == [] || size == None ==> Empty(auxs[..])
  {
    Clear(auxs);
    if ids == [] {
      return Some(0);
    }
    var i, n := 0, 1;
    while n <= MAX_AUXS
      invariant 0 <= i <= 6 && n == Pow2(i) && Empty(auxs[..])
      invariant forall m: nat :: m < i ==> !Fits(ids, Pow2(m))
      decreases 6 - i
    {
      PowersTo32(i);
      var done := TryFit(ids, n, auxs, index);
      if done {
        assert Pow2(i) <= MAX_AUXS;
        return Some(n);
      }
      i, n := i + 1, 2 * n;
    }
    PastTheTable(i);
    return None;
  }

  /** The powers within the table are the first six. */
  lemma PowersTo32(i: nat)
    ensures Pow2(i) <= MAX_AUXS <==> i <= 5
  {
    if i > 6 {
      PowersTo32(i - 1);
    } else {
      assert Pow2(0) == 1 && Pow2(1) == 2 && Pow2(2) == 4 && Pow2(3) == 8 && Pow2(4) == 16 && Pow2(5) == 32;
    }
  }

  lemma PastTheTable(i: nat)
    requires i <= 6 && Pow2(i) > MAX_AUXS
    ensures forall m: nat :: Pow2(m) <= MAX_AUXS ==> m < i
  {
    PowersTo32(i);
    forall m: nat | Pow2(m) <= MAX_AUXS
      ensures m < i
    {
      PowersTo32(m);
    }
  }

  // ----- together -----

  /** `coind_aux_hashlist`: the coins' block hashes in their slots, zeroes elsewhere. */
  function HashList(auxs: seq<int>, size: nat, hashes: seq<Hash>, zero: Hash): (leaves: seq<Hash>)
    requires size <= |auxs| && forall p :: 0 <= p < size ==> auxs[p] < |hashes|
    ensures |leaves| == size
  {
    seq(size, p requires 0 <= p < size => if auxs[p] < 0 then zero else hashes[auxs[p]])
  }

  /** Every coin placed by `coind_aux_build_auxs` can show its block hash under the embedded root. */
  lemma EveryCoinProves(h: Pairing, ids: seq<int>, auxs: seq<int>, k: nat, hashes: seq<Hash>, zero: Hash, coin: nat)
    requires Placed(ids, |ids|, SlotIn(Pow2(k)), auxs) && Pow2(k) <= |auxs| && coin < |ids| == |hashes|
    ensures var leaves := HashList(auxs, Pow2(k), hashes, zero);
            var pos := Slot(ids[coin], Pow2(k));
            Climb(h, hashes[coin], Siblings(h, leaves, pos), pos) == Root(h, leaves)
  {
    var leaves := HashList(auxs, Pow2(k), hashes, zero);
    var pos := Slot(ids[coin], Pow2(k));
    assert leaves[pos] == hashes[coin] by {
      assert SlotIn(Pow2(k))(ids[coin]) == pos;
    }
    ClimbReachesRoot(h, leaves, pos, k);
  }
}
