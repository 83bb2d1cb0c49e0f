/** Powers, multiples and remainders shared by the models. */
module Arithmetic {

  function Pow2(k: nat): (p: nat)
    ensures p >= 1
  {
    if k == 0 then 1 else 2 * Pow2(k - 1)
  }

  function Pow256(k: nat): (p: nat)
    ensures p >= 1
  {
    if k == 0 then 1 else 256 * Pow256(k - 1)
  }

  /** k * L, by repeated addition. */
  function Times(k: nat, L: nat): nat {
    if k == 0 then 0 else L + Times(k - 1, L)
  }

  lemma {:induction false} TimesIs(k: nat, L: nat)
    ensures Times(k, L) == k * L
  {
    if k > 0 {
      TimesIs(k - 1, L);
      Multiples(k, L);
    }
  }

  lemma Multiples(k: nat, L: nat)
    requires k > 0
    ensures k * L == L + (k - 1) * L
  {
  }

  lemma MulMonotone(x: nat, y: nat, f: nat)
    requires x <= y
    ensures x * f <= y * f
  {
  }

  lemma DivModLaw(k: nat, f: nat)
    requires f > 0
    ensures k == (k / f) * f + k % f
  {
  }

  lemma ModUnique(x: nat, q: nat, r: nat, f: nat)
    requires f > 0 && x == q * f + r && r < f
    ensures x % f == r
  {
    DivModLaw(x, f);
    var q', r' := x / f, x % f;
    if q' < q {
      MulMonotone(q' + 1, q, f);
    } else if q < q' {
      MulMonotone(q + 1, q', f);
    }
  }
}
