/** Division and powers of two, shared by the models. */
module Arith {

  /** Quotient and remainder are determined by `x == q * d + r`. */
  lemma DivUnique(x: int, q: int, r: int, d: int)
    requires d > 0 && 0 <= r < d && x == q * d + r
    ensures x / d == q && x % d == r
  {
    var n := q - x / d;
    assert n * d == x % d - r;
    assert n > 0 ==> n * d >= d;
    assert n < 0 ==> n * d <= -d;
  }

  lemma DivMod(x: nat, d: nat)
    requires d > 0
    ensures x == x / d * d + x % d && 0 <= x % d < d && 0 <= x / d
  {
  }

  function Pow2(n: nat): (k: nat)
    ensures k > 0
  {
    if n == 0 then 1 else 2 * Pow2(n - 1)
  }

  lemma {:induction false} Pow2Add(a: nat, b: nat)
    ensures Pow2(a + b) == Pow2(a) * Pow2(b)
  {
    if a != 0 { Pow2Add(a - 1, b); }
  }
}
