/** Powers of two and the few facts about division the bit regrouping needs. */
module Pow2Facts {

  function Pow2(n: nat): (p: nat)
    ensures p >= 1
  {
    if n == 0 then 1 else 2 * Pow2(n - 1)
  }

  lemma {:induction false} Pow2Add(a: nat, b: nat)
    ensures Pow2(a + b) == Pow2(a) * Pow2(b)
  {
    if a > 0 {
      Pow2Add(a - 1, b);
      assert Pow2(a + b) == 2 * Pow2(a - 1 + b);
    }
  }

  lemma Pow2At32()
    ensures Pow2(32) == 0x1_0000_0000
  {
    assert Pow2(8) == 256;
    Pow2Add(8, 8);
    Pow2Add(16, 16);
  }

  lemma {:induction false} Pow2Monotonic(a: nat, b: nat)
    requires a <= b
    ensures Pow2(a) <= Pow2(b)
  {
    if a < b {
      Pow2Monotonic(a, b - 1);
    }
  }

  lemma NegativeMultiple(b: nat, q: int)
    ensures q < 0 ==> b * q + b <= 0
  {
  }

  lemma NaturalQuotient(a: nat, b: nat)
    requires b > 0
    ensures a / b >= 0
  {
    var q: int := a / b;
    assert a == b * q + a % b;
    NegativeMultiple(b, q);
  }

  lemma AtLeastOneMultiple(a: int, b: int, d: nat)
    requires a < b
    ensures b * d - a * d >= d
  {
    assert b * d - a * d == (b - a) * d;
    assert (b - a) * d == d + (b - a - 1) * d;
  }

  lemma SameQuotient(k: int, m: nat, q: int, r: nat, d: nat)
    requires m < d && r < d && k * d + m == q * d + r
    ensures k == q && m == r
  {
    if k < q {
      AtLeastOneMultiple(k, q, d);
    } else if q < k {
      AtLeastOneMultiple(q, k, d);
    }
  }

  /** Quotient and remainder are determined by their sum. */
  lemma DivModUnique(n: nat, d: nat, q: int, r: nat)
    requires r < d && n == q * d + r
    ensures n / d == q && n % d == r
  {
    SameQuotient(n / d, n % d, q, r, d);
  }

  lemma ScaledBelow(r: nat, m: nat, c: nat, v: nat)
    requires r < m && v < c
    ensures r * c + v < m * c
  {
    assert (r + 1) * c <= m * c;
  }
}
