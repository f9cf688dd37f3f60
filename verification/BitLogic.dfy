/** The bitwise operators of a machine word, on the numbers it stands for. */
module BitLogic {
  import opened Pow2Facts

  /** `a or b` */
  function Or(a: nat, b: nat): nat {
    if a == 0 then b
    else if b == 0 then a
    else 2 * Or(a / 2, b / 2) + if a % 2 == 1 || b % 2 == 1 then 1 else 0
  }

  /** `a and b` */
  function And(a: nat, b: nat): nat {
    if a == 0 || b == 0 then 0
    else 2 * And(a / 2, b / 2) + if a % 2 == 1 && b % 2 == 1 then 1 else 0
  }

  lemma HalfOfMultiple(a: nat, half: nat)
    requires half > 0 && a % (2 * half) == 0
    ensures a % 2 == 0 && (a / 2) % half == 0
  {
    var q: int := a / (2 * half);
    NaturalQuotient(a, 2 * half);
    assert a == 2 * (q * half);
    DivModUnique(a / 2, half, q, 0);
  }

  /** Writing a short number into clear low bits is addition. */
  lemma {:induction false} OrIsSum(a: nat, b: nat, f: nat)
    requires a % Pow2(f) == 0 && b < Pow2(f)
    ensures Or(a, b) == a + b
  {
    if a != 0 && b != 0 {
      HalfOfMultiple(a, Pow2(f - 1));
      OrIsSum(a / 2, b / 2, f - 1);
    }
  }

  lemma SplitParity(x: nat, half: nat)
    requires half > 0
    ensures x % (2 * half) == 2 * ((x / 2) % half) + x % 2
  {
    var q: int, r := (x / 2) / half, (x / 2) % half;
    NaturalQuotient(x / 2, half);
    assert x / 2 == q * half + r;
    assert x == q * (2 * half) + (2 * r + x % 2);
    DivModUnique(x, 2 * half, q, 2 * r + x % 2);
  }

  lemma AndStep(x: nat, half: nat, y: nat)
    requires half > 0 && And(x / 2, half - 1) == y
    ensures And(x, 2 * half - 1) == 2 * y + x % 2
  {
    assert (2 * half - 1) / 2 == half - 1 && (2 * half - 1) % 2 == 1;
  }

  /** Masking with n ones is the remainder. */
  lemma {:induction false} AndMask(x: nat, n: nat)
    ensures And(x, Pow2(n) - 1) == x % Pow2(n)
  {
    hide And;
    if n == 0 {
      AndNone(x);
    } else {
      var half := Pow2(n - 1);
      AndMask(x / 2, n - 1);
      SplitParity(x, half);
      AndStep(x, half, (x / 2) % half);
    }
  }

  lemma AndNone(x: nat)
    ensures And(x, 0) == 0
  {
  }
}
