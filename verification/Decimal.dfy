/** Printing and parsing of decimal integers: Go's %d verb and strconv.Atoi. */
module Decimal {

  datatype Parsed = Number(value: int) | NotANumber

  const MAX_INT := 0x7fff_ffff_ffff_ffff
  const MIN_INT := -0x8000_0000_0000_0000

  predicate IsDigit(c: char) {
    '0' <= c <= '9'
  }

  predicate AllDigits(s: string) {
    forall i :: 0 <= i < |s| ==> IsDigit(s[i])
  }

  function Digit(d: nat): (c: char)
    requires d < 10
    ensures IsDigit(c) && DigitValue(c) == d
  {
    '0' + d as char
  }

  function DigitValue(c: char): (d: nat)
    requires IsDigit(c)
    ensures d < 10
  {
    (c - '0') as nat
  }

  function PrintNat(n: nat): (s: string)
    ensures s != [] && AllDigits(s)
  {
    if n < 10 then [Digit(n)] else PrintNat(n / 10) + [Digit(n % 10)]
  }

  /** fmt's %d */
  function Print(n: int): (s: string)
    ensures s != []
  {
    if n < 0 then "-" + PrintNat(-n) else PrintNat(n)
  }

  function DigitsValue(s: string): nat
    requires AllDigits(s)
  {
    if s == [] then 0 else 10 * DigitsValue(s[..|s| - 1]) + DigitValue(s[|s| - 1])
  }

  /** strconv.Atoi: an optional sign, at least one digit, a value that fits into 64 bits. */
  function Atoi(s: string): Parsed {
    var negative := s != [] && s[0] == '-';
    var digits := if s != [] && (s[0] == '-' || s[0] == '+') then s[1..] else s;
    if digits == [] || !AllDigits(digits) then NotANumber
    else
      var magnitude: int := DigitsValue(digits);
      var n := if negative then -magnitude else magnitude;
      if MIN_INT <= n <= MAX_INT then Number(n) else NotANumber
  }

  lemma {:induction false} PrintNatValue(n: nat)
    ensures DigitsValue(PrintNat(n)) == n
  {
    if n >= 10 {
      PrintNatValue(n / 10);
      assert PrintNat(n)[..|PrintNat(n)| - 1] == PrintNat(n / 10);
    } else {
      assert PrintNat(n)[..0] == [];
    }
  }

  /** Parsing undoes printing on the whole range of a Go `int`. */
  lemma AtoiOfPrint(n: int)
    requires MIN_INT <= n <= MAX_INT
    ensures Atoi(Print(n)) == Number(n)
  {
    PrintNatValue(if n < 0 then -n else n);
    if n < 0 {
      assert Print(n)[1..] == PrintNat(-n);
    }
  }

  lemma PrintCharacters(n: int)
    ensures forall i :: 0 <= i < |Print(n)| ==> IsDigit(Print(n)[i]) || Print(n)[i] == '-'
  {
  }

  lemma PrintInjective(m: int, n: int)
    requires Print(m) == Print(n)
    ensures m == n
  {
    PrintNatValue(if m < 0 then -m else m);
    PrintNatValue(if n < 0 then -n else n);
    if m < 0 {
      assert Print(m)[0] == '-' && Print(m)[1..] == PrintNat(-m);
    }
    if n < 0 {
      assert Print(n)[0] == '-' && Print(n)[1..] == PrintNat(-n);
    }
  }
}
