/** What the register of the checksum is: the remainder of a division of polynomials over GF(32)
    (BIP 173, section "Bech32", subsection "Checksum").  A polynomial is the string of its
    coefficients, the highest power first. */
module Bech32Field {
  import opened Bech32Checksum

  // ---------- GF(32) ----------

  /** An element times x, modulo x^5 + x^3 + 1. */
  function TimesX(a: bv8): bv8 {
    if a & 16 != 0 then (a << 1) ^ 41 else a << 1
  }

  function Keep(t: bool, a: bv8): bv8 {
    if t then a else 0
  }

  function Plus(a: bv8, b: bv8): bv8 {
    a ^ b
  }

  /** The sum of those of five elements that the bits of `b` select. */
  function Selected(b: bv8, a0: bv8, a1: bv8, a2: bv8, a3: bv8, a4: bv8): bv8 {
    Plus(Plus(Plus(Plus(Keep(b & 1 != 0, a0), Keep(b & 2 != 0, a1)), Keep(b & 4 != 0, a2)), Keep(b & 8 != 0, a3)),
         Keep(b & 16 != 0, a4))
  }

  /** The product of two elements: the multiples of `a` by the powers of x that make up `b`. */
  function Times(a: bv8, b: bv8): bv8 {
    Selected(b, a, TimesX(a), TimesX(TimesX(a)), TimesX(TimesX(TimesX(a))), TimesX(TimesX(TimesX(TimesX(a)))))
  }

  lemma TimesOne(a: bv8)
    requires a < 32
    ensures Times(1, a) == a
  {
  }

  // ---------- one step ----------

  /** The generator polynomial x^6 + 29x^5 + 22x^4 + 20x^3 + 21x^2 + 29x + 18. */
  const G: seq<bv8> := [1, 29, 22, 20, 21, 29, 18]

  /** The generators that the five bits of `top` select, added up. */
  function Chosen(top: bv8): bv32 {
    Xor(Xor(Xor(Xor(Xor(0, Pick(top & 1 != 0, 0x3b6a57b2)), Pick(top & 2 != 0, 0x26508e6d)),
                Pick(top & 4 != 0, 0x1ea119fa)), Pick(top & 8 != 0, 0x3d4233dd)), Pick(top & 16 != 0, 0x2a1462b3))
  }

  lemma BitOfTop(top: bv8, k: bv6)
    requires k < 5
    ensures k == 0 ==> ((top as bv32 >> k) & 1 != 0 <==> top & 1 != 0)
    ensures k == 1 ==> ((top as bv32 >> k) & 1 != 0 <==> top & 2 != 0)
    ensures k == 2 ==> ((top as bv32 >> k) & 1 != 0 <==> top & 4 != 0)
    ensures k == 3 ==> ((top as bv32 >> k) & 1 != 0 <==> top & 8 != 0)
    ensures k == 4 ==> ((top as bv32 >> k) & 1 != 0 <==> top & 16 != 0)
  {
  }

  lemma SmallDistances()
    ensures Distance(0) == 0 && Distance(1) == 1 && Distance(2) == 2 && Distance(3) == 3 && Distance(4) == 4
  {
  }

  lemma TapsOfTop(top: bv8)
    ensures Tap(top as bv32, 0) == (top & 1 != 0) && Tap(top as bv32, 1) == (top & 2 != 0)
    ensures Tap(top as bv32, 2) == (top & 4 != 0) && Tap(top as bv32, 3) == (top & 8 != 0)
    ensures Tap(top as bv32, 4) == (top & 16 != 0)
  {
    hide Distance;
    SmallDistances();
    BitOfTop(top, 0);
    BitOfTop(top, 1);
    BitOfTop(top, 2);
    BitOfTop(top, 3);
    BitOfTop(top, 4);
  }

  lemma MixIsChosen(top: bv8)
    ensures Mix(top as bv32, 5) == Chosen(top)
  {
    hide Xor, Pick, Tap, Mix;
    MixIsMixAll(top as bv32);
    TapsOfTop(top);
  }

  lemma SymbolOfSum(a: bv32, b: bv32, i: nat)
    requires i < 6
    ensures ChecksumSymbol(Xor(a, b), i) == Plus(ChecksumSymbol(a, i), ChecksumSymbol(b, i))
  {
    if i == 0 {
    } else if i == 1 {
    } else if i == 2 {
    } else if i == 3 {
    } else if i == 4 {
    } else {
    }
  }

  lemma SymbolOfPick(t: bool, g: bv32, i: nat)
    requires i < 6
    ensures ChecksumSymbol(Pick(t, g), i) == Keep(t, ChecksumSymbol(g, i))
  {
    if i == 0 {
    } else if i == 1 {
    } else if i == 2 {
    } else if i == 3 {
    } else if i == 4 {
    } else {
    }
  }

  lemma SymbolOfFive(t0: bool, t1: bool, t2: bool, t3: bool, t4: bool,
                     g0: bv32, g1: bv32, g2: bv32, g3: bv32, g4: bv32, i: nat)
    requires i < 6
    ensures ChecksumSymbol(Xor(Xor(Xor(Xor(Xor(0, Pick(t0, g0)), Pick(t1, g1)), Pick(t2, g2)), Pick(t3, g3)), Pick(t4, g4)), i)
         == Plus(Plus(Plus(Plus(Keep(t0, ChecksumSymbol(g0, i)), Keep(t1, ChecksumSymbol(g1, i))), Keep(t2, ChecksumSymbol(g2, i))),
                      Keep(t3, ChecksumSymbol(g3, i))), Keep(t4, ChecksumSymbol(g4, i)))
  {
    hide *;
    var a, b, c, d, e := Pick(t0, g0), Pick(t1, g1), Pick(t2, g2), Pick(t3, g3), Pick(t4, g4);
    XorUnit(a);
    SymbolOfPick(t0, g0, i);
    SymbolOfPick(t1, g1, i);
    SymbolOfPick(t2, g2, i);
    SymbolOfPick(t3, g3, i);
    SymbolOfPick(t4, g4, i);
    SymbolOfSum(a, b, i);
    SymbolOfSum(Xor(a, b), c, i);
    SymbolOfSum(Xor(Xor(a, b), c), d, i);
    SymbolOfSum(Xor(Xor(Xor(a, b), c), d), e, i);
  }

  lemma SymbolOfChosen(top: bv8, i: nat)
    requires i < 6
    ensures ChecksumSymbol(Chosen(top), i)
         == Selected(top, ChecksumSymbol(0x3b6a57b2, i), ChecksumSymbol(0x26508e6d, i), ChecksumSymbol(0x1ea119fa, i),
                     ChecksumSymbol(0x3d4233dd, i), ChecksumSymbol(0x2a1462b3, i))
  {
    hide Pick, Xor, ChecksumSymbol, Keep, Plus;
    SymbolOfFive(top & 1 != 0, top & 2 != 0, top & 4 != 0, top & 8 != 0, top & 16 != 0,
                 0x3b6a57b2, 0x26508e6d, 0x1ea119fa, 0x3d4233dd, 0x2a1462b3, i);
  }

  /** Coefficient 29: the five constants hold its products with the powers of x. */
  lemma Multiples0()
    ensures ChecksumSymbol(0x3b6a57b2, 0) == 29 && ChecksumSymbol(0x26508e6d, 0) == TimesX(29)
    ensures ChecksumSymbol(0x1ea119fa, 0) == TimesX(TimesX(29))
    ensures ChecksumSymbol(0x3d4233dd, 0) == TimesX(TimesX(TimesX(29)))
    ensures ChecksumSymbol(0x2a1462b3, 0) == TimesX(TimesX(TimesX(TimesX(29))))
  {
  }

  /** Coefficient 22: the five constants hold its products with the powers of x. */
  lemma Multiples1()
    ensures ChecksumSymbol(0x3b6a57b2, 1) == 22 && ChecksumSymbol(0x26508e6d, 1) == TimesX(22)
    ensures ChecksumSymbol(0x1ea119fa, 1) == TimesX(TimesX(22))
    ensures ChecksumSymbol(0x3d4233dd, 1) == TimesX(TimesX(TimesX(22)))
    ensures ChecksumSymbol(0x2a1462b3, 1) == TimesX(TimesX(TimesX(TimesX(22))))
  {
  }

  /** Coefficient 20: the five constants hold its products with the powers of x. */
  lemma Multiples2()
    ensures ChecksumSymbol(0x3b6a57b2, 2) == 20 && ChecksumSymbol(0x26508e6d, 2) == TimesX(20)
    ensures ChecksumSymbol(0x1ea119fa, 2) == TimesX(TimesX(20))
    ensures ChecksumSymbol(0x3d4233dd, 2) == TimesX(TimesX(TimesX(20)))
    ensures ChecksumSymbol(0x2a1462b3, 2) == TimesX(TimesX(TimesX(TimesX(20))))
  {
  }

  /** Coefficient 21: the five constants hold its products with the powers of x. */
  lemma Multiples3()
    ensures ChecksumSymbol(0x3b6a57b2, 3) == 21 && ChecksumSymbol(0x26508e6d, 3) == TimesX(21)
    ensures ChecksumSymbol(0x1ea119fa, 3) == TimesX(TimesX(21))
    ensures ChecksumSymbol(0x3d4233dd, 3) == TimesX(TimesX(TimesX(21)))
    ensures ChecksumSymbol(0x2a1462b3, 3) == TimesX(TimesX(TimesX(TimesX(21))))
  {
  }

  /** Coefficient 29: the five constants hold its products with the powers of x. */
  lemma Multiples4()
    ensures ChecksumSymbol(0x3b6a57b2, 4) == 29 && ChecksumSymbol(0x26508e6d, 4) == TimesX(29)
    ensures ChecksumSymbol(0x1ea119fa, 4) == TimesX(TimesX(29))
    ensures ChecksumSymbol(0x3d4233dd, 4) == TimesX(TimesX(TimesX(29)))
    ensures ChecksumSymbol(0x2a1462b3, 4) == TimesX(TimesX(TimesX(TimesX(29))))
  {
  }

  /** Coefficient 18: the five constants hold its products with the powers of x. */
  lemma Multiples5()
    ensures ChecksumSymbol(0x3b6a57b2, 5) == 18 && ChecksumSymbol(0x26508e6d, 5) == TimesX(18)
    ensures ChecksumSymbol(0x1ea119fa, 5) == TimesX(TimesX(18))
    ensures ChecksumSymbol(0x3d4233dd, 5) == TimesX(TimesX(TimesX(18)))
    ensures ChecksumSymbol(0x2a1462b3, 5) == TimesX(TimesX(TimesX(TimesX(18))))
  {
  }

  /** The constants of the source, symbol by symbol, are the multiples of the generator's coefficients. */
  lemma Multiples(i: nat)
    requires i < 6
    ensures ChecksumSymbol(0x3b6a57b2, i) == G[i + 1] && ChecksumSymbol(0x26508e6d, i) == TimesX(G[i + 1])
    ensures ChecksumSymbol(0x1ea119fa, i) == TimesX(TimesX(G[i + 1]))
    ensures ChecksumSymbol(0x3d4233dd, i) == TimesX(TimesX(TimesX(G[i + 1])))
    ensures ChecksumSymbol(0x2a1462b3, i) == TimesX(TimesX(TimesX(TimesX(G[i + 1]))))
  {
    hide TimesX, ChecksumSymbol;
    if i == 0 {
      Multiples0();
    } else if i == 1 {
      Multiples1();
    } else if i == 2 {
      Multiples2();
    } else if i == 3 {
      Multiples3();
    } else if i == 4 {
      Multiples4();
    } else {
      Multiples5();
    }
  }

  /** The five constants of the source and the loop over the bits of `top` multiply `top` by the lower
      coefficients of the generator. */
  lemma MixIsProduct(top: bv8, i: nat)
    requires i < 6
    ensures ChecksumSymbol(Mix(top as bv32, 5), i) == Times(G[i + 1], top)
  {
    hide Mix, Chosen, Selected, TimesX, ChecksumSymbol, G;
    MixIsChosen(top);
    SymbolOfChosen(top, i);
    Multiples(i);
  }

  // ---------- one step ----------

  lemma TopSymbol(chk: bv32)
    requires chk < LIMIT
    ensures ChecksumSymbol(chk, 0) as bv32 == chk >> 25 && ChecksumSymbol(chk, 0) < 32
  {
  }

  lemma SymbolOfShift(chk: bv32, b: bv8, i: nat)
    requires i < 6 && b < 32
    ensures ChecksumSymbol(Xor(Shift(chk), Widen(b)), i) == if i < 5 then ChecksumSymbol(chk, i + 1) else b
  {
    if i == 0 {
    } else if i == 1 {
    } else if i == 2 {
    } else if i == 3 {
    } else if i == 4 {
    } else {
    }
  }

  /** A step of the register: the symbols move up by one power, and the one that leaves at the top comes
      back multiplied by the generator. */
  lemma StepIsDivision(chk: bv32, b: bv8, i: nat)
    requires chk < LIMIT && b < 32 && i < 6
    ensures ChecksumSymbol(Step(chk, b), i)
         == Plus(if i < 5 then ChecksumSymbol(chk, i + 1) else b, Times(G[i + 1], ChecksumSymbol(chk, 0)))
  {
    hide Mix, Shift, Widen, Xor, ChecksumSymbol, Times, Plus, G;
    TopSymbol(chk);
    MixIsProduct(ChecksumSymbol(chk, 0), i);
    SymbolOfShift(chk, b, i);
    SymbolOfSum(Xor(Shift(chk), Widen(b)), Mix(chk >> 25, 5), i);
  }

  // ---------- division with remainder ----------

  /** A polynomial plus one that is not longer. */
  function AddLow(p: seq<bv8>, r: seq<bv8>): (s: seq<bv8>)
    requires |r| <= |p|
    ensures |s| == |p|
  {
    seq(|p|, i requires 0 <= i < |p| => if i < |p| - |r| then p[i] else Plus(p[i], r[i - (|p| - |r|)]))
  }

  function Scaled(c: bv8): (s: seq<bv8>)
    ensures |s| == 7
  {
    seq(7, i requires 0 <= i < 7 => Times(G[i], c))
  }

  /** The product of `q` and the generator. */
  function Product(q: seq<bv8>): (p: seq<bv8>)
    ensures |p| == |q| + 6
  {
    if q == [] then Zeros(6)
    else AddLow(Product(q[..|q| - 1]) + [0], Scaled(q[|q| - 1]))
  }

  /** The string that polymod divides: its starting value 1 in six symbols, then the input. */
  function Dividend(s: seq<bv8>): seq<bv8> {
    [0, 0, 0, 0, 0, 1] + s
  }

  /** The symbols that leave the register at the top. */
  function Quotient(s: seq<bv8>): (q: seq<bv8>)
    ensures |q| == |s|
  {
    if s == [] then []
    else Quotient(s[..|s| - 1]) + [ChecksumSymbol(Feed(1, s[..|s| - 1]), 0)]
  }

  lemma PlusFacts(a: bv8, b: bv8)
    ensures Plus(Plus(a, b), b) == a && Plus(a, b) == Plus(b, a) && Plus(a, 0) == a
  {
  }

  lemma PlusShuffle(x: bv8, y: bv8, t: bv8)
    ensures Plus(Plus(0, t), Plus(y, t)) == y
    ensures Plus(Plus(x, t), Plus(y, t)) == Plus(x, y)
  {
  }

  /** Bringing down one symbol. */
  lemma DivisionStep(p: seq<bv8>, chk: bv32, b: bv8)
    requires |p| >= 6 && chk < LIMIT && b < 32
    ensures AddLow(p, ChecksumSymbols(chk)) + [b]
         == AddLow(AddLow(p + [0], Scaled(ChecksumSymbol(chk, 0))), ChecksumSymbols(Step(chk, b)))
  {
    hide Step, ChecksumSymbol, Times, Plus, G;
    var n, c := |p| + 1, ChecksumSymbol(chk, 0);
    var left, inner := AddLow(p, ChecksumSymbols(chk)) + [b], AddLow(p + [0], Scaled(c));
    var right := AddLow(inner, ChecksumSymbols(Step(chk, b)));
    LeadingOne();
    forall k | 0 <= k < n ensures left[k] == right[k] {
      DivisionAt(p, chk, b, k);
    }
  }

  lemma LeadingOne()
    ensures |G| == 7 && G[0] == 1
  {
  }

  lemma DivisionAt(p: seq<bv8>, chk: bv32, b: bv8, k: nat)
    requires |p| >= 6 && chk < LIMIT && b < 32 && k <= |p|
    ensures (AddLow(p, ChecksumSymbols(chk)) + [b])[k]
         == AddLow(AddLow(p + [0], Scaled(ChecksumSymbol(chk, 0))), ChecksumSymbols(Step(chk, b)))[k]
  {
    hide Step, ChecksumSymbol, Times, Plus, G;
    var n, c := |p| + 1, ChecksumSymbol(chk, 0);
    TopSymbol(chk);
    LeadingOne();
    TimesOne(c);
    if k == n - 7 {
    } else if k > n - 7 {
      var i := k - (n - 6);
      StepIsDivision(chk, b, i);
      PlusShuffle(if k < |p| then p[k] else 0, if i < 5 then ChecksumSymbol(chk, i + 1) else b, Times(G[i + 1], c));
      PlusFacts(b, 0);
      PlusFacts(0, b);
    }
  }

  /** The register is the remainder: the input is a multiple of the generator plus the six symbols of
      the register. */
  lemma {:induction false} FeedIsRemainder(s: seq<bv8>)
    requires Symbols(s)
    ensures Dividend(s) == AddLow(Product(Quotient(s)), ChecksumSymbols(Feed(1, s)))
  {
    hide Feed, Step, ChecksumSymbol, Scaled, Plus;
    OneBound();
    if s == [] {
      NothingDivided();
    } else {
      var n := |s| - 1;
      FeedIsRemainder(s[..n]);
      FeedBound(1, s[..n]);
      FeedLast(1, s, n);
      DivisionStep(Product(Quotient(s[..n])), Feed(1, s[..n]), s[n]);
      assert Dividend(s) == Dividend(s[..n]) + [s[n]];
      assert Quotient(s)[..n] == Quotient(s[..n]);
    }
  }

  lemma NothingDivided()
    ensures Dividend([]) == AddLow(Product(Quotient([])), ChecksumSymbols(Feed(1, [])))
  {
    assert Feed(1, []) == 1;
    OneInSymbols();
    hide Feed, ChecksumSymbol;
    forall i | 0 <= i < 6 ensures Plus(0, ChecksumSymbols(1)[i]) == Dividend([])[i] {
      PlusFacts(ChecksumSymbols(1)[i], 0);
      PlusFacts(0, ChecksumSymbols(1)[i]);
    }
  }

  lemma OneInSymbols()
    ensures ChecksumSymbols(1) == [0, 0, 0, 0, 0, 1]
  {
  }

  /** BIP 173's definition: prefix, data and checksum are a multiple of the generator plus 1. */
  lemma ChecksumDivides(values: seq<bv8>)
    requires Symbols(values)
    ensures var s := values + Checksum(values);
            Dividend(s) == AddLow(Product(Quotient(s)), [0, 0, 0, 0, 0, 1])
  {
    hide Feed, Checksum, Product, Quotient;
    var s := values + Checksum(values);
    ChecksumIsSymbols(values);
    ChecksumVerifies(values);
    FeedIsRemainder(s);
    OneInSymbols();
  }

  // ---------- the remainder is unique ----------

  lemma KeepSmall(t: bool, a: bv8)
    requires a < 32
    ensures TimesX(a) < 32 && Keep(t, a) < 32
  {
  }

  lemma PlusSmall(a: bv8, b: bv8)
    requires a < 32 && b < 32
    ensures Plus(a, b) < 32
  {
  }

  lemma FiveSmall(t0: bool, t1: bool, t2: bool, t3: bool, t4: bool, a0: bv8, a1: bv8, a2: bv8, a3: bv8, a4: bv8)
    requires a0 < 32 && a1 < 32 && a2 < 32 && a3 < 32 && a4 < 32
    ensures Plus(Plus(Plus(Plus(Keep(t0, a0), Keep(t1, a1)), Keep(t2, a2)), Keep(t3, a3)), Keep(t4, a4)) < 32
  {
    hide *;
    KeepSmall(t0, a0);
    KeepSmall(t1, a1);
    KeepSmall(t2, a2);
    KeepSmall(t3, a3);
    KeepSmall(t4, a4);
    PlusSmall(Keep(t0, a0), Keep(t1, a1));
    PlusSmall(Plus(Keep(t0, a0), Keep(t1, a1)), Keep(t2, a2));
    PlusSmall(Plus(Plus(Keep(t0, a0), Keep(t1, a1)), Keep(t2, a2)), Keep(t3, a3));
    PlusSmall(Plus(Plus(Plus(Keep(t0, a0), Keep(t1, a1)), Keep(t2, a2)), Keep(t3, a3)), Keep(t4, a4));
  }

  lemma SelectedSmall(b: bv8, a0: bv8, a1: bv8, a2: bv8, a3: bv8, a4: bv8)
    requires a0 < 32 && a1 < 32 && a2 < 32 && a3 < 32 && a4 < 32
    ensures Selected(b, a0, a1, a2, a3, a4) < 32
  {
    hide Plus, Keep;
    FiveSmall(b & 1 != 0, b & 2 != 0, b & 4 != 0, b & 8 != 0, b & 16 != 0, a0, a1, a2, a3, a4);
  }

  lemma TimesSmall(a: bv8, b: bv8)
    requires a < 32
    ensures Times(a, b) < 32
  {
    hide TimesX, Selected;
    KeepSmall(true, a);
    KeepSmall(true, TimesX(a));
    KeepSmall(true, TimesX(TimesX(a)));
    KeepSmall(true, TimesX(TimesX(TimesX(a))));
    SelectedSmall(b, a, TimesX(a), TimesX(TimesX(a)), TimesX(TimesX(TimesX(a))), TimesX(TimesX(TimesX(TimesX(a)))));
  }

  lemma GeneratorSymbols()
    ensures Symbols(G) && |G| == 7
  {
  }

  lemma ScaledSymbols(c: bv8)
    ensures Symbols(Scaled(c))
  {
    GeneratorSymbols();
    hide Times, G;
    forall i | 0 <= i < 7 ensures Times(G[i], c) < 32 {
      TimesSmall(G[i], c);
    }
  }

  /** Six symbols and the register they fill determine each other. */
  lemma SymbolsOfRegister(w: seq<bv8>)
    requires |w| == 6 && Symbols(w)
    ensures Feed(0, w) < LIMIT && ChecksumSymbols(Feed(0, w)) == w
  {
    hide Feed, ChecksumSymbols;
    var m := Feed(0, w);
    ZeroBound();
    FeedBound(0, w);
    FeedChecksumSymbols(m);
    RegisterSymbols(m);
    assert [] + w + [] == w && [] + ChecksumSymbols(m) + [] == ChecksumSymbols(m);
    if ChecksumSymbols(m) != w {
      BurstDetected(0, [], ChecksumSymbols(m), w, []);
      assert false;
    }
  }

  lemma RegisterSymbols(m: bv32)
    ensures Symbols(ChecksumSymbols(m))
  {
    hide ChecksumSymbol;
    forall i: nat | i < 6 ensures ChecksumSymbol(m, i) < 32 {
      ChecksumSymbolBound(m, i);
    }
  }

  lemma ZeroRegister(m: bv32)
    requires m < LIMIT && forall i: nat :: i < 6 ==> ChecksumSymbol(m, i) == 0
    ensures m == 0
  {
    hide ChecksumSymbol, Feed;
    FeedChecksumSymbols(m);
    assert ChecksumSymbols(m) == Zeros(6);
    PileUp(Zeros(6));
  }

  /** A multiple of the generator by one symbol leaves nothing in the register. */
  lemma ScaledVanishes(c: bv8)
    requires c < 32
    ensures Feed(0, Scaled(c)) == 0
  {
    hide Feed, Step, ChecksumSymbol, Times, Plus, G;
    var s := Scaled(c);
    var w := s[..6];
    ScaledSymbols(c);
    SymbolsOfRegister(w);
    var chk := Feed(0, w);
    FeedLast(0, s, 6);
    LeadingOne();
    TimesOne(c);
    assert forall i: nat :: i < 6 ==> ChecksumSymbol(chk, i) == w[i];
    forall i: nat | i < 6 ensures ChecksumSymbol(Step(chk, s[6]), i) == 0 {
      StepIsDivision(chk, s[6], i);
      PlusSelf(s[i + 1]);
    }
    StepBound(chk, s[6]);
    ZeroRegister(Step(chk, s[6]));
  }

  lemma PlusSelf(a: bv8)
    ensures Plus(a, a) == 0 && Plus(a, 0) == a && Plus(a, a) == a ^ a && Plus(0, a) == a
  {
  }

  lemma AddLowIsSum(p: seq<bv8>, r: seq<bv8>)
    requires |r| <= |p|
    ensures AddLow(p, r) == Sum(p, Zeros(|p| - |r|) + r)
  {
    hide Plus;
    var padded := Zeros(|p| - |r|) + r;
    assert |padded| == |p|;
    forall i | 0 <= i < |p| ensures AddLow(p, r)[i] == p[i] ^ padded[i] {
      PlusIsXor(p[i], padded[i]);
      PlusSelf(p[i]);
    }
  }

  /** Feeding a sum, with the register empty: leading zeros do not count. */
  lemma FeedAddLow(p: seq<bv8>, r: seq<bv8>)
    requires |r| <= |p|
    ensures Feed(0, AddLow(p, r)) == Xor(Feed(0, p), Feed(0, r))
  {
    hide *;
    var zeros := Zeros(|p| - |r|);
    AddLowIsSum(p, r);
    XorUnit(0);
    FeedLinear(0, 0, p, zeros + r);
    FeedAppend(0, zeros, r);
    FeedZeros(|p| - |r|);
  }

  lemma PlusIsXor(a: bv8, b: bv8)
    ensures Plus(a, b) == a ^ b
  {
  }

  lemma StepZero()
    ensures Step(0, 0) == 0
  {
    hide Step;
    StepWithRoom(0, 0);
  }

  lemma {:induction false} FeedZeros(n: nat)
    ensures Feed(0, Zeros(n)) == 0
  {
    hide Step;
    if n > 0 {
      FeedZeros(n - 1);
      assert Zeros(n)[..n - 1] == Zeros(n - 1);
      StepZero();
    }
  }

  /** Multiples of the generator leave nothing in the register. */
  lemma {:induction false} ProductVanishes(q: seq<bv8>)
    requires Symbols(q)
    ensures Feed(0, Product(q)) == 0
  {
    hide Feed, Scaled, Xor, Step;
    if q == [] {
      FeedZeros(6);
    } else {
      var n := |q| - 1;
      ProductVanishes(q[..n]);
      FeedAppend(0, Product(q[..n]), [0]);
      FeedOne(0, 0);
      StepZero();
      ScaledVanishes(q[n]);
      FeedAddLow(Product(q[..n]) + [0], Scaled(q[n]));
      XorUnit(0);
    }
  }

  lemma QuotientSymbols(s: seq<bv8>)
    ensures Symbols(Quotient(s))
  {
    hide ChecksumSymbol, Feed;
    if s != [] {
      QuotientSymbols(s[..|s| - 1]);
      ChecksumSymbolBound(Feed(1, s[..|s| - 1]), 0);
    }
  }

  /** Whatever the quotient: the register holds the six symbols that are left over. */
  lemma RemainderUnique(s: seq<bv8>, q: seq<bv8>, r: seq<bv8>)
    requires Symbols(q) && Symbols(r) && |q| == |s| && |r| == 6
    requires Dividend(s) == AddLow(Product(q), r)
    ensures Feed(1, s) == Feed(0, r) && ChecksumSymbols(Feed(1, s)) == r
  {
    hide Feed, Product, Xor, ChecksumSymbols;
    ProductVanishes(q);
    FeedAddLow(Product(q), r);
    XorUnit(Feed(0, r));
    OneBound();
    OneInSymbols();
    FeedChecksumSymbols(1);
    FeedAppend(0, [0, 0, 0, 0, 0, 1], s);
    SymbolsOfRegister(r);
  }

  /** The reader's test accepts exactly the strings that are a multiple of the generator plus 1. */
  lemma AcceptsExactlyCodewords(s: seq<bv8>)
    requires Symbols(s)
    ensures Feed(1, s) == 1 <==>
            exists q :: Symbols(q) && |q| == |s| && Dividend(s) == AddLow(Product(q), [0, 0, 0, 0, 0, 1])
  {
    hide Feed, Product, Quotient, ChecksumSymbols, AddLow;
    OneInSymbols();
    OneBound();
    if Feed(1, s) == 1 {
      FeedIsRemainder(s);
      QuotientSymbols(s);
    }
    if q :| Symbols(q) && |q| == |s| && Dividend(s) == AddLow(Product(q), [0, 0, 0, 0, 0, 1]) {
      RemainderUnique(s, q, [0, 0, 0, 0, 0, 1]);
      FeedChecksumSymbols(1);
    }
  }
}
