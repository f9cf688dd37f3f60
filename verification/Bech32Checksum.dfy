/** The checksum of the Bech32 encoder (SecureStore.kt, Bech32.polymod and createChecksum; BIP 173,
    section "Bech32", subsection "Checksum").

    The register is a Kotlin `Int`, here a `bv32`.  The generator loop is specified by `Mix`, one
    symbol by `Step`, a symbol string by `Feed`.  Everything below rests on two facts: `Feed` is
    linear over GF(2), and a `Step` with symbol 0 loses no information about a 30-bit register. */
module Bech32Checksum {
  import opened Bytes

  const GEN: seq<bv32> := [0x3b6a57b2, 0x26508e6d, 0x1ea119fa, 0x3d4233dd, 0x2a1462b3]

  function Xor(a: bv32, b: bv32): bv32 {
    a ^ b
  }

  /** A shift distance as the machine word sees it. */
  function Distance(n: nat): (d: bv6)
    requires n <= 32
    ensures d <= 32 && (n < 5 ==> d < 5)
  {
    n as bv6
  }

  // ---------- specification ----------

  /** Bit `i` of the five bits that left the register. */
  predicate Tap(top: bv32, i: nat)
    requires i < 5
  {
    (top >> Distance(i)) & 1 != 0
  }

  function Pick(t: bool, g: bv32): bv32 {
    if t then g else 0
  }

  /** The generators selected by the first `i` taps, added up. */
  function Mix(top: bv32, i: nat): bv32
    requires i <= 5
  {
    if i == 0 then 0 else Xor(Mix(top, i - 1), Pick(Tap(top, i - 1), GEN[i - 1]))
  }

  function Shift(chk: bv32): bv32 {
    (chk & 0x1ffffff) << 5
  }

  function Widen(b: bv8): bv32 {
    b as bv32 & 0xff
  }

  function Step(chk: bv32, b: bv8): bv32 {
    Xor(Xor(Shift(chk), Widen(b)), Mix(chk >> 25, 5))
  }

  /** The register after the symbols of `s`. */
  function Feed(chk: bv32, s: seq<bv8>): bv32 {
    if s == [] then chk else Step(Feed(chk, s[..|s| - 1]), s[|s| - 1])
  }

  // ---------- GF(2)-linearity ----------

  lemma XorUnit(a: bv32)
    ensures Xor(a, a) == 0 && Xor(a, 0) == a && Xor(0, a) == a
  {
  }

  lemma XorComm(a: bv32, b: bv32)
    ensures Xor(a, b) == Xor(b, a)
  {
  }

  lemma XorAssoc(a: bv32, b: bv32, c: bv32)
    ensures Xor(Xor(a, b), c) == Xor(a, Xor(b, c))
  {
  }

  lemma XorZero(a: bv32, b: bv32)
    ensures Xor(a, b) == 0 <==> a == b
  {
  }

  lemma XorSwap(a: bv32, b: bv32, c: bv32, d: bv32)
    ensures Xor(Xor(a, b), Xor(c, d)) == Xor(Xor(a, c), Xor(b, d))
  {
    hide Xor;
    XorAssoc(a, b, Xor(c, d));
    XorAssoc(b, c, d);
    XorComm(b, c);
    XorAssoc(c, b, d);
    XorAssoc(a, c, Xor(b, d));
  }

  lemma PickLinear(s: bool, t: bool, g: bv32)
    ensures Pick(s != t, g) == Xor(Pick(s, g), Pick(t, g))
  {
    XorUnit(g);
    XorUnit(0);
  }

  lemma ShiftedBitLinear(a: bv32, b: bv32, k: bv6)
    requires k < 5
    ensures ((a ^ b) >> k) & 1 != 0 <==> ((a >> k) & 1 != 0) != ((b >> k) & 1 != 0)
  {
  }

  lemma TapLinear(a: bv32, b: bv32, i: nat)
    requires i < 5
    ensures Tap(Xor(a, b), i) <==> Tap(a, i) != Tap(b, i)
  {
    hide Distance;
    ShiftedBitLinear(a, b, Distance(i));
  }

  lemma {:induction false} MixLinear(a: bv32, b: bv32, i: nat)
    requires i <= 5
    ensures Mix(Xor(a, b), i) == Xor(Mix(a, i), Mix(b, i))
  {
    hide Xor, Pick, Tap;
    if i == 0 {
      XorUnit(0);
    } else {
      MixLinear(a, b, i - 1);
      TapLinear(a, b, i - 1);
      PickLinear(Tap(a, i - 1), Tap(b, i - 1), GEN[i - 1]);
      XorSwap(Mix(a, i - 1), Mix(b, i - 1), Pick(Tap(a, i - 1), GEN[i - 1]), Pick(Tap(b, i - 1), GEN[i - 1]));
    }
  }

  lemma ShiftLinear(a: bv32, b: bv32)
    ensures Shift(Xor(a, b)) == Xor(Shift(a), Shift(b))
    ensures Xor(a, b) >> 25 == Xor(a >> 25, b >> 25)
  {
  }

  lemma WidenLinear(x: bv8, y: bv8)
    ensures Widen(x ^ y) == Xor(Widen(x), Widen(y))
  {
  }

  lemma StepLinear(a: bv32, b: bv32, x: bv8, y: bv8)
    ensures Step(Xor(a, b), x ^ y) == Xor(Step(a, x), Step(b, y))
  {
    hide Xor, Shift, Widen, Mix;
    ShiftLinear(a, b);
    WidenLinear(x, y);
    MixLinear(a >> 25, b >> 25, 5);
    XorSwap(Shift(a), Shift(b), Widen(x), Widen(y));
    XorSwap(Xor(Shift(a), Widen(x)), Xor(Shift(b), Widen(y)), Mix(a >> 25, 5), Mix(b >> 25, 5));
  }

  /** Symbol-wise sum of two strings. */
  ghost function Sum(s: seq<bv8>, t: seq<bv8>): seq<bv8>
    requires |s| == |t|
  {
    seq(|s|, i requires 0 <= i < |s| => s[i] ^ t[i])
  }

  lemma {:induction false} FeedLinear(a: bv32, b: bv32, s: seq<bv8>, t: seq<bv8>)
    requires |s| == |t|
    ensures Feed(Xor(a, b), Sum(s, t)) == Xor(Feed(a, s), Feed(b, t))
  {
    hide Xor, Step;
    if |s| > 0 {
      var n := |s| - 1;
      assert Sum(s, t)[..n] == Sum(s[..n], t[..n]);
      FeedLinear(a, b, s[..n], t[..n]);
      StepLinear(Feed(a, s[..n]), Feed(b, t[..n]), s[n], t[n]);
    }
  }

  // ---------- a step with symbol 0 is injective on 30 bits ----------

  const LIMIT: bv32 := 0x4000_0000

  /** The five selected generators, spelled out. */
  function MixAll(top: bv32): bv32 {
    Xor(Xor(Xor(Xor(Xor(0, Pick(Tap(top, 0), 0x3b6a57b2)), Pick(Tap(top, 1), 0x26508e6d)),
                Pick(Tap(top, 2), 0x1ea119fa)), Pick(Tap(top, 3), 0x3d4233dd)), Pick(Tap(top, 4), 0x2a1462b3))
  }

  lemma MixIsMixAll(top: bv32)
    ensures Mix(top, 5) == MixAll(top)
  {
    hide Xor, Pick, Tap;
    assert Mix(top, 0) == 0;
    assert Mix(top, 1) == Xor(Mix(top, 0), Pick(Tap(top, 0), GEN[0]));
    assert Mix(top, 2) == Xor(Mix(top, 1), Pick(Tap(top, 1), GEN[1]));
    assert Mix(top, 3) == Xor(Mix(top, 2), Pick(Tap(top, 2), GEN[2]));
    assert Mix(top, 4) == Xor(Mix(top, 3), Pick(Tap(top, 3), GEN[3]));
    assert Mix(top, 5) == Xor(Mix(top, 4), Pick(Tap(top, 4), GEN[4]));
  }

  lemma MixAllBound(top: bv32)
    ensures MixAll(top) < LIMIT
  {
  }

  /** The low five bits of the generators are linearly independent. */
  lemma MixAllLowBits(top: bv32)
    requires top < 32 && MixAll(top) & 31 == 0
    ensures top == 0
  {
  }

  lemma MixAllNone()
    ensures MixAll(0) == 0
  {
  }

  lemma XorBound(a: bv32, b: bv32, c: bv32)
    requires a < LIMIT && b < LIMIT && c < LIMIT
    ensures Xor(Xor(a, b), c) < LIMIT
  {
  }

  lemma ShiftAndWidenBound(chk: bv32, b: bv8)
    ensures Shift(chk) < LIMIT && Widen(b) < LIMIT
  {
  }

  lemma StepBound(chk: bv32, b: bv8)
    ensures Step(chk, b) < LIMIT
  {
    hide Shift, Widen, Mix, Xor, MixAll;
    MixIsMixAll(chk >> 25);
    MixAllBound(chk >> 25);
    ShiftAndWidenBound(chk, b);
    XorBound(Shift(chk), Widen(b), Mix(chk >> 25, 5));
  }

  lemma {:induction false} FeedBound(chk: bv32, s: seq<bv8>)
    requires chk < LIMIT
    ensures Feed(chk, s) < LIMIT
  {
    hide Step;
    if |s| > 0 {
      StepBound(Feed(chk, s[..|s| - 1]), s[|s| - 1]);
    }
  }

  lemma LowBitsOfZeroSum(shifted: bv32, mix: bv32)
    requires shifted & 31 == 0 && Xor(Xor(shifted, 0), mix) == 0
    ensures mix & 31 == 0
  {
  }

  lemma ShiftLowBits(chk: bv32)
    ensures Shift(chk) & 31 == 0
  {
  }

  lemma ShiftZero(chk: bv32)
    requires chk < LIMIT && chk >> 25 == 0 && Shift(chk) == 0
    ensures chk == 0
  {
  }

  lemma TopBound(chk: bv32)
    requires chk < LIMIT
    ensures chk >> 25 < 32
  {
  }

  lemma WidenZero()
    ensures Widen(0) == 0
  {
  }

  lemma StepKernel(chk: bv32)
    requires chk < LIMIT && Step(chk, 0) == 0
    ensures chk == 0
  {
    hide Shift, Widen, Mix, Xor, MixAll;
    WidenZero();
    MixIsMixAll(chk >> 25);
    ShiftLowBits(chk);
    LowBitsOfZeroSum(Shift(chk), Mix(chk >> 25, 5));
    TopBound(chk);
    MixAllLowBits(chk >> 25);
    MixAllNone();
    XorUnit(Shift(chk));
    ShiftZero(chk);
  }

  // ---------- few symbols fed into an empty register just pile up ----------

  /** Registers that have room for one more symbol in 30 bits. */
  lemma StepWithRoom(chk: bv32, b: bv8)
    requires chk < 0x200_0000
    ensures Step(chk, b) == (chk << 5) ^ (b as bv32)
  {
    hide Shift, Widen, Mix, Xor, MixAll;
    TopOfSmall(chk);
    MixIsMixAll(chk >> 25);
    MixAllNone();
    XorUnit(Xor(Shift(chk), Widen(b)));
    ShiftOfSmall(chk, b);
  }

  lemma TopOfSmall(chk: bv32)
    requires chk < 0x200_0000
    ensures chk >> 25 == 0
  {
  }

  lemma ShiftOfSmall(chk: bv32, b: bv8)
    requires chk < 0x200_0000
    ensures Xor(Shift(chk), Widen(b)) == (chk << 5) ^ (b as bv32)
  {
  }

  ghost predicate Symbols(s: seq<bv8>) {
    forall i :: 0 <= i < |s| ==> s[i] < 32
  }

  /** The register occupies at most `n` symbols. */
  predicate Fits(chk: bv32, n: nat)
    requires n <= 6
  {
    if n == 0 then chk < 1
    else if n == 1 then chk < 0x20
    else if n == 2 then chk < 0x400
    else if n == 3 then chk < 0x8000
    else if n == 4 then chk < 0x10_0000
    else if n == 5 then chk < 0x200_0000
    else chk < LIMIT
  }

  lemma FitsHasRoom(chk: bv32, n: nat)
    requires n < 6 && Fits(chk, n)
    ensures chk < 0x200_0000
  {
  }

  lemma PileOne(chk: bv32, b: bv8)
    requires chk < 0x200_0000 && b < 32
    ensures (chk << 5) ^ (b as bv32) == 0 <==> chk == 0 && b == 0
  {
  }

  lemma PileFits(chk: bv32, n: nat, b: bv8)
    requires n < 6 && Fits(chk, n) && b < 32
    ensures Fits((chk << 5) ^ (b as bv32), n + 1)
  {
    if n == 0 {
    } else if n == 1 {
    } else if n == 2 {
    } else if n == 3 {
    } else if n == 4 {
    } else {
    }
  }

  ghost predicate AllZero(s: seq<bv8>) {
    forall i :: 0 <= i < |s| ==> s[i] == 0
  }

  lemma AllZeroAppend(s: seq<bv8>, n: nat)
    requires |s| == n + 1
    ensures AllZero(s) <==> AllZero(s[..n]) && s[n] == 0
  {
    assert s == s[..n] + [s[n]];
  }

  lemma FeedLast(chk: bv32, s: seq<bv8>, n: nat)
    requires |s| == n + 1
    ensures Feed(chk, s) == Step(Feed(chk, s[..n]), s[n])
  {
    hide Step;
  }

  /** At most six 5-bit symbols fed into the empty register: the result is 0 only for zeros. */
  lemma {:induction false} PileUp(s: seq<bv8>)
    requires |s| <= 6 && Symbols(s)
    ensures Fits(Feed(0, s), |s|)
    ensures Feed(0, s) == 0 <==> AllZero(s)
  {
    hide *;
    if |s| == 0 {
      PileNothing(s);
    } else {
      var n := |s| - 1;
      SymbolsPrefix(s, n);
      PileUp(s[..n]);
      FeedLast(0, s, n);
      AllZeroAppend(s, n);
      PileStep(Feed(0, s[..n]), n, s[n]);
    }
  }

  lemma PileStep(chk: bv32, n: nat, b: bv8)
    requires n < 6 && Fits(chk, n) && b < 32
    ensures Fits(Step(chk, b), n + 1)
    ensures Step(chk, b) == 0 <==> chk == 0 && b == 0
  {
    hide *;
    FitsHasRoom(chk, n);
    PileFits(chk, n, b);
    PileOne(chk, b);
    StepWithRoom(chk, b);
  }

  lemma PileNothing(s: seq<bv8>)
    requires |s| == 0
    ensures Fits(Feed(0, s), |s|)
    ensures Feed(0, s) == 0 && AllZero(s)
  {
  }

  lemma SymbolsPrefix(s: seq<bv8>, n: nat)
    requires |s| == n + 1 && Symbols(s)
    ensures Symbols(s[..n]) && s[n] < 32
  {
  }

  // ---------- error detection ----------

  lemma {:induction false} FeedAppend(chk: bv32, s: seq<bv8>, t: seq<bv8>)
    ensures Feed(chk, s + t) == Feed(Feed(chk, s), t)
  {
    hide Step;
    if t == [] {
      assert s + t == s;
    } else {
      var n := |t| - 1;
      assert (s + t)[..|s| + n] == s + t[..n];
      FeedAppend(chk, s, t[..n]);
    }
  }

  /** Feeding zeros never hides a difference. */
  lemma {:induction false} ZerosKeepDifference(chk: bv32, s: seq<bv8>)
    requires chk < LIMIT && chk != 0 && AllZero(s)
    ensures Feed(chk, s) != 0
  {
    hide Step;
    if |s| > 0 {
      var n := |s| - 1;
      ZerosKeepDifference(chk, s[..n]);
      FeedBound(chk, s[..n]);
      if Feed(chk, s) == 0 {
        StepKernel(Feed(chk, s[..n]));
      }
    }
  }

  lemma SumWithItself(s: seq<bv8>)
    ensures AllZero(Sum(s, s))
  {
    forall i | 0 <= i < |s| ensures Sum(s, s)[i] == 0 {
      XorSelf(s[i]);
    }
  }

  lemma XorSelf(b: bv8)
    ensures b ^ b == 0
  {
  }

  lemma SumSymbol(a: bv8, b: bv8)
    requires a < 32 && b < 32
    ensures a ^ b < 32
    ensures a ^ b == 0 <==> a == b
  {
  }

  lemma SumOfSymbols(s: seq<bv8>, t: seq<bv8>)
    requires |s| == |t| && Symbols(s) && Symbols(t)
    ensures Symbols(Sum(s, t))
    ensures AllZero(Sum(s, t)) ==> s == t
  {
    forall i | 0 <= i < |s| ensures Sum(s, t)[i] < 32 && (Sum(s, t)[i] == 0 ==> s[i] == t[i]) {
      SumSymbol(s[i], t[i]);
    }
  }

  /** Registers that differ keep differing when both are fed the same symbols. */
  lemma SameTailKeepsDifference(a: bv32, b: bv32, tail: seq<bv8>)
    requires Xor(a, b) < LIMIT && a != b
    ensures Feed(a, tail) != Feed(b, tail)
  {
    hide Feed, Xor;
    XorZero(a, b);
    FeedLinear(a, b, tail, tail);
    SumWithItself(tail);
    ZerosKeepDifference(Xor(a, b), Sum(tail, tail));
    XorZero(Feed(a, tail), Feed(b, tail));
  }

  /** A burst of at most six changed 5-bit symbols, wherever it is and whatever surrounds it,
      changes the register: its final value tells the two strings apart. */
  lemma BurstDetected(start: bv32, front: seq<bv8>, w: seq<bv8>, w': seq<bv8>, tail: seq<bv8>)
    requires |w| == |w'| <= 6 && Symbols(w) && Symbols(w') && w != w'
    ensures Feed(start, front + w + tail) != Feed(start, front + w' + tail)
  {
    hide Feed, Xor;
    var c := Feed(start, front);
    var a, b := Feed(c, w), Feed(c, w');
    FeedAppend(start, front + w, tail);
    FeedAppend(start, front, w);
    FeedAppend(start, front + w', tail);
    FeedAppend(start, front, w');
    XorUnit(c);
    FeedLinear(c, c, w, w');
    SumOfSymbols(w, w');
    PileUp(Sum(w, w'));
    XorZero(a, b);
    ZeroBound();
    FeedBound(0, Sum(w, w'));
    SameTailKeepsDifference(a, b, tail);
  }

  lemma ZeroBound()
    ensures 0 < LIMIT
  {
  }

  /** One changed byte, of any value, changes the register, in strings of any length. */
  lemma ChangedByteDetected(start: bv32, s: seq<bv8>, k: nat, b: bv8)
    requires k < |s| && s[k] != b
    ensures Feed(start, s) != Feed(start, s[k := b])
  {
    hide Feed, Xor, Step;
    var front, tail := s[..k], s[k + 1..];
    assert s == front + [s[k]] + tail && s[k := b] == front + [b] + tail;
    var c := Feed(start, front);
    FeedAppend(start, front + [s[k]], tail);
    FeedAppend(start, front, [s[k]]);
    FeedAppend(start, front + [b], tail);
    FeedAppend(start, front, [b]);
    FeedOne(c, s[k]);
    FeedOne(c, b);
    XorUnit(c);
    StepLinear(c, c, s[k], b);
    NonZeroStep(s[k], b);
    ZeroBound();
    StepBound(0, s[k] ^ b);
    XorZero(Step(c, s[k]), Step(c, b));
    SameTailKeepsDifference(Step(c, s[k]), Step(c, b), tail);
  }

  lemma FeedOne(c: bv32, b: bv8)
    ensures Feed(c, [b]) == Step(c, b)
  {
    hide Step;
    FeedLast(c, [b], 0);
    assert [b][..0] == [];
  }

  lemma NonZeroStep(a: bv8, b: bv8)
    requires a != b
    ensures Step(0, a ^ b) != 0
  {
    hide Step;
    StepWithRoom(0, a ^ b);
    NonZeroByte(a, b);
  }

  lemma NonZeroByte(a: bv8, b: bv8)
    requires a != b
    ensures (0 << 5) ^ ((a ^ b) as bv32) != 0
  {
  }

  // ---------- the checksum ----------

  /** `(x and 31).toByte()` */
  function Low5(x: bv32): bv8 {
    (x & 31) as bv8
  }

  /** The first `i` symbols of `m` as a number. */
  function Front(m: bv32, i: nat): bv32
    requires i <= 6
  {
    if i == 0 then 0
    else if i == 1 then m >> 25
    else if i == 2 then m >> 20
    else if i == 3 then m >> 15
    else if i == 4 then m >> 10
    else if i == 5 then m >> 5
    else m
  }

  /** Symbol `i` of the six that hold the 30 bits of `m`. */
  function ChecksumSymbol(m: bv32, i: nat): (b: bv8)
    requires i < 6
  {
    Low5(Front(m, i + 1))
  }

  function ChecksumSymbols(m: bv32): (s: seq<bv8>)
    ensures |s| == 6
  {
    seq(6, i requires 0 <= i < 6 => ChecksumSymbol(m, i))
  }

  function Zeros(n: nat): (s: seq<bv8>)
    ensures |s| == n
  {
    seq(n, i => 0)
  }

  function Checksum(values: seq<bv8>): (s: seq<bv8>)
    ensures |s| == 6
  {
    ChecksumSymbols(Xor(Feed(1, values + Zeros(6)), 1))
  }

  lemma FrontBound(m: bv32, i: nat)
    requires i < 6 && m < LIMIT
    ensures Front(m, i + 1) < LIMIT
  {
    if i == 0 {
    } else if i == 1 {
    } else if i == 2 {
    } else if i == 3 {
    } else if i == 4 {
    } else {
    }
  }

  lemma FrontShift0(m: bv32)
    requires m < LIMIT
    ensures Front(m, 0) == Front(m, 1) >> 5
  {
  }

  lemma FrontShift1(m: bv32)
    requires m < LIMIT
    ensures Front(m, 1) == Front(m, 2) >> 5
  {
  }

  lemma FrontShift2(m: bv32)
    requires m < LIMIT
    ensures Front(m, 2) == Front(m, 3) >> 5
  {
  }

  lemma FrontShift3(m: bv32)
    requires m < LIMIT
    ensures Front(m, 3) == Front(m, 4) >> 5
  {
  }

  lemma FrontShift4(m: bv32)
    requires m < LIMIT
    ensures Front(m, 4) == Front(m, 5) >> 5
  {
  }

  lemma FrontShift5(m: bv32)
    requires m < LIMIT
    ensures Front(m, 5) == Front(m, 6) >> 5
  {
  }

  lemma FrontShift(m: bv32, i: nat)
    requires i < 6 && m < LIMIT
    ensures Front(m, i) == Front(m, i + 1) >> 5
  {
    hide *;
    if i == 0 {
      FrontShift0(m);
    } else if i == 1 {
      FrontShift1(m);
    } else if i == 2 {
      FrontShift2(m);
    } else if i == 3 {
      FrontShift3(m);
    } else if i == 4 {
      FrontShift4(m);
    } else {
      assert i == 5;
      FrontShift5(m);
    }
  }

  lemma FeedDigit(q: bv32)
    requires q < LIMIT
    ensures Step(q >> 5, Low5(q)) == q
  {
    hide Step;
    StepWithRoom(q >> 5, Low5(q));
  }

  lemma {:induction false} FeedFront(m: bv32, i: nat)
    requires m < LIMIT && i <= 6
    ensures Feed(0, ChecksumSymbols(m)[..i]) == Front(m, i)
  {
    hide Step, Front, Low5, Feed;
    if i == 0 {
      FeedNothing(m);
    } else {
      var s := ChecksumSymbols(m)[..i];
      FeedFront(m, i - 1);
      FrontBound(m, i - 1);
      FrontShift(m, i - 1);
      assert s[..i - 1] == ChecksumSymbols(m)[..i - 1];
      FeedLast(0, s, i - 1);
      FeedDigit(Front(m, i));
    }
  }

  lemma FeedNothing(m: bv32)
    ensures Feed(0, []) == Front(m, 0)
  {
  }

  /** Six symbols hold the 30 bits of the register exactly. */
  lemma FeedChecksumSymbols(m: bv32)
    requires m < LIMIT
    ensures Feed(0, ChecksumSymbols(m)) == m
  {
    hide Feed, ChecksumSymbol;
    FeedFront(m, 6);
    assert ChecksumSymbols(m)[..6] == ChecksumSymbols(m);
  }

  lemma ChecksumIsSymbols(values: seq<bv8>)
    ensures Symbols(Checksum(values))
  {
    hide Feed, Xor;
    forall i: nat | i < 6 ensures ChecksumSymbol(Xor(Feed(1, values + Zeros(6)), 1), i) < 32 {
      ChecksumSymbolBound(Xor(Feed(1, values + Zeros(6)), 1), i);
    }
  }

  lemma ChecksumSymbolBound(m: bv32, i: nat)
    requires i < 6
    ensures ChecksumSymbol(m, i) < 32
  {
  }

  lemma ZerosNeutral(s: seq<bv8>)
    requires |s| == 6
    ensures Sum(Zeros(6), s) == s
  {
    forall i | 0 <= i < 6 ensures 0 ^ s[i] == s[i] {
      XorUnitByte(s[i]);
    }
  }

  lemma XorUnitByte(b: bv8)
    ensures 0 ^ b == b
  {
  }

  /** Whatever bytes are protected, the register ends at 1 after the six checksum symbols. */
  lemma ChecksumVerifies(values: seq<bv8>)
    ensures Feed(1, values + Checksum(values)) == 1
  {
    hide Feed, Xor, ChecksumSymbols;
    var c := Feed(1, values);
    var p := Feed(1, values + Zeros(6));
    var m := Xor(p, 1);
    OneBound();
    FeedBound(1, values + Zeros(6));
    XorWithOneBound(p);
    FeedAppend(1, values, Zeros(6));
    FeedAppend(1, values, ChecksumSymbols(m));
    XorUnit(c);
    ZerosNeutral(ChecksumSymbols(m));
    FeedLinear(c, 0, Zeros(6), ChecksumSymbols(m));
    FeedChecksumSymbols(m);
    XorAssoc(p, p, 1);
    XorUnit(p);
    XorUnit(1);
  }

  /** No other six symbols would do. */
  lemma ChecksumUnique(values: seq<bv8>, c: seq<bv8>)
    requires |c| == 6 && Symbols(c) && Feed(1, values + c) == 1
    ensures c == Checksum(values)
  {
    hide Feed, Checksum;
    ChecksumIsSymbols(values);
    ChecksumVerifies(values);
    assert values + c + [] == values + c && values + Checksum(values) + [] == values + Checksum(values);
    if c != Checksum(values) {
      BurstDetected(1, values, c, Checksum(values), []);
      assert false;
    }
  }

  lemma OneBound()
    ensures 1 < LIMIT
  {
  }

  lemma XorWithOneBound(p: bv32)
    requires p < LIMIT
    ensures Xor(p, 1) < LIMIT
  {
  }

  // ---------- the Kotlin loops ----------

  /** The inner loop: add up the selected generators. */
  method MixIn(start: bv32, top: bv32) returns (chk: bv32)
    ensures chk == Xor(start, Mix(top, 5))
  {
    hide Mix, Pick, Xor;
    chk := start;
    MixNone(start, top);
    for i := 0 to 5
      invariant chk == Xor(start, Mix(top, i))
    {
      MixNext(chk, start, top, i);
      if Tap(top, i) {
        chk := chk ^ GEN[i];
      }
    }
  }

  lemma MixNone(start: bv32, top: bv32)
    ensures start == Xor(start, Mix(top, 0))
  {
  }

  method Polymod(values: seq<bv8>) returns (chk: bv32)
    ensures chk == Feed(1, values)
  {
    hide Mix, Pick, Xor, Shift, Feed;
    chk := 1;
    FeedEmpty(1);
    for k := 0 to |values|
      invariant chk == Feed(1, values[..k])
    {
      var top := chk >> 25;
      ghost var before := chk;
      chk := ((chk & 0x1ffffff) << 5) ^ (values[k] as bv32 & 0xff);
      StepStart(before, values[k], chk);
      chk := MixIn(chk, top);
      assert values[..k + 1][..k] == values[..k];
      FeedLast(1, values[..k + 1], k);
    }
    assert values[..|values|] == values;
  }

  lemma FeedEmpty(chk: bv32)
    ensures Feed(chk, []) == chk
  {
  }

  lemma StepStart(before: bv32, b: bv8, chk: bv32)
    requires chk == ((before & 0x1ffffff) << 5) ^ (b as bv32 & 0xff)
    ensures chk == Xor(Shift(before), Widen(b))
  {
  }

  lemma MixNext(chk: bv32, base: bv32, top: bv32, i: nat)
    requires i < 5 && chk == Xor(base, Mix(top, i))
    ensures Tap(top, i) ==> chk ^ GEN[i] == Xor(base, Mix(top, i + 1))
    ensures !Tap(top, i) ==> chk == Xor(base, Mix(top, i + 1))
  {
    hide Xor, Tap;
    XorAssoc(base, Mix(top, i), GEN[i]);
    XorUnit(Mix(top, i));
    XorIsXor(chk, GEN[i]);
  }

  lemma XorIsXor(a: bv32, b: bv32)
    ensures Xor(a, b) == a ^ b
  {
  }

  lemma ShiftBy25(m: bv32, k: bv6)
    requires k == 25
    ensures m >> k == m >> 25
  {
  }

  lemma ShiftBy20(m: bv32, k: bv6)
    requires k == 20
    ensures m >> k == m >> 20
  {
  }

  lemma ShiftBy15(m: bv32, k: bv6)
    requires k == 15
    ensures m >> k == m >> 15
  {
  }

  lemma ShiftBy10(m: bv32, k: bv6)
    requires k == 10
    ensures m >> k == m >> 10
  {
  }

  lemma ShiftBy5(m: bv32, k: bv6)
    requires k == 5
    ensures m >> k == m >> 5
  {
  }

  lemma ShiftBy0(m: bv32, k: bv6)
    requires k == 0
    ensures m >> k == m
  {
  }

  lemma Distances()
    ensures Distance(25) == 25 && Distance(20) == 20 && Distance(15) == 15
    ensures Distance(10) == 10 && Distance(5) == 5 && Distance(0) == 0
  {
  }

  /** `polymod ushr (5 * (5 - i))` */
  lemma UshrIsFront(m: bv32, i: nat)
    requires i < 6
    ensures m >> Distance(5 * (5 - i)) == Front(m, i + 1)
  {
    hide Distance;
    Distances();
    var k := Distance(5 * (5 - i));
    if i == 0 {
      ShiftBy25(m, k);
    } else if i == 1 {
      ShiftBy20(m, k);
    } else if i == 2 {
      ShiftBy15(m, k);
    } else if i == 3 {
      ShiftBy10(m, k);
    } else if i == 4 {
      ShiftBy5(m, k);
    } else {
      assert i == 5;
      ShiftBy0(m, k);
    }
  }

  /** `hrpExpand(hrp) + data` is the protected string; the six symbols are written into `ret`. */
  method CreateChecksum(hrp: string, data: seq<bv8>) returns (ret: array<bv8>)
    ensures fresh(ret) && ret[..] == Checksum(HrpExpanded(hrp) + data)
  {
    hide Feed, Xor, Low5, Front, Distance;
    var expanded := HrpExpand(hrp);
    var p := Polymod(expanded[..] + data + Zeros(6));
    XorIsXor(p, 1);
    var polymod := p ^ 1;
    ret := new bv8[6];
    for i := 0 to 6
      invariant forall j: nat :: j < i ==> ret[j] == ChecksumSymbol(polymod, j)
    {
      UshrIsFront(polymod, i);
      ret[i] := Low5(polymod >> Distance(5 * (5 - i)));
    }
    assert ret[..] == ChecksumSymbols(polymod);
  }

  /** `(c.code ushr 5).toByte()` */
  function HighBits(c: char): bv8 {
    ToByte(c as int / 32 % 256)
  }

  /** `(c.code and 31).toByte()` */
  function LowBits(c: char): bv8 {
    ToByte(c as int % 32)
  }

  /** The prefix as BIP 173 protects it: high bits, a zero, low bits. */
  function HrpExpanded(hrp: string): (s: seq<bv8>)
    ensures |s| == 2 * |hrp| + 1
  {
    seq(|hrp|, i requires 0 <= i < |hrp| => HighBits(hrp[i])) + [0]
    + seq(|hrp|, i requires 0 <= i < |hrp| => LowBits(hrp[i]))
  }

  method HrpExpand(hrp: string) returns (out: array<bv8>)
    ensures fresh(out) && out[..] == HrpExpanded(hrp)
  {
    hide HighBits, LowBits;
    out := new bv8[2 * |hrp| + 1];
    var i := 0;
    for k := 0 to |hrp|
      invariant i == k
      invariant forall j :: 0 <= j < k ==> out[j] == HighBits(hrp[j])
    {
      out[i] := HighBits(hrp[k]);
      i := i + 1;
    }
    out[i] := 0;
    i := i + 1;
    for k := 0 to |hrp|
      invariant i == |hrp| + 1 + k
      invariant forall j :: 0 <= j < |hrp| ==> out[j] == HighBits(hrp[j])
      invariant out[|hrp|] == 0
      invariant forall j :: 0 <= j < k ==> out[|hrp| + 1 + j] == LowBits(hrp[j])
    {
      out[i] := LowBits(hrp[k]);
      i := i + 1;
    }
    forall j | 0 <= j < out.Length ensures out[..][j] == HrpExpanded(hrp)[j] {
      if j > |hrp| {
        assert out[|hrp| + 1 + (j - |hrp| - 1)] == LowBits(hrp[j - |hrp| - 1]);
      }
    }
  }
}
