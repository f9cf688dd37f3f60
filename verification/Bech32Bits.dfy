/** The bit regrouping of the Bech32 encoder (SecureStore.kt, Bech32.convertBits).

    The accumulator is a 32-bit Kotlin `Int` that is never masked: after a few bytes its upper
    bits hold left-overs, and `shl` pushes bits out of the word.  It is modelled as the number the
    word stands for without its sign, with the wrap-around written out; `ushr n` is division by 2^n.
    The specification does not know the accumulator: it reads a symbol string as one big-endian
    number and says which number the output spells. */
module Bech32Bits {
  import opened BitLogic
  import opened Bytes
  import opened Pow2Facts

  datatype ConvertError = InvalidDataRange | IllegalZeroPadding | NonZeroPadding
  datatype ConvertResult = Converted(out: seq<bv8>) | Rejected(error: ConvertError)

  const WORD := 0x1_0000_0000

  /** All symbols fit into `w` bits. */
  ghost predicate InRange(s: seq<bv8>, w: nat) {
    forall i :: 0 <= i < |s| ==> s[i] as nat < Pow2(w)
  }

  /** The number spelled by `s` with `w` bits to a symbol, first symbol most significant. */
  ghost function Value(s: seq<bv8>, w: nat): nat {
    if s == [] then 0 else Value(s[..|s| - 1], w) * Pow2(w) + s[|s| - 1] as nat
  }

  /** What convertBits promises, in terms of numbers only.  With padding the output spells the
      input followed by the zero bits that fill the last symbol; without padding the bits that do
      not fill a symbol must be fewer than one input symbol and all zero, and the output spells
      the rest. */
  ghost predicate IsConversion(data: seq<bv8>, fromBits: nat, toBits: nat, pad: bool, r: ConvertResult)
    requires 0 < fromBits < 32 && 0 < toBits <= 8 && fromBits + toBits <= 33
  {
    var total := |data| * fromBits;
    var rest := total % toBits;
    var all := Value(data, fromBits);
    if !InRange(data, fromBits) then
      r == Rejected(InvalidDataRange)
    else if !pad && rest >= fromBits then
      r == Rejected(IllegalZeroPadding)
    else if !pad && all % Pow2(rest) != 0 then
      r == Rejected(NonZeroPadding)
    else
      && r.Converted?
      && InRange(r.out, toBits)
      && if pad then
           var fill := if rest == 0 then 0 else toBits - rest;
           |r.out| * toBits == total + fill && Value(r.out, toBits) == all * Pow2(fill)
         else
           |r.out| * toBits + rest == total && Value(r.out, toBits) * Pow2(rest) == all
  }

  // ---------- symbol strings as numbers ----------

  lemma ValueAppend(s: seq<bv8>, x: bv8, w: nat)
    ensures Value(s + [x], w) == Value(s, w) * Pow2(w) + x as nat
  {
    assert (s + [x])[..|s|] == s;
  }

  lemma RangeAppend(s: seq<bv8>, x: bv8, w: nat)
    requires InRange(s, w) && x as nat < Pow2(w)
    ensures InRange(s + [x], w)
  {
  }

  /** In-range symbol strings of equal length that spell the same number are equal. */
  lemma {:induction false} ValueInjective(s: seq<bv8>, t: seq<bv8>, w: nat)
    requires |s| == |t| && InRange(s, w) && InRange(t, w)
    requires Value(s, w) == Value(t, w)
    ensures s == t
  {
    if |s| > 0 {
      var n := |s| - 1;
      SameQuotient(Value(s[..n], w), s[n] as nat, Value(t[..n], w), t[n] as nat, Pow2(w));
      ValueInjective(s[..n], t[..n], w);
      SameByte(s[n], t[n]);
      assert s == s[..n] + [s[n]] && t == t[..n] + [t[n]];
    }
  }

  // ---------- what the shifts do to the pending bits ----------

  /** `acc shl n`, for a distance below 32: the processor takes it modulo 32. */
  function Shl(acc: nat, n: nat): (r: nat)
    ensures r < WORD
  {
    (acc * Pow2(n)) % WORD
  }

  /** A product modulo a multiple of `m * c` keeps its remainder modulo `m * c`. */
  lemma WrappedProduct(acc: nat, q: nat, m: nat, r: nat, c: nat, wraps: nat, h: nat, low: nat, v: nat)
    requires acc == q * m + r
    requires acc * c == wraps * ((m * c) * h) + low
    ensures low + v == (q - wraps * h) * (m * c) + (r * c + v)
  {
    assert acc * c == q * (m * c) + r * c;
    assert wraps * ((m * c) * h) == (wraps * h) * (m * c);
    assert (q - wraps * h) * (m * c) == q * (m * c) - (wraps * h) * (m * c);
  }

  /** `acc ushr n` */
  function Shr(acc: nat, n: nat): nat {
    NaturalQuotient(acc, Pow2(n));
    acc / Pow2(n)
  }

  /** What `acc shl f` pushes out of the word does not matter to the `k + f` low bits. */
  lemma ShlLowBits(acc: nat, k: nat, f: nat, v: nat)
    requires k + f <= 32 && v < Pow2(f)
    ensures (Shl(acc, f) + v) % Pow2(k + f) == (acc % Pow2(k)) * Pow2(f) + v
  {
    hide Pow2;
    var m, c, h := Pow2(k), Pow2(f), Pow2(32 - (k + f));
    var q: int, r, wraps: int := acc / m, acc % m, (acc * c) / WORD;
    Pow2Add(k, f);
    Pow2Add(k + f, 32 - (k + f));
    Pow2At32();
    NaturalQuotient(acc, m);
    NaturalQuotient(acc * c, WORD);
    WrappedProduct(acc, q, m, r, c, wraps, h, Shl(acc, f), v);
    ScaledBelow(r, m, c, v);
    DivModUnique(Shl(acc, f) + v, m * c, q - wraps * h, r * c + v);
  }

  lemma NextMultiple(low: nat, q: int, c: nat, h: nat)
    requires low == q * c && low < c * h
    ensures low + c <= c * h
  {
    if q >= h {
      assert q * c == h * c + (q - h) * c;
    } else {
      AtLeastOneMultiple(q, h, c);
    }
  }

  lemma QuotientZero(v: nat, d: nat)
    requires d > 0
    ensures v / d != 0 <==> v >= d
  {
    var q: int := v / d;
    NaturalQuotient(v, d);
    assert v == d * q + v % d;
    if v < d {
      DivModUnique(v, d, 0, v);
    }
  }

  /** `shl` leaves the low bits clear, so that `or` can fill them within the word. */
  lemma ShlAligned(acc: nat, f: nat)
    requires f <= 32
    ensures Shl(acc, f) % Pow2(f) == 0 && Shl(acc, f) + Pow2(f) <= WORD
  {
    hide Pow2;
    var c, h := Pow2(f), Pow2(32 - f);
    var wraps: int, low := (acc * c) / WORD, Shl(acc, f);
    Pow2Add(f, 32 - f);
    Pow2At32();
    var q: int := acc - wraps * h;
    assert low == q * c by {
      assert acc * c == wraps * (c * h) + low;
      assert wraps * (c * h) == (wraps * h) * c;
    }
    DivModUnique(low, c, q, 0);
    NextMultiple(low, q, c, h);
  }

  lemma OrIntoShl(acc: nat, f: nat, v: nat)
    requires f <= 32 && v < Pow2(f)
    ensures Or(Shl(acc, f), v) == Shl(acc, f) + v < WORD
  {
    ShlAligned(acc, f);
    OrIsSum(Shl(acc, f), v, f);
  }

  /** `v ushr f != 0` */
  lemma ShrNonZero(v: nat, f: nat)
    ensures Shr(v, f) != 0 <==> v >= Pow2(f)
  {
    hide Pow2;
    QuotientZero(v, Pow2(f));
  }

  lemma NestedQuotient(acc: nat, m: nat, q: nat, r: nat, d: nat, e: nat, g: nat)
    requires acc == q * m + r && q == e * d + g
    ensures acc == e * (m * d) + (g * m + r)
  {
    assert q * m == (e * d) * m + g * m;
    assert (e * d) * m == e * (m * d);
  }

  /** The pending bits are the front `t` of them, followed by the other `k`. */
  lemma ShrLowBits(acc: nat, k: nat, t: nat)
    ensures acc % Pow2(k + t) == (Shr(acc, k) % Pow2(t)) * Pow2(k) + acc % Pow2(k)
  {
    hide Pow2;
    var m, d := Pow2(k), Pow2(t);
    var q, r := acc / m, acc % m;
    Pow2Add(k, t);
    NestedQuotient(acc, m, q, r, d, q / d, q % d);
    ScaledBelow(q % d, d, m, r);
    assert d * m == m * d;
    DivModUnique(acc, m * d, q / d, (q % d) * m + r);
  }

  // ---------- the loop ----------

  /** The loop invariant: what is written and the `bits` pending low bits of the accumulator
      together spell what was read. */
  ghost predicate Spells(out: seq<bv8>, to: nat, acc: nat, bits: nat, all: nat) {
    InRange(out, to) && Value(out, to) * Pow2(bits) + acc % Pow2(bits) == all
  }

  lemma NothingRead(f: nat, to: nat)
    ensures Spells([], to, 0, 0, Value([], f))
  {
  }

  lemma TakeByte(out: seq<bv8>, to: nat, acc: nat, bits: nat, read: seq<bv8>, b: bv8, f: nat)
    requires bits + f <= 32
    requires InRange(read, f) && b as nat < Pow2(f)
    requires Spells(out, to, acc, bits, Value(read, f))
    ensures InRange(read + [b], f)
    ensures Spells(out, to, Shl(acc, f) + b as nat, bits + f, Value(read + [b], f))
  {
    hide Pow2, Value, InRange;
    var v := Value(out, to);
    ShlLowBits(acc, bits, f, b as nat);
    ValueAppend(read, b, f);
    RangeAppend(read, b, f);
    Pow2Add(bits, f);
    Distribute(v, Pow2(bits), acc % Pow2(bits), Pow2(f));
  }

  lemma Distribute(v: nat, m: nat, r: nat, c: nat)
    ensures (v * m + r) * c == v * (m * c) + r * c
    ensures v * (m * c) == v * (c * m)
  {
    assert v * m * c == v * (m * c);
  }

  lemma AtMostAByte(word: nat, to: nat)
    requires to <= 8
    ensures word % Pow2(to) < 256
  {
    Pow2Monotonic(to, 8);
    assert Pow2(8) == 256;
  }

  /** `(word and maxv).toByte()` */
  function Symbol(word: nat, to: nat): (r: bv8)
    requires to <= 8
    ensures r as nat == word % Pow2(to)
  {
    AtMostAByte(word, to);
    AndMask(word, to);
    ToByte(And(word, Pow2(to) - 1))
  }

  lemma EmitSymbol(out: seq<bv8>, to: nat, acc: nat, bits: nat, all: nat)
    requires to <= 8 && to <= bits
    requires Spells(out, to, acc, bits, all)
    ensures Spells(out + [Symbol(Shr(acc, bits - to), to)], to, acc, bits - to, all)
  {
    hide Pow2, Value, InRange, Symbol, Shr, Shl;
    var v, k := Value(out, to), bits - to;
    var x := Symbol(Shr(acc, k), to);
    ShrLowBits(acc, k, to);
    ValueAppend(out, x, to);
    RangeAppend(out, x, to);
    Pow2Add(k, to);
    Distribute(v, Pow2(to), x as nat, Pow2(k));
  }

  lemma PadSymbol(out: seq<bv8>, to: nat, acc: nat, bits: nat, all: nat)
    requires bits <= to <= 8
    requires Spells(out, to, acc, bits, all)
    ensures InRange(out + [Symbol(Shl(acc, to - bits), to)], to)
    ensures Value(out + [Symbol(Shl(acc, to - bits), to)], to) == all * Pow2(to - bits)
  {
    hide Pow2, Value, InRange, Symbol, Shr, Shl;
    var v, p := Value(out, to), to - bits;
    var x := Symbol(Shl(acc, p), to);
    Pow2Positive(p);
    ShlLowBits(acc, bits, p, 0);
    ValueAppend(out, x, to);
    RangeAppend(out, x, to);
    Pow2Add(bits, p);
    Distribute(v, Pow2(bits), acc % Pow2(bits), Pow2(p));
  }

  lemma Pow2Positive(n: nat)
    ensures 0 < Pow2(n)
  {
  }

  /** The padding test of the epilogue looks at exactly the pending bits, and these are the
      low bits of what was read. */
  lemma PaddingTest(out: seq<bv8>, to: nat, acc: nat, bits: nat, all: nat)
    requires bits <= to <= 8
    requires Spells(out, to, acc, bits, all)
    ensures all % Pow2(bits) == acc % Pow2(bits)
    ensures Shl(acc, to - bits) % Pow2(to) == 0 <==> acc % Pow2(bits) == 0
  {
    hide Pow2;
    var p := to - bits;
    DivModUnique(all, Pow2(bits), Value(out, to), acc % Pow2(bits));
    Pow2Positive(p);
    ShlLowBits(acc, bits, p, 0);
    ZeroProduct(acc % Pow2(bits), Pow2(p));
  }

  lemma ZeroProduct(a: nat, b: nat)
    requires b > 0
    ensures a * b == 0 <==> a == 0
  {
    if a > 0 {
      assert a * b == (a - 1) * b + b;
    }
  }

  /** The inner loop: emit symbols as long as there are enough pending bits. */
  method EmitSymbols(written: seq<bv8>, toBits: nat, acc: nat, pending: nat, ghost all: nat) returns (out: seq<bv8>, bits: nat)
    requires 0 < toBits <= 8 && Spells(written, toBits, acc, pending, all)
    ensures bits < toBits && |out| * toBits + bits == |written| * toBits + pending
    ensures Spells(out, toBits, acc, bits, all)
  {
    hide Pow2, Shr, Spells;
    out, bits := written, pending;
    while bits >= toBits
      invariant |out| * toBits + bits == |written| * toBits + pending
      invariant Spells(out, toBits, acc, bits, all)
    {
      EmitSymbol(out, toBits, acc, bits, all);
      assert (|out| + 1) * toBits == |out| * toBits + toBits;
      bits := bits - toBits;
      out := out + [Symbol(Shr(acc, bits), toBits)];
    }
  }

  method ConvertBits(data: seq<bv8>, fromBits: nat, toBits: nat, pad: bool) returns (r: ConvertResult)
    requires 0 < fromBits < 32 && 0 < toBits <= 8 && fromBits + toBits <= 33
    ensures IsConversion(data, fromBits, toBits, pad, r)
  {
    hide Pow2, Shl, Shr, Value, Spells, Or;
    var acc: nat, bits: nat := 0, 0;
    var out: seq<bv8> := [];
    NothingRead(fromBits, toBits);
    assert data[..0] == [];
    for i := 0 to |data|
      invariant bits < toBits && acc < WORD
      invariant |out| * toBits + bits == i * fromBits
      invariant InRange(data[..i], fromBits)
      invariant Spells(out, toBits, acc, bits, Value(data[..i], fromBits))
    {
      var v := data[i] as nat;
      ShrNonZero(v, fromBits);
      if Shr(v, fromBits) != 0 {
        return Rejected(InvalidDataRange);
      }
      TakeByte(out, toBits, acc, bits, data[..i], data[i], fromBits);
      assert data[..i + 1] == data[..i] + [data[i]];
      assert (i + 1) * fromBits == i * fromBits + fromBits;
      OrIntoShl(acc, fromBits, v);
      acc := Or(Shl(acc, fromBits), v);
      bits := bits + fromBits;
      out, bits := EmitSymbols(out, toBits, acc, bits, Value(data[..i + 1], fromBits));
    }
    assert data[..|data|] == data;
    r := Epilogue(data, fromBits, toBits, pad, out, acc, bits);
  }

  /** The part of convertBits after the loop. */
  method Epilogue(data: seq<bv8>, fromBits: nat, toBits: nat, pad: bool, written: seq<bv8>, acc: nat, bits: nat)
    returns (r: ConvertResult)
    requires 0 < fromBits < 32 && bits < toBits <= 8 && fromBits + toBits <= 33
    requires |written| * toBits + bits == |data| * fromBits
    requires InRange(data, fromBits)
    requires Spells(written, toBits, acc, bits, Value(data, fromBits))
    ensures IsConversion(data, fromBits, toBits, pad, r)
  {
    hide Pow2, Shl, Value, And;
    var out := written;
    DivModUnique(|data| * fromBits, toBits, |out|, bits);
    PaddingTest(out, toBits, acc, bits, Value(data, fromBits));
    if pad {
      if bits > 0 {
        PadSymbol(out, toBits, acc, bits, Value(data, fromBits));
        assert (|out| + 1) * toBits == |out| * toBits + toBits;
        out := out + [Symbol(Shl(acc, toBits - bits), toBits)];
      } else {
        OneBitless(acc, Value(out, toBits));
        OneBitless(acc, Value(data, fromBits));
      }
    } else {
      if bits >= fromBits {
        return Rejected(IllegalZeroPadding);
      }
      AndMask(Shl(acc, toBits - bits), toBits);
      if And(Shl(acc, toBits - bits), Pow2(toBits) - 1) != 0 {
        return Rejected(NonZeroPadding);
      }
    }
    return Converted(out);
  }

  lemma OneBitless(acc: nat, v: nat)
    ensures acc % Pow2(0) == 0 && v * Pow2(0) == v
  {
  }

  // ---------- round trip ----------

  /** Regrouping bytes into 5-bit symbols and back gives the bytes again, and never throws. */
  lemma BytesRoundTrip(bytes: seq<bv8>, encoded: ConvertResult, decoded: ConvertResult)
    requires IsConversion(bytes, 8, 5, true, encoded)
    requires encoded.Converted? ==> IsConversion(encoded.out, 5, 8, false, decoded)
    ensures encoded.Converted? && InRange(encoded.out, 5)
    ensures |encoded.out| == (8 * |bytes| + 4) / 5
    ensures decoded == Converted(bytes)
  {
    AllBytesFit(bytes);
    var symbols := encoded.out;
    var fill := |symbols| * 5 - |bytes| * 8;
    hide Pow2;
    Pow2Positive(fill);
    DivModUnique(|symbols| * 5, 8, |bytes|, fill);
    DivModUnique(Value(symbols, 5), Pow2(fill), Value(bytes, 8), 0);
    SameQuotient(Value(decoded.out, 8), 0, Value(bytes, 8), 0, Pow2(fill));
    ValueInjective(decoded.out, bytes, 8);
  }

  lemma AllBytesFit(bytes: seq<bv8>)
    ensures InRange(bytes, 8)
  {
    assert Pow2(8) == 256;
  }
}
