/** The published test vector of BIP 173 (section "Test vectors") with every alphabet character: what
    the encoder answers is the very string of the standard. */
module Bech32Vector {
  import opened Bytes
  import opened Bech32Checksum
  import opened Bech32Field
  import opened Bech32

  /** One step, with the generators spelled out. */
  function PlainStep(chk: bv32, b: bv8): bv32 {
    Xor(Xor(Shift(chk), Widen(b)), Chosen(ChecksumSymbol(chk, 0)))
  }

  lemma StepIsPlain(chk: bv32, b: bv8)
    requires chk < LIMIT
    ensures Step(chk, b) == PlainStep(chk, b)
  {
    hide Xor, Shift, Widen, Mix, Chosen, ChecksumSymbol;
    TopSymbol(chk);
    MixIsChosen(ChecksumSymbol(chk, 0));
  }

  lemma {:induction false} Traced(s: seq<bv8>, trace: seq<bv32>)
    requires |trace| == |s| + 1 && trace[0] < LIMIT
    requires forall k :: 0 <= k < |s| ==> PlainStep(trace[k], s[k]) == trace[k + 1]
    ensures Feed(trace[0], s) == trace[|s|]
  {
    hide Step, PlainStep;
    if s != [] {
      var n := |s| - 1;
      Traced(s[..n], trace[..n + 1]);
      FeedBound(trace[0], s[..n]);
      StepIsPlain(trace[n], s[n]);
    }
  }

  lemma StepAt(chk: bv32, s: seq<bv8>, t: seq<bv32>, k: nat)
    requires 5 <= |s| == |t| <= 8 && k < |s|
    requires PlainStep(chk, s[0]) == t[0] && PlainStep(t[0], s[1]) == t[1] && PlainStep(t[1], s[2]) == t[2]
    requires PlainStep(t[2], s[3]) == t[3] && PlainStep(t[3], s[4]) == t[4]
    requires |s| > 5 ==> PlainStep(t[4], s[5]) == t[5]
    requires |s| > 6 ==> PlainStep(t[5], s[6]) == t[6]
    requires |s| > 7 ==> PlainStep(t[6], s[7]) == t[7]
    ensures PlainStep(([chk] + t)[k], s[k]) == t[k]
  {
    hide PlainStep;
    if k == 0 {
    } else if k == 1 {
    } else if k == 2 {
    } else if k == 3 {
    } else if k == 4 {
    } else if k == 5 {
    } else if k == 6 {
    } else {
    }
  }

  /** Up to eight steps whose registers are given. */
  lemma Steps(chk: bv32, s: seq<bv8>, t: seq<bv32>)
    requires chk < LIMIT && 5 <= |s| == |t| <= 8
    requires PlainStep(chk, s[0]) == t[0] && PlainStep(t[0], s[1]) == t[1] && PlainStep(t[1], s[2]) == t[2]
    requires PlainStep(t[2], s[3]) == t[3] && PlainStep(t[3], s[4]) == t[4]
    requires |s| > 5 ==> PlainStep(t[4], s[5]) == t[5]
    requires |s| > 6 ==> PlainStep(t[5], s[6]) == t[6]
    requires |s| > 7 ==> PlainStep(t[6], s[7]) == t[7]
    ensures Feed(chk, s) == t[|t| - 1]
  {
    hide Feed, PlainStep;
    var trace := [chk] + t;
    forall k | 0 <= k < |s| ensures PlainStep(trace[k], s[k]) == trace[k + 1] {
      StepAt(chk, s, t, k);
    }
    Traced(s, trace);
  }

  lemma Part1()
    ensures Feed(0x00000001, [3, 3, 3, 3, 3, 3, 0, 1]) == 0x3dc7154c
  {
    hide Feed;
    Steps(0x00000001, [3, 3, 3, 3, 3, 3, 0, 1],
          [0x00000023, 0x00000463, 0x00008c63, 0x00118c63, 0x02318c63, 0x3d5bdbd1, 0x04dcbcd9, 0x3dc7154c]);
  }

  lemma Part2()
    ensures Feed(0x3dc7154c, [2, 3, 4, 5, 6]) == 0x3be80e6a
  {
    hide Feed;
    Steps(0x3dc7154c, [2, 3, 4, 5, 6],
          [0x17456f7b, 0x08d50561, 0x0401b5de, 0x266635a8, 0x3be80e6a]);
  }

  lemma Part3()
    ensures Feed(0x3be80e6a, [0, 1, 2, 3, 4, 5, 6, 7]) == 0x11e88668
  {
    hide Feed;
    Steps(0x3be80e6a, [0, 1, 2, 3, 4, 5, 6, 7],
          [0x0f9cd266, 0x30018ce4, 0x1767cdec, 0x0c815781, 0x28db67b3, 0x2fd98d2c, 0x12be0710, 0x11e88668]);
  }

  lemma Part4()
    ensures Feed(0x11e88668, [8, 9, 10, 11, 12, 13, 14, 15]) == 0x31223f8a
  {
    hide Feed;
    Steps(0x11e88668, [8, 9, 10, 11, 12, 13, 14, 15],
          [0x0052fed5, 0x0a5fdaa9, 0x2e301b62, 0x2f8ccedd, 0x1816793a, 0x212c0d6a, 0x0f95cffd, 0x31223f8a]);
  }

  lemma Part5()
    ensures Feed(0x31223f8a, [16, 17, 18, 19, 20, 21, 22, 23]) == 0x297c48e0
  {
    hide Feed;
    Steps(0x31223f8a, [16, 17, 18, 19, 20, 21, 22, 23],
          [0x3311a03e, 0x0e08010d, 0x029be197, 0x28166541, 0x3679d37d, 0x0556e704, 0x0c8c6efb, 0x297c48e0]);
  }

  lemma Part6()
    ensures Feed(0x297c48e0, [24, 25, 26, 27, 28, 29, 30, 31]) == 0x1a0d3656
  {
    hide Feed;
    Steps(0x297c48e0, [24, 25, 26, 27, 28, 29, 30, 31],
          [0x1b3c6751, 0x3f0597ac, 0x347f64d1, 0x3eea4538, 0x09853657, 0x2e07d307, 0x2975c268, 0x1a0d3656]);
  }

  lemma Part7()
    ensures Feed(0x1a0d3656, [27, 0, 0, 0, 6, 14]) == 0x00000001
  {
    hide Feed;
    Steps(0x1a0d3656, [27, 0, 0, 0, 6, 14],
          [0x192fb74e, 0x0615c3e7, 0x1f82a53f, 0x0e8d5418, 0x12314323, 0x00000001]);
  }

  // ---------- the vector ----------

  /** All 32 symbols in order. */
  const FIRST: seq<bv8> := [0, 1, 2, 3, 4, 5, 6, 7]

  const SECOND: seq<bv8> := [8, 9, 10, 11, 12, 13, 14, 15]

  const THIRD: seq<bv8> := [16, 17, 18, 19, 20, 21, 22, 23]

  const FOURTH: seq<bv8> := [24, 25, 26, 27, 28, 29, 30, 31]

  const EVERY_SYMBOL: seq<bv8> := FIRST + SECOND + THIRD + FOURTH

  const CHECK: seq<bv8> := [27, 0, 0, 0, 6, 14]

  lemma Three()
    ensures (3 as bv8) as nat == 3
  {
  }

  lemma LowerCaseCode(code: nat, n: nat)
    requires code == 96 + n && n < 32
    ensures code / 32 % 256 == 3 && code % 32 == n
  {
  }

  lemma LowerCaseBits(c: char, n: bv8)
    requires c as int == 96 + n as nat && n as nat < 32
    ensures HighBits(c) == 3 && LowBits(c) == n
  {
    hide ToByte;
    LowerCaseCode(c as int, n as nat);
    Three();
    ToByteOfValue(3);
    ToByteOfValue(n);
  }

  lemma PrefixBits()
    ensures HighBits('a') == HighBits('b') == HighBits('c') == HighBits('d') == HighBits('e') == HighBits('f') == 3
    ensures LowBits('a') == 1 && LowBits('b') == 2 && LowBits('c') == 3 && LowBits('d') == 4 && LowBits('e') == 5 && LowBits('f') == 6
  {
    hide HighBits, LowBits;
    LowerCaseBits('a', 1);
    LowerCaseBits('b', 2);
    LowerCaseBits('c', 3);
    LowerCaseBits('d', 4);
    LowerCaseBits('e', 5);
    LowerCaseBits('f', 6);
  }

  lemma PrefixExpanded()
    ensures HrpExpanded("abcdef") == [3, 3, 3, 3, 3, 3, 0, 1] + [2, 3, 4, 5, 6]
  {
    PrefixBits();
    hide HighBits, LowBits;
  }

  lemma FeedThree(start: bv32, s: seq<bv8>, t: seq<bv8>, u: seq<bv8>)
    ensures Feed(start, s + t + u) == Feed(Feed(Feed(start, s), t), u)
  {
    FeedAppend(start, s + t, u);
    FeedAppend(start, s, t);
  }

  lemma VectorVerifies()
    ensures Feed(1, HrpExpanded("abcdef") + EVERY_SYMBOL + CHECK) == 1
  {
    hide Feed, HrpExpanded;
    PrefixExpanded();
    Part1();
    Part2();
    Part3();
    Part4();
    Part5();
    Part6();
    Part7();
    FeedAppend(1, [3, 3, 3, 3, 3, 3, 0, 1], [2, 3, 4, 5, 6]);
    var prefix := HrpExpanded("abcdef");
    FeedThree(1, prefix, FIRST, SECOND);
    FeedThree(Feed(1, prefix + FIRST + SECOND), THIRD, FOURTH, CHECK);
    FeedAppend(1, prefix + FIRST + SECOND, THIRD + FOURTH + CHECK);
    assert prefix + EVERY_SYMBOL + CHECK == (prefix + FIRST + SECOND) + (THIRD + FOURTH + CHECK);
  }

  /** The numbers from `from` on. */
  ghost predicate CountsFrom(s: seq<bv8>, from: nat) {
    forall j :: 0 <= j < |s| ==> s[j] as nat == from + j
  }

  lemma FirstCounts()
    ensures CountsFrom(FIRST, 0)
  {
  }

  lemma SecondCounts()
    ensures CountsFrom(SECOND, 8)
  {
  }

  lemma ThirdCounts()
    ensures CountsFrom(THIRD, 16)
  {
  }

  lemma FourthCounts()
    ensures CountsFrom(FOURTH, 24)
  {
  }

  lemma CountsOn(s: seq<bv8>, t: seq<bv8>)
    requires CountsFrom(s, 0) && CountsFrom(t, |s|)
    ensures CountsFrom(s + t, 0)
  {
  }

  lemma EverySymbol()
    ensures |EVERY_SYMBOL| == 32 && CountsFrom(EVERY_SYMBOL, 0) && Symbols(EVERY_SYMBOL)
  {
    FirstCounts();
    SecondCounts();
    ThirdCounts();
    FourthCounts();
    assert |FIRST| == 8 && |SECOND| == 8 && |THIRD| == 8 && |FOURTH| == 8;
    hide CountsFrom, FIRST, SECOND, THIRD, FOURTH;
    CountsOn(FIRST, SECOND);
    CountsOn(FIRST + SECOND, THIRD);
    CountsOn(FIRST + SECOND + THIRD, FOURTH);
    CountedSymbols(EVERY_SYMBOL);
  }

  lemma CountedSymbols(s: seq<bv8>)
    requires CountsFrom(s, 0) && |s| <= 32
    ensures Symbols(s)
  {
    forall i | 0 <= i < |s| ensures s[i] < 32 {
      SmallByte(s[i]);
    }
  }

  lemma CountedCharacters(s: seq<bv8>)
    requires CountsFrom(s, 0) && |s| == 32 && Symbols(s)
    ensures Chars(s) == CHARSET
  {
    CharsetLength();
    hide CHARSET;
  }

  lemma CheckSymbols()
    ensures Symbols(CHECK)
  {
  }

  lemma CheckCharacters()
    requires Symbols(CHECK)
    ensures Chars(CHECK) == "mqqqxw"
  {
  }

  lemma SpelledInParts(hrp: string, s: seq<bv8>, t: seq<bv8>)
    requires Symbols(s) && Symbols(t)
    ensures Symbols(s + t) && Spelled(hrp, s + t) == hrp + "1" + Chars(s) + Chars(t)
  {
    hide CharOf;
    assert Chars(s + t) == Chars(s) + Chars(t);
  }

  lemma Alphabet()
    ensures CHARSET == "qpzry9x8gf2tvdw0s3jn54khce6mua7l"
  {
  }

  /** The answer of the encoder for the prefix "abcdef" and the symbols 0 to 31. */
  lemma PublishedVector()
    ensures Symbols(EVERY_SYMBOL)
    ensures Spelled("abcdef", EVERY_SYMBOL + Checksum(HrpExpanded("abcdef") + EVERY_SYMBOL))
         == "abcdef" + "1" + "qpzry9x8gf2tvdw0s3jn54khce6mua7l" + "mqqqxw"
  {
    hide *;
    EverySymbol();
    CheckSymbols();
    VectorVerifies();
    assert |CHECK| == 6 by { CheckLength(); }
    ChecksumUnique(HrpExpanded("abcdef") + EVERY_SYMBOL, CHECK);
    SpelledInParts("abcdef", EVERY_SYMBOL, CHECK);
    CheckCharacters();
    CountedCharacters(EVERY_SYMBOL);
    Alphabet();
  }

  lemma CheckLength()
    ensures |CHECK| == 6
  {
  }
}
