/** Bech32 strings (SecureStore.kt, Bech32.encode) and the reading side of BIP 173, which the
    repository does not contain and which is written here only as a specification. */
module Bech32 {
  import opened Bytes
  import opened Pow2Facts
  import opened Bech32Bits
  import opened Bech32Checksum

  const CHARSET: string := "qpzry9x8gf2tvdw0s3jn54khce6mua7l"

  datatype EncodeResult = Encoded(text: string) | IndexOutOfBounds
  datatype Decoded = Valid(hrp: string, data: seq<bv8>) | Invalid

  // ---------- characters ----------

  lemma CharsetLength()
    ensures |CHARSET| == 32
  {
  }

  function CharOf(b: bv8): char
    requires b < 32
  {
    SymbolIndex(b);
    CHARSET[b as nat]
  }

  lemma SymbolIndex(b: bv8)
    requires b < 32
    ensures b as nat < 32
  {
  }

  function Chars(s: seq<bv8>): (t: string)
    requires Symbols(s)
    ensures |t| == |s|
  {
    seq(|s|, i requires 0 <= i < |s| => CharOf(s[i]))
  }

  /** Position of `c` in the alphabet from `i` on, 32 if there is none. */
  function IndexFrom(c: char, i: nat): (r: nat)
    requires i <= 32
    ensures i <= r <= 32
    ensures r < 32 ==> CHARSET[r] == c
    ensures forall j :: i <= j < r ==> CHARSET[j] != c
    decreases 32 - i
  {
    if i == 32 || CHARSET[i] == c then i else IndexFrom(c, i + 1)
  }

  /** No character stands twice in the alphabet. */
  lemma CharsetDistinct()
    ensures forall i, j :: 0 <= i < j < 32 ==> CHARSET[i] != CHARSET[j]
  {
  }

  lemma SeparatorNotInCharset()
    ensures '1' !in CHARSET
  {
  }

  lemma CharRoundTrip(b: bv8)
    requires b < 32
    ensures IndexFrom(CharOf(b), 0) == b as nat
  {
    hide CHARSET;
    SymbolIndex(b);
    var r := IndexFrom(CharOf(b), 0);
    CharsetDistinct();
    assert !(b as nat < r);
  }

  ghost function SymbolOf(c: char): bv8
    requires c in CHARSET
  {
    ToByte(IndexFrom(c, 0))
  }

  lemma SymbolOfChar(b: bv8)
    requires b < 32
    ensures CharOf(b) in CHARSET && SymbolOf(CharOf(b)) == b
  {
    hide CHARSET, IndexFrom, ToByte;
    SymbolIndex(b);
    CharsetLength();
    assert CharOf(b) == CHARSET[b as nat];
    CharRoundTrip(b);
    ToByteOfValue(b);
  }

  // ---------- reading ----------

  ghost function SymbolsOf(t: string): (s: seq<bv8>)
    requires forall i :: 0 <= i < |t| ==> t[i] in CHARSET
    ensures |s| == |t|
  {
    seq(|t|, i requires 0 <= i < |t| => SymbolOf(t[i]))
  }

  /** The prefix ends at the last '1'. */
  ghost function LastSeparator(text: string): (r: int)
    ensures -1 <= r < |text|
    ensures r >= 0 ==> text[r] == '1'
    ensures forall j :: r < j < |text| ==> text[j] != '1'
  {
    if text == [] then -1
    else if text[|text| - 1] == '1' then |text| - 1
    else LastSeparator(text[..|text| - 1])
  }

  /** BIP 173, decoding: split at the last separator, look the characters up, check that the
      register ends at 1, and drop the six checksum symbols. */
  ghost function Decode(text: string): Decoded {
    var at := LastSeparator(text);
    if at < 0 then Invalid else
    var hrp, tail := text[..at], text[at + 1..];
    if |tail| < 6 || exists i :: 0 <= i < |tail| && tail[i] !in CHARSET then Invalid else
    var s := SymbolsOf(tail);
    if Feed(1, HrpExpanded(hrp) + s) != 1 then Invalid else Valid(hrp, s[..|s| - 6])
  }

  /** A string whose tail spells the given symbols. */
  ghost function Spelled(hrp: string, s: seq<bv8>): string
    requires Symbols(s)
  {
    hrp + "1" + Chars(s)
  }

  lemma CharsInCharset(s: seq<bv8>)
    requires Symbols(s)
    ensures forall i :: 0 <= i < |s| ==> Chars(s)[i] in CHARSET && Chars(s)[i] != '1'
    ensures SymbolsOf(Chars(s)) == s
  {
    hide CHARSET, CharOf, SymbolOf;
    SeparatorNotInCharset();
    forall i | 0 <= i < |s| ensures Chars(s)[i] in CHARSET && SymbolOf(Chars(s)[i]) == s[i] {
      SymbolOfChar(s[i]);
    }
  }

  /** What the reader sees in such a string. */
  lemma DecodeSpelled(hrp: string, s: seq<bv8>)
    requires Symbols(s) && |s| >= 6
    ensures Decode(Spelled(hrp, s)) ==
            if Feed(1, HrpExpanded(hrp) + s) == 1 then Valid(hrp, s[..|s| - 6]) else Invalid
  {
    hide CHARSET, Feed, SymbolsOf, Chars, LastSeparator;
    CharsInCharset(s);
    SplitAtSeparator(hrp, Chars(s));
  }

  lemma SplitAtSeparator(hrp: string, tail: string)
    requires '1' !in tail
    ensures LastSeparator(hrp + "1" + tail) == |hrp|
    ensures (hrp + "1" + tail)[..|hrp|] == hrp && (hrp + "1" + tail)[|hrp| + 1..] == tail
  {
    hide LastSeparator;
    var text := hrp + "1" + tail;
    Halves(hrp, '1', tail);
    assert forall j :: |hrp| < j < |text| ==> text[j] == text[|hrp| + 1..][j - |hrp| - 1];
  }

  lemma Halves(s: string, c: char, t: string)
    ensures (s + [c] + t)[|s|] == c
    ensures (s + [c] + t)[..|s|] == s && (s + [c] + t)[|s| + 1..] == t
  {
  }

  // ---------- writing ----------

  method Encode(hrp: string, data: seq<bv8>) returns (r: EncodeResult)
    ensures r == if Symbols(data) then Encoded(Spelled(hrp, data + Checksum(HrpExpanded(hrp) + data))) else IndexOutOfBounds
  {
    hide CHARSET, Checksum, CharOf;
    CharsetLength();
    var checksum := CreateChecksum(hrp, data);
    ChecksumIsSymbols(HrpExpanded(hrp) + data);
    var combined := new bv8[|data| + checksum.Length];
    forall i | 0 <= i < |data| {
      combined[i] := data[i];
    }
    forall i | 0 <= i < checksum.Length {
      combined[|data| + i] := checksum[i];
    }
    ghost var all := data + Checksum(HrpExpanded(hrp) + data);
    assert combined[..] == all;
    var sb := hrp + "1";
    for k := 0 to combined.Length
      invariant combined[..] == all
      invariant Symbols(all[..k])
      invariant sb == hrp + "1" + Chars(all[..k])
    {
      var b := combined[k];
      assert b == all[k];
      if b >= 32 {
        assert !Symbols(data);
        return IndexOutOfBounds;
      }
      CharAt(b);
      assert all[..k + 1] == all[..k] + [b];
      assert Chars(all[..k + 1]) == Chars(all[..k]) + [CharOf(b)];
      sb := sb + [CHARSET[b as nat]];
    }
    assert all[..combined.Length] == all;
    assert Symbols(data) by {
      forall i | 0 <= i < |data| ensures data[i] < 32 {
        assert data[i] == all[i];
      }
    }
    return Encoded(sb);
  }

  lemma CharAt(b: bv8)
    requires b < 32
    ensures b as nat < 32 && CharOf(b) == CHARSET[b as nat]
  {
    hide CHARSET;
    SymbolIndex(b);
  }

  // ---------- what the encoder guarantees ----------

  /** Every prefix and every symbol string survive encoding and decoding, checksum check included. */
  lemma EncodeDecode(hrp: string, data: seq<bv8>, text: string)
    requires Symbols(data)
    requires text == Spelled(hrp, data + Checksum(HrpExpanded(hrp) + data))
    ensures Decode(text) == Valid(hrp, data)
  {
    hide Feed, Checksum, Spelled, Decode;
    var values := HrpExpanded(hrp) + data;
    var s := data + Checksum(values);
    ChecksumIsSymbols(values);
    ChecksumVerifies(values);
    DecodeSpelled(hrp, s);
    assert HrpExpanded(hrp) + s == values + Checksum(values);
    assert s[..|s| - 6] == data;
  }

  /** A key of any length survives: bytes to symbols, symbols to text, and back. */
  lemma KeyRoundTrip(hrp: string, key: seq<bv8>, symbols: ConvertResult, text: string, back: ConvertResult)
    requires IsConversion(key, 8, 5, true, symbols)
    requires symbols.Converted? && Symbols(symbols.out) ==>
               text == Spelled(hrp, symbols.out + Checksum(HrpExpanded(hrp) + symbols.out))
    requires Decode(text).Valid? ==> IsConversion(Decode(text).data, 5, 8, false, back)
    ensures Decode(text).Valid? && Decode(text).hrp == hrp
    ensures back == Converted(key)
  {
    hide Decode, Spelled, Checksum, IsConversion;
    PaddedNeverThrows(key, symbols);
    FiveBitSymbols(symbols.out);
    EncodeDecode(hrp, symbols.out, text);
    BytesRoundTrip(key, symbols, back);
  }

  lemma PaddedNeverThrows(key: seq<bv8>, symbols: ConvertResult)
    requires IsConversion(key, 8, 5, true, symbols)
    ensures symbols.Converted? && InRange(symbols.out, 5)
  {
    AllBytesFit(key);
  }

  lemma FiveBitSymbols(s: seq<bv8>)
    requires InRange(s, 5)
    ensures Symbols(s)
  {
    assert Pow2(5) == 32;
    forall i | 0 <= i < |s| ensures s[i] < 32 {
      SmallByte(s[i]);
    }
  }

  lemma SmallByte(b: bv8)
    requires b as nat < 32
    ensures b < 32
  {
  }

  /** A burst of at most six replaced data or checksum characters makes the string invalid. */
  lemma TamperedBurstRejected(hrp: string, data: seq<bv8>, s': seq<bv8>, from: nat, until: nat)
    requires Symbols(data) && Symbols(s') && |s'| == |data| + 6
    requires from <= until <= |s'| && until - from <= 6
    requires var s := data + Checksum(HrpExpanded(hrp) + data);
             s' != s && s'[..from] == s[..from] && s'[until..] == s[until..]
    ensures Decode(Spelled(hrp, s')) == Invalid
  {
    hide Feed, Checksum, Spelled, Decode;
    var values := HrpExpanded(hrp) + data;
    var s := data + Checksum(values);
    ChecksumIsSymbols(values);
    ChecksumVerifies(values);
    assert HrpExpanded(hrp) + s == values + Checksum(values);
    var front, tail := HrpExpanded(hrp) + s[..from], s[until..];
    Cut(s, from, until);
    Cut(s', from, until);
    assert HrpExpanded(hrp) + s == front + s[from..until] + tail;
    assert HrpExpanded(hrp) + s' == front + s'[from..until] + tail;
    BurstDetected(1, front, s[from..until], s'[from..until], tail);
    DecodeSpelled(hrp, s');
  }

  lemma DifferentLowBits(c: char, d: char)
    requires c != d && c as int / 32 == d as int / 32
    ensures HighBits(c) == HighBits(d) && LowBits(c) != LowBits(d)
  {
    assert LowBits(c) as nat == c as int % 32 && LowBits(d) as nat == d as int % 32;
  }

  /** One letter of the prefix for another with the same upper bits changes one protected symbol. */
  lemma ExpandedLetter(hrp: string, k: nat, c: char)
    requires k < |hrp| && c != hrp[k] && c as int / 32 == hrp[k] as int / 32
    ensures HrpExpanded(hrp[k := c]) == HrpExpanded(hrp)[|hrp| + 1 + k := LowBits(c)]
    ensures HrpExpanded(hrp)[|hrp| + 1 + k] != LowBits(c)
  {
    hide HighBits, LowBits;
    DifferentLowBits(c, hrp[k]);
  }

  /** Replacing one character of the prefix by another of the same group of 32, such as one lower-case
      letter by another, makes the string invalid. */
  lemma TamperedPrefixRejected(hrp: string, data: seq<bv8>, k: nat, c: char)
    requires Symbols(data) && k < |hrp| && c != hrp[k] && c as int / 32 == hrp[k] as int / 32
    ensures Decode(Spelled(hrp[k := c], data + Checksum(HrpExpanded(hrp) + data))) == Invalid
  {
    hide Feed, Checksum, Spelled, Decode, HrpExpanded, LowBits;
    var values := HrpExpanded(hrp) + data;
    var s, at := data + Checksum(values), |hrp| + 1 + k;
    ChecksumIsSymbols(values);
    ChecksumVerifies(values);
    var all := HrpExpanded(hrp) + s;
    assert all == values + Checksum(values);
    ExpandedLetter(hrp, k, c);
    assert HrpExpanded(hrp[k := c]) + s == all[at := LowBits(c)];
    ChangedByteDetected(1, all, at, LowBits(c));
    DecodeSpelled(hrp[k := c], s);
  }

  lemma Cut(s: seq<bv8>, from: nat, until: nat)
    requires from <= until <= |s|
    ensures s == s[..from] + s[from..until] + s[until..]
  {
  }
}
