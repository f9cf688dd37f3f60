/** From text to lines and back, whatever order the lines arrive in. */
module ChunkRoundTrip {
  import opened Text
  import opened Sorting
  import opened Folds
  import opened Chunks
  import opened ChunkProofs
  import Decimal

  // ---------- trimming ----------

  predicate AllSpace(s: string) {
    forall i :: 0 <= i < |s| ==> IsSpace(s[i])
  }

  lemma {:induction false} TrimLeftOf(a: string, core: string)
    requires AllSpace(a) && (core == [] || !IsSpace(core[0]))
    ensures TrimLeft(a + core) == core
  {
    if a == [] {
      assert a + core == core;
    } else {
      assert (a + core)[1..] == a[1..] + core;
      TrimLeftOf(a[1..], core);
    }
  }

  lemma {:induction false} TrimRightOf(core: string, b: string)
    requires AllSpace(b) && (core == [] || !IsSpace(core[|core| - 1]))
    ensures TrimRight(core + b) == core
  {
    if b == [] {
      assert core + b == core;
    } else {
      var n := |b| - 1;
      assert (core + b)[..|core| + n] == core + b[..n];
      TrimRightOf(core, b[..n]);
    }
  }

  /** Trimming text that is a trimmed core between white space. */
  lemma TrimOf(a: string, core: string, b: string)
    requires AllSpace(a) && AllSpace(b) && core != [] && Trimmed(core)
    ensures Trim(a + core + b) == core
  {
    assert a + core + b == a + (core + b);
    TrimLeftOf(a, core + b);
    TrimRightOf(core, b);
  }

  lemma SpaceBefore(c: char, s: string)
    requires IsSpace(c) && AllSpace(s)
    ensures AllSpace([c] + s) && AllSpace(s + [c])
  {
  }

  lemma {:induction false} LeftSpace(s: string) returns (a: string)
    ensures AllSpace(a) && s == a + TrimLeft(s)
  {
    if s != [] && IsSpace(s[0]) {
      hide AllSpace, IsSpace;
      var rest := LeftSpace(s[1..]);
      a := [s[0]] + rest;
      SpaceBefore(s[0], rest);
      Reassociate([s[0]], rest, TrimLeft(s[1..]));
      assert s == [s[0]] + s[1..];
    } else {
      a := [];
    }
  }

  lemma Reassociate(a: string, b: string, c: string)
    ensures (a + b) + c == a + (b + c)
  {
  }

  lemma {:induction false} RightSpace(s: string) returns (b: string)
    ensures AllSpace(b) && s == TrimRight(s) + b
  {
    if s != [] && IsSpace(s[|s| - 1]) {
      hide AllSpace, IsSpace;
      var n := |s| - 1;
      var rest := RightSpace(s[..n]);
      b := rest + [s[n]];
      SpaceBefore(s[n], rest);
      Reassociate(TrimRight(s[..n]), rest, [s[n]]);
      assert s == s[..n] + [s[n]];
    } else {
      b := [];
    }
  }

  /** Every text is its trimmed core between white space. */
  lemma Decompose(s: string) returns (a: string, b: string)
    ensures AllSpace(a) && AllSpace(b) && s == a + Trim(s) + b
  {
    hide TrimLeft, TrimRight, AllSpace;
    a := LeftSpace(s);
    b := RightSpace(TrimLeft(s));
    Reassociate(a, Trim(s), b);
  }

  // ---------- one line ----------

  /** IDs as ChunkString makes them. */
  predicate ValidId(id: string) {
    id != "" && SpaceFree(id)
  }

  /** Chunks whose line can be read back. */
  predicate Printable(c: Chunk) {
    && c.version == 1 && ValidId(c.id)
    && 1 <= c.index <= c.total <= Decimal.MAX_INT
    && Trim(c.data) != ""
  }

  function Position(c: Chunk): string {
    Decimal.Print(c.index) + "/" + Decimal.Print(c.total)
  }

  function Header(c: Chunk): string {
    MAGIC + " " + c.id + " " + Position(c) + " "
  }

  lemma NumberHas(n: int, c: char)
    requires c == ' ' || c == '/'
    ensures c !in Decimal.Print(n)
  {
    Decimal.PrintCharacters(n);
  }

  lemma PositionParts(c: Chunk)
    requires 1 <= c.index <= c.total <= Decimal.MAX_INT
    ensures ' ' !in Position(c)
    ensures CutAt(Position(c), '/') == Split(Decimal.Print(c.index), Decimal.Print(c.total))
    ensures Decimal.Atoi(Decimal.Print(c.index)) == Decimal.Number(c.index)
    ensures Decimal.Atoi(Decimal.Print(c.total)) == Decimal.Number(c.total)
  {
    hide Decimal.Print, Decimal.Atoi;
    NumberHas(c.index, ' ');
    NumberHas(c.total, ' ');
    NumberHas(c.index, '/');
    IndexOfFirst(Decimal.Print(c.index), '/', Decimal.Print(c.total));
    Decimal.AtoiOfPrint(c.index);
    Decimal.AtoiOfPrint(c.total);
  }

  lemma CutAtFirst(front: string, c: char, tail: string)
    requires c !in front
    ensures CutAt(front + [c] + tail, c) == Split(front, tail)
  {
    IndexOfFirst(front, c, tail);
  }

  /** The four fields of a trimmed line. */
  lemma FieldsOf(magic: string, id: string, position: string, data: string)
    requires ' ' !in magic && ' ' !in id && ' ' !in position
    ensures FourFields(magic + " " + id + " " + position + " " + data) == Ok((magic, id, position, data))
  {
    hide CutAt;
    var c := position + " " + data;
    var b := id + " " + c;
    CutAtFirst(magic, ' ', b);
    CutAtFirst(id, ' ', c);
    CutAtFirst(position, ' ', data);
    assert magic + " " + id + " " + position + " " + data == magic + " " + b;
  }

  lemma MagicFacts()
    ensures ' ' !in MAGIC && MAGIC != "" && !IsSpace(MAGIC[0])
  {
  }

  lemma SpaceFreeHasNoBlank(s: string)
    requires SpaceFree(s)
    ensures ' ' !in s
  {
  }

  /** Trimming a printed line removes the white space behind the data and nothing else. */
  lemma TrimLine(c: Chunk, core: string, b: string)
    requires core != "" && !IsSpace(core[|core| - 1]) && AllSpace(b) && c.data == core + b
    ensures Trim(RenderLine(c)) == Header(c) + core
  {
    MagicFacts();
    var line := Header(c) + core;
    assert line[0] == MAGIC[0];
    assert line[|line| - 1] == core[|core| - 1];
    assert RenderLine(c) == [] + line + b;
    TrimOf([], line, b);
  }

  /** The checks behind the field split, on the fields of a printable chunk. */
  lemma ParseFromFields(line: string, c: Chunk, data: string)
    requires Printable(c) && Trim(data) == Trim(c.data)
    requires Trim(line) != "" && FourFields(Trim(line)) == Ok((MAGIC, c.id, Position(c), data))
    ensures ParseChunkLine(line) == Ok(c.(data := Trim(c.data)))
  {
    hide Trim, FourFields, CutAt, Decimal.Print, Decimal.Atoi, Position, SpaceFree;
    PositionParts(c);
    SpaceFreeTrimmed(c.id);
  }

  lemma HeaderFields(c: Chunk, core: string)
    requires Printable(c)
    ensures FourFields(Header(c) + core) == Ok((MAGIC, c.id, Position(c), core))
    ensures Header(c) + core != ""
  {
    hide Trim, FourFields, Decimal.Print, Decimal.Atoi, Position, SpaceFree;
    MagicFacts();
    SpaceFreeHasNoBlank(c.id);
    PositionParts(c);
    FieldsOf(MAGIC, c.id, Position(c), core);
    assert Header(c) + core == MAGIC + " " + c.id + " " + Position(c) + " " + core;
  }

  /** Reading a printed line gives the chunk back, its data trimmed. */
  lemma ParseRendered(c: Chunk)
    requires Printable(c)
    ensures ParseChunkLine(RenderLine(c)) == Ok(c.(data := Trim(c.data)))
  {
    hide Trim, ParseChunkLine, RenderLine, Header, FourFields, AllSpace;
    var a, b := Decompose(c.data);
    var core := a + Trim(c.data);
    TrimmedLeft(a, c.data);
    TrimLine(c, core, b);
    HeaderFields(c, core);
    ParseFromFields(RenderLine(c), c, core);
  }

  lemma TrimmedLeft(a: string, data: string)
    requires AllSpace(a) && Trim(data) != ""
    ensures var core := a + Trim(data);
            core != "" && !IsSpace(core[|core| - 1]) && Trim(core) == Trim(data)
  {
    hide AllSpace, Trim, IsSpace;
    var core := a + Trim(data);
    assert core[|core| - 1] == Trim(data)[|Trim(data)| - 1];
    NothingIsSpace();
    TrimTrimmed(data);
    TrimOf(a, Trim(data), []);
    assert core + [] == core;
  }

  lemma TrimTrimmed(data: string)
    ensures Trimmed(Trim(data))
  {
  }

  lemma NothingIsSpace()
    ensures AllSpace([])
  {
  }

  // ---------- the parts ----------

  function Flatten(parts: seq<string>): string {
    if parts == [] then "" else Flatten(parts[..|parts| - 1]) + parts[|parts| - 1]
  }

  lemma {:induction false} FlattenCons(x: string, parts: seq<string>)
    ensures Flatten([x] + parts) == x + Flatten(parts)
  {
    if parts == [] {
      assert [x] + parts == [x];
      assert [x][..0] == [];
    } else {
      var n := |parts| - 1;
      assert ([x] + parts)[..n + 1] == [x] + parts[..n];
      FlattenCons(x, parts[..n]);
    }
  }

  /** Cutting loses nothing, and no part is empty or too long. */
  lemma {:induction false} PartsSound(s: string, n: nat)
    requires n > 0
    ensures Flatten(Parts(s, n)) == s
    ensures forall i :: 0 <= i < |Parts(s, n)| ==> 1 <= |Parts(s, n)[i]| <= n
    ensures |Parts(s, n)| <= |s|
  {
    if s == [] {
    } else if |s| <= n {
      assert [s][..0] == [];
    } else {
      PartsSound(s[n..], n);
      FlattenCons(s[..n], Parts(s[n..], n));
      assert s == s[..n] + s[n..];
    }
  }

  function TrimPart(s: string): string {
    Trim(s)
  }

  predicate AllTrimmed(parts: seq<string>) {
    forall i :: 0 <= i < |parts| ==> Trimmed(parts[i])
  }

  lemma TrimmedSnoc(front: seq<string>, x: string)
    ensures Flatten(front + [x]) == Flatten(front) + x
    ensures Flatten(Map(TrimPart, front + [x])) == Flatten(Map(TrimPart, front)) + Trim(x)
    ensures AllTrimmed(front + [x]) <==> AllTrimmed(front) && Trimmed(x)
  {
    hide Trim, Trimmed;
    assert (front + [x])[..|front|] == front;
    assert Map(TrimPart, front + [x]) == Map(TrimPart, front) + [Trim(x)];
    assert (Map(TrimPart, front) + [Trim(x)])[..|front|] == Map(TrimPart, front);
  }

  lemma Shorter(a: string, b: string, p: bool, y: string, x: string, q: bool)
    requires (p ==> a == b) && |a| <= |b| && (!p ==> |a| < |b|)
    requires (q ==> y == x) && |y| <= |x| && (!q ==> |y| < |x|)
    ensures (p && q ==> a + y == b + x) && |a + y| <= |b + x| && (!(p && q) ==> |a + y| < |b + x|)
  {
  }

  /** Trimming the parts shortens the text unless every part was trimmed already. */
  lemma {:induction false} TrimmedParts(parts: seq<string>)
    ensures AllTrimmed(parts) ==> Flatten(Map(TrimPart, parts)) == Flatten(parts)
    ensures |Flatten(Map(TrimPart, parts))| <= |Flatten(parts)|
    ensures !AllTrimmed(parts) ==> |Flatten(Map(TrimPart, parts))| < |Flatten(parts)|
  {
    if parts == [] {
      assert Map(TrimPart, parts) == parts;
    } else {
      hide *;
      var front, x := parts[..|parts| - 1], parts[|parts| - 1];
      assert parts == front + [x];
      TrimmedParts(front);
      TrimFixpoint(x);
      TrimmedSnoc(front, x);
      Shorter(Flatten(Map(TrimPart, front)), Flatten(front), AllTrimmed(front), Trim(x), x, Trimmed(x));
    }
  }

  // ---------- joining what was read ----------

  function TrimChunk(c: Chunk): Chunk {
    c.(data := Trim(c.data))
  }

  lemma {:induction false} AssembleNumbered(parts: seq<string>, id: string, n: nat)
    requires n <= |parts|
    ensures Assemble(Map(TrimChunk, Numbered(parts, id)), n) == Flatten(Map(TrimPart, parts[..n]))
  {
    if n == 0 {
      assert Map(TrimPart, parts[..0]) == [];
    } else {
      hide Trim;
      var chunks := Map(TrimChunk, Numbered(parts, id));
      AssembleNumbered(parts, id, n - 1);
      assert chunks[n - 1].index == n;
      DataOfIndex(chunks, chunks[n - 1]);
      assert Map(TrimPart, parts[..n])[..n - 1] == Map(TrimPart, parts[..n - 1]);
    }
  }

  lemma NumberedComplete(parts: seq<string>, id: string)
    requires parts != []
    ensures Complete(Map(TrimChunk, Numbered(parts, id)))
    ensures Map(TrimChunk, Numbered(parts, id))[0].total == |parts|
  {
    hide Trim;
    var chunks := Map(TrimChunk, Numbered(parts, id));
    assert Map(Index, chunks) == UpTo(|parts|);
  }

  /** The chunks of a text, each trimmed, join to the concatenation of the trimmed parts. */
  lemma JoinNumbered(parts: seq<string>, id: string)
    requires parts != []
    ensures Join(Map(TrimChunk, Numbered(parts, id))) == Ok(Flatten(Map(TrimPart, parts)))
  {
    NumberedComplete(parts, id);
    JoinIff(Map(TrimChunk, Numbered(parts, id)));
    hide Join, Complete;
    AssembleNumbered(parts, id, |parts|);
    assert parts[..|parts|] == parts;
  }

  function Parsed(line: string): Chunk {
    var r := ParseChunkLine(line);
    if r.Ok? then r.value else Chunk(0, "", 0, 0, "")
  }

  lemma {:induction false} ParseAllMap(lines: seq<string>, n: nat)
    requires n <= |lines| && forall i :: 0 <= i < n ==> ParseChunkLine(lines[i]).Ok?
    ensures ParseAll(lines, n) == Ok(Map(Parsed, lines[..n]))
  {
    hide ParseChunkLine;
    if n > 0 {
      ParseAllMap(lines, n - 1);
      assert lines[..n] == lines[..n - 1] + [lines[n - 1]];
      assert Map(Parsed, lines[..n]) == Map(Parsed, lines[..n - 1]) + [Parsed(lines[n - 1])];
    }
  }

  lemma LinesParse(chunks: seq<Chunk>)
    requires forall c :: c in chunks ==> Printable(c)
    ensures forall l :: l in Lines(chunks) ==> ParseChunkLine(l).Ok?
    ensures Map(Parsed, Lines(chunks)) == Map(TrimChunk, chunks)
  {
    hide ParseChunkLine, Printable, RenderLine, Trim;
    var lines := Lines(chunks);
    forall k | 0 <= k < |chunks| ensures ParseChunkLine(lines[k]) == Ok(TrimChunk(chunks[k])) {
      ParseRendered(chunks[k]);
    }
  }

  /** Reading a permutation of printed lines yields a permutation of the trimmed chunks. */
  lemma ParsePermutation(chunks: seq<Chunk>, lines: seq<string>)
    requires forall c :: c in chunks ==> Printable(c)
    requires multiset(lines) == multiset(Lines(chunks))
    ensures ParseAll(lines, |lines|).Ok?
    ensures multiset(ParseAll(lines, |lines|).value) == multiset(Map(TrimChunk, chunks))
  {
    hide ParseChunkLine, Printable, Lines, TrimChunk, Parsed;
    LinesParse(chunks);
    SameElements(lines, Lines(chunks));
    ParseAllMap(lines, |lines|);
    assert lines[..|lines|] == lines;
    BagPermutation(Parsed, lines, Lines(chunks));
  }

  // ---------- the theorem ----------

  lemma NumberedPrintable(parts: seq<string>, id: string)
    requires ValidId(id) && |parts| <= Decimal.MAX_INT
    requires forall i :: 0 <= i < |parts| ==> Trim(parts[i]) != ""
    ensures forall c :: c in Numbered(parts, id) ==> Printable(c)
  {
    hide Trim, ValidId;
  }

  /** What comes out at the far end: the concatenation of the trimmed parts, in every line order. */
  lemma Transport(parts: seq<string>, id: string, lines: seq<string>)
    requires parts != [] && ValidId(id) && |parts| <= Decimal.MAX_INT
    requires forall i :: 0 <= i < |parts| ==> Trim(parts[i]) != ""
    requires multiset(lines) == multiset(Lines(Numbered(parts, id)))
    ensures JoinedLines(lines) == Ok(Flatten(Map(TrimPart, parts)))
  {
    hide ParseChunkLine, Join, Trim, ValidId, Printable, RenderLine;
    NumberedPrintable(parts, id);
    ParsePermutation(Numbered(parts, id), lines);
    JoinNumbered(parts, id);
    assert |lines| == |multiset(lines)| == |parts|;
    JoinPermutation(Map(TrimChunk, Numbered(parts, id)), ParseAll(lines, |lines|).value);
  }

  /** Does RenderChunkLines accept the chunks of these parts? */
  predicate NoBlankPart(parts: seq<string>) {
    forall i :: 0 <= i < |parts| ==> Trim(parts[i]) != ""
  }

  lemma {:induction false} RenderAccepts(parts: seq<string>, id: string, n: nat)
    requires n <= |parts| && parts != []
    ensures RenderScan(Numbered(parts, id), n).Fine? <==> forall i :: 0 <= i < n ==> Trim(parts[i]) != ""
  {
    hide Trim;
    if n > 0 {
      RenderAccepts(parts, id, n - 1);
    }
  }

  lemma NumberedSorted(parts: seq<string>, id: string, sorted: seq<Chunk>)
    requires Sorted(ByIndex, sorted) && multiset(sorted) == multiset(Numbered(parts, id))
    ensures sorted == Numbered(parts, id)
  {
    var chunks := Numbered(parts, id);
    forall x, y | x in chunks && y in chunks && ByIndex(x, y) && ByIndex(y, x) ensures x == y {
    }
    SortedUnique(ByIndex, chunks, sorted);
  }

  /** The lines RenderChunkLines prints for a chunked text. */
  lemma RenderedLines(parts: seq<string>, id: string, sorted: seq<Chunk>)
    requires Sorted(ByIndex, sorted) && multiset(sorted) == multiset(Numbered(parts, id))
    ensures Lines(sorted) == Lines(Numbered(parts, id))
  {
    NumberedSorted(parts, id, sorted);
  }

  /** Text survives chunking, printing, any reordering of the lines, and joining if and only if no
      part of it begins or ends with white space.  When a part is blank no lines are printed at
      all; when a part is merely untrimmed, a strictly shorter text comes back. */
  lemma RoundTripIff(input: string, maxChunkLen: int, id: string, lines: seq<string>)
    requires Trim(input) != "" && maxChunkLen > 0 && ValidId(id) && |input| <= Decimal.MAX_INT
    requires var chunks := Chunked(input, maxChunkLen, id).value;
             RenderScan(chunks, |chunks|).Fine? ==> multiset(lines) == multiset(Lines(chunks))
    ensures var parts := Parts(Trim(input), maxChunkLen);
            var chunks := Chunked(input, maxChunkLen, id).value;
            && (RenderScan(chunks, |chunks|).Fine? <==> NoBlankPart(parts))
            && (NoBlankPart(parts) ==> JoinedLines(lines).Ok? && |JoinedLines(lines).value| <= |Trim(input)|)
            && (NoBlankPart(parts) && JoinedLines(lines) == Ok(Trim(input)) <==> AllTrimmed(parts))
  {
    hide Trim, Lines, JoinedLines, RenderScan, ValidId;
    var parts := Parts(Trim(input), maxChunkLen);
    PartsSound(Trim(input), maxChunkLen);
    RenderAccepts(parts, id, |parts|);
    TrimmedParts(parts);
    forall i | 0 <= i < |parts| ensures Trimmed(parts[i]) ==> Trim(parts[i]) != "" {
      TrimFixpoint(parts[i]);
    }
    if NoBlankPart(parts) {
      Transport(parts, id, lines);
    }
  }

  /** The same from the outcome of RenderChunkLines on the chunks of the text: it prints exactly when
      no part is blank, the lines come in index order whatever the unstable sort did, and any
      reordering of them joins to the text if and only if no part begins or ends with white space. */
  lemma PrintedRoundTrip(input: string, maxChunkLen: int, id: string, after: seq<Chunk>, r: Result<seq<string>>, lines: seq<string>)
    requires Trim(input) != "" && maxChunkLen > 0 && ValidId(id) && |input| <= Decimal.MAX_INT
    requires RenderOutcome(Chunked(input, maxChunkLen, id).value, after, r)
    requires r.Ok? ==> multiset(lines) == multiset(r.value)
    ensures var parts := Parts(Trim(input), maxChunkLen);
            && (r.Ok? <==> NoBlankPart(parts))
            && (r.Ok? ==> r.value == Lines(Numbered(parts, id)) && JoinedLines(lines).Ok?)
            && (r.Ok? && JoinedLines(lines) == Ok(Trim(input)) <==> AllTrimmed(parts))
  {
    hide Trim, Lines, JoinedLines, RenderScan, ValidId, NoBlankPart, AllTrimmed, Sorted;
    var parts := Parts(Trim(input), maxChunkLen);
    if r.Ok? {
      RenderedLines(parts, id, after);
    }
    RoundTripIff(input, maxChunkLen, id, lines);
  }

  /** White-space-free text survives every chunk size and every order of its lines. */
  lemma SpaceFreeRoundTrip(input: string, maxChunkLen: int, id: string, lines: seq<string>)
    requires input != "" && SpaceFree(input) && maxChunkLen > 0 && ValidId(id) && |input| <= Decimal.MAX_INT
    requires multiset(lines) == multiset(Lines(Numbered(Parts(input, maxChunkLen), id)))
    ensures Chunked(input, maxChunkLen, id) == Ok(Numbered(Parts(input, maxChunkLen), id))
    ensures JoinedLines(lines) == Ok(input)
  {
    SpaceFreeTrimmed(input);
    PartsSpaceFree(input, maxChunkLen);
    RoundTripIff(input, maxChunkLen, id, lines);
  }

  lemma {:induction false} PartsSpaceFree(s: string, n: nat)
    requires n > 0 && SpaceFree(s)
    ensures AllTrimmed(Parts(s, n))
  {
    if |s| > n {
      PartsSpaceFree(s[n..], n);
    }
  }

  lemma BlankParts()
    ensures Parts("ab c", 3) == ["ab ", "c"] && Trim("ab ") == "ab" && Trim("c") == "c"
  {
    assert "ab c"[..3] == "ab ";
    assert "ab c"[3..] == "c";
    TrimFixpoint("ab");
    TrimFixpoint("c");
    assert "ab "[..2] == "ab";
    assert TrimRight("ab ") == TrimRight("ab");
  }

  /** "ab c" in pieces of three: the blank ends a part, and "abc" comes out, in every order of the
      two lines. */
  lemma BlankIsLost(id: string, lines: seq<string>)
    requires ValidId(id) && multiset(lines) == multiset(Lines(Numbered(Parts("ab c", 3), id)))
    ensures JoinedLines(lines) == Ok("abc")
  {
    BlankParts();
    var parts := ["ab ", "c"];
    hide Trim, Parts, Lines, JoinedLines, ValidId;
    Transport(parts, id, lines);
    assert Map(TrimPart, parts) == ["ab", "c"];
    assert ["ab", "c"][..1] == ["ab"] && ["ab"][..0] == [];
    assert Flatten(["ab"]) == "ab";
    assert Flatten(["ab", "c"]) == "abc";
  }

  // ---------- the format ----------

  lemma DecimalExample()
    ensures Decimal.Print(12) == "12" && Decimal.Print(30) == "30"
  {
    assert Decimal.PrintNat(1) == "1" && Decimal.PrintNat(3) == "3";
  }

  /** A line as it is sent. */
  lemma LineExample()
    ensures RenderLine(Chunk(1, "a-Z_9", 12, 30, "uri")) == "SNBCHUNK/1 a-Z_9 12/30 uri"
  {
    DecimalExample();
  }

  lemma CutMeans(s: string, c: char)
    requires CutAt(s, c).Split?
    ensures s == CutAt(s, c).front + [c] + CutAt(s, c).tail && c !in CutAt(s, c).front
  {
  }

  /** What a line says that is read as a chunk. */
  ghost predicate Says(s: string, id: string, index: string, total: string, data: string) {
    s == "SNBCHUNK/1" + " " + id + " " + (index + "/" + total) + " " + data && ' ' !in id && ' ' !in index + "/" + total && '/' !in index
  }

  /** A line is read as a chunk only if it has this form around the ID, the two numbers and the data of
      the chunk. */
  lemma ParsedMeans(line: string) returns (id: string, index: string, total: string, data: string)
    requires ParseChunkLine(line).Ok?
    ensures var c := ParseChunkLine(line).value;
            && Says(Trim(line), id, index, total, data)
            && c.version == 1 && c.id == Trim(id) != "" && c.data == Trim(data) != ""
            && Decimal.Atoi(index) == Decimal.Number(c.index) && Decimal.Atoi(total) == Decimal.Number(c.total)
            && 1 <= c.index <= c.total
  {
    hide Trim, CutAt, Decimal.Atoi;
    var s := Trim(line);
    var a := CutAt(s, ' ');
    var b := CutAt(a.tail, ' ');
    var c := CutAt(b.tail, ' ');
    var d := CutAt(c.front, '/');
    CutMeans(s, ' ');
    CutMeans(a.tail, ' ');
    CutMeans(b.tail, ' ');
    CutMeans(c.front, '/');
    id, index, total, data := b.front, d.front, d.tail, c.tail;
    assert c.front == index + "/" + total;
    assert s == "SNBCHUNK/1" + " " + (id + " " + (c.front + " " + data));
    Regrouped("SNBCHUNK/1", id, c.front, data);
  }

  lemma Regrouped(magic: string, id: string, position: string, data: string)
    ensures magic + " " + (id + " " + (position + " " + data)) == magic + " " + id + " " + position + " " + data
  {
  }
}
