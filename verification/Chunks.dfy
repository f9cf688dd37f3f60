/** Chunked transport of a bundle URI as text lines (pkg/outsidectl/chunk.go). */
module Chunks {
  import opened Text
  import opened Sorting
  import Decimal

  datatype Chunk = Chunk(version: int, id: string, index: int, total: int, data: string)

  datatype Error =
    | EmptyInput | InvalidChunkSize | NoChunks | UnsupportedVersion | MixedIds | InconsistentTotal
    | InvalidIndex | EmptyChunkData | EmptyLine | InvalidFormat | MissingChunkId | InvalidChunkIndex
    | InvalidChunkTotal | InvalidChunkRange | NoLines | DuplicateIndex | MissingChunks(seen: nat, total: int)

  datatype Result<T> = Ok(value: T) | Err(error: Error)
  datatype Check = Fine | Problem(error: Error)

  const MAGIC := "SNBCHUNK/1"

  // ---------- cutting ----------

  /** `s` in pieces of `n` characters, the last one possibly shorter. */
  function Parts(s: string, n: nat): (r: seq<string>)
    requires n > 0
    ensures s != [] ==> r != []
  {
    if s == [] then [] else if |s| <= n then [s] else [s[..n]] + Parts(s[n..], n)
  }

  function Numbered(parts: seq<string>, id: string): (r: seq<Chunk>)
    ensures |r| == |parts|
  {
    seq(|parts|, i requires 0 <= i < |parts| => Chunk(1, id, i + 1, |parts|, parts[i]))
  }

  /** `id` stands for the first twelve characters of the base64url SHA-256 of the trimmed input. */
  function Chunked(input: string, maxChunkLen: int, id: string): Result<seq<Chunk>> {
    var s := Trim(input);
    if s == "" then Err(EmptyInput)
    else if maxChunkLen <= 0 then Err(InvalidChunkSize)
    else Ok(Numbered(Parts(s, maxChunkLen), id))
  }

  /** What is still to be cut from position `i` on. */
  ghost function Remaining(s: string, i: nat, n: nat): seq<string>
    requires n > 0
  {
    if i < |s| then Parts(s[i..], n) else []
  }

  lemma NextPart(s: string, i: nat, n: nat)
    requires i < |s| && n > 0
    ensures var end := if i + n > |s| then |s| else i + n;
            Remaining(s, i, n) == [s[i..end]] + Remaining(s, i + n, n)
  {
    var tail := s[i..];
    if i + n < |s| {
      assert tail[n..] == s[i + n..] && tail[..n] == s[i..i + n];
    } else {
      assert tail == s[i..|s|];
    }
  }

  method ChunkString(input: string, maxChunkLen: int, id: string) returns (r: Result<seq<Chunk>>)
    ensures r == Chunked(input, maxChunkLen, id)
  {
    hide Trim;
    var s := Trim(input);
    if s == "" {
      return Err(EmptyInput);
    }
    if maxChunkLen <= 0 {
      return Err(InvalidChunkSize);
    }
    var parts: seq<string> := [];
    var i := 0;
    assert s[0..] == s;
    while i < |s|
      invariant 0 <= i
      invariant parts + Remaining(s, i, maxChunkLen) == Parts(s, maxChunkLen)
    {
      hide Parts, Remaining;
      var end := i + maxChunkLen;
      if end > |s| {
        end := |s|;
      }
      NextPart(s, i, maxChunkLen);
      parts := parts + [s[i..end]];
      i := i + maxChunkLen;
    }
    assert parts + [] == parts;
    var out := NumberParts(parts, id);
    return Ok(out);
  }

  method NumberParts(parts: seq<string>, id: string) returns (out: seq<Chunk>)
    ensures out == Numbered(parts, id)
  {
    var total := |parts|;
    out := [];
    for k := 0 to |parts|
      invariant |out| == k && forall j :: 0 <= j < k ==> out[j] == Chunk(1, id, j + 1, total, parts[j])
    {
      out := out + [Chunk(1, id, k + 1, total, parts[k])];
    }
  }

  // ---------- printing ----------

  predicate ByIndex(a: Chunk, b: Chunk) {
    a.index <= b.index
  }

  /** fmt.Sprintf("SNBCHUNK/1 %s %d/%d %s", ...) */
  function RenderLine(c: Chunk): string {
    MAGIC + " " + c.id + " " + (Decimal.Print(c.index) + "/" + Decimal.Print(c.total)) + " " + c.data
  }

  /** What RenderChunkLines objects to in one chunk, given the first one. */
  function RenderCheck(c: Chunk, first: Chunk): Check {
    if c.version != 1 then Problem(UnsupportedVersion)
    else if c.id != first.id then Problem(MixedIds)
    else if c.total != first.total then Problem(InconsistentTotal)
    else if c.index <= 0 || c.index > c.total then Problem(InvalidIndex)
    else if Trim(c.data) == "" then Problem(EmptyChunkData)
    else Fine
  }

  function RenderScan(chunks: seq<Chunk>, n: nat): Check
    requires n <= |chunks| && (n > 0 ==> chunks != [])
  {
    if n == 0 then Fine
    else if RenderScan(chunks, n - 1).Problem? then RenderScan(chunks, n - 1)
    else RenderCheck(chunks[n - 1], chunks[0])
  }

  function Lines(chunks: seq<Chunk>): (r: seq<string>)
    ensures |r| == |chunks|
  {
    seq(|chunks|, i requires 0 <= i < |chunks| => RenderLine(chunks[i]))
  }

  /** What RenderChunkLines returns for `before`, and what it makes of the caller's slice: the first
      problem leaves the slice alone, otherwise it is sorted and its lines are printed. */
  ghost predicate RenderOutcome(before: seq<Chunk>, after: seq<Chunk>, r: Result<seq<string>>) {
    if before == [] then r == Err(NoChunks) && after == before
    else if RenderScan(before, |before|).Problem? then r == Err(RenderScan(before, |before|).error) && after == before
    else r == Ok(Lines(after)) && Sorted(ByIndex, after) && multiset(after) == multiset(before)
  }

  method RenderChunkLines(chunks: array<Chunk>) returns (r: Result<seq<string>>)
    modifies chunks
    ensures RenderOutcome(old(chunks[..]), chunks[..], r)
  {
    hide RenderScan, Lines;
    if chunks.Length == 0 {
      return Err(NoChunks);
    }
    var check := CheckForRender(chunks);
    if check.Problem? {
      return Err(check.error);
    }
    SortSlice(ByIndex, chunks);
    var lines := PrintLines(chunks);
    return Ok(lines);
  }

  method CheckForRender(chunks: array<Chunk>) returns (r: Check)
    requires chunks.Length > 0
    ensures r == RenderScan(chunks[..], chunks.Length)
  {
    hide RenderCheck;
    for i := 0 to chunks.Length
      invariant RenderScan(chunks[..], i) == Fine
    {
      var check := RenderCheck(chunks[i], chunks[0]);
      if check.Problem? {
        ScanStops(chunks[..], i + 1, chunks.Length);
        return check;
      }
    }
    return Fine;
  }

  method PrintLines(chunks: array<Chunk>) returns (lines: seq<string>)
    ensures lines == Lines(chunks[..])
  {
    hide RenderLine;
    lines := [];
    for i := 0 to chunks.Length
      invariant lines == Lines(chunks[..i])
    {
      assert chunks[..i + 1] == chunks[..i] + [chunks[i]];
      lines := lines + [RenderLine(chunks[i])];
    }
    assert chunks[..chunks.Length] == chunks[..];
  }

  lemma {:induction false} ScanStops(chunks: seq<Chunk>, k: nat, n: nat)
    requires k <= n <= |chunks| && chunks != [] && RenderScan(chunks, k).Problem?
    ensures RenderScan(chunks, n) == RenderScan(chunks, k)
  {
    hide RenderCheck;
    if k < n {
      ScanStops(chunks, k, n - 1);
    }
  }

  // ---------- parsing ----------

  datatype Cut = Whole | Split(front: string, tail: string)

  /** At the first `c`. */
  function CutAt(s: string, c: char): Cut {
    var i := IndexOf(s, c);
    if i == |s| then Whole else Split(s[..i], s[i + 1..])
  }

  /** strings.SplitN(s, " ", 4), where fewer than four fields are an error. */
  function FourFields(s: string): Result<(string, string, string, string)> {
    var a := CutAt(s, ' ');
    if a.Whole? then Err(InvalidFormat) else
    var b := CutAt(a.tail, ' ');
    if b.Whole? then Err(InvalidFormat) else
    var c := CutAt(b.tail, ' ');
    if c.Whole? then Err(InvalidFormat) else
    Ok((a.front, b.front, c.front, c.tail))
  }

  function ParseChunkLine(line: string): Result<Chunk> {
    var s := Trim(line);
    if s == "" then Err(EmptyLine) else
    var fields := FourFields(s);
    if fields.Err? then Err(fields.error) else
    var (magic, rawId, position, rawData) := fields.value;
    if magic != MAGIC then Err(UnsupportedVersion) else
    var id := Trim(rawId);
    if id == "" then Err(MissingChunkId) else
    var slash := CutAt(position, '/');
    if slash.Whole? then Err(InvalidChunkIndex) else
    var i, n := Decimal.Atoi(slash.front), Decimal.Atoi(slash.tail);
    if i.NotANumber? then Err(InvalidChunkIndex)
    else if n.NotANumber? then Err(InvalidChunkTotal)
    else
      var data := Trim(rawData);
      if data == "" then Err(EmptyChunkData)
      else if i.value <= 0 || n.value <= 0 || i.value > n.value then Err(InvalidChunkRange)
      else Ok(Chunk(1, id, i.value, n.value, data))
  }

  // ---------- joining ----------

  function JoinCheck(c: Chunk, first: Chunk, seen: set<int>): Check {
    if c.version != 1 then Problem(UnsupportedVersion)
    else if c.id != first.id then Problem(MixedIds)
    else if c.total != first.total then Problem(InconsistentTotal)
    else if c.index <= 0 || c.index > c.total then Problem(InvalidIndex)
    else if c.index in seen then Problem(DuplicateIndex)
    else Fine
  }

  function Indices(chunks: seq<Chunk>): set<int> {
    set c | c in chunks :: c.index
  }

  function JoinScan(chunks: seq<Chunk>, n: nat): Check
    requires n <= |chunks| && (n > 0 ==> chunks != [])
  {
    if n == 0 then Fine
    else if JoinScan(chunks, n - 1).Problem? then JoinScan(chunks, n - 1)
    else JoinCheck(chunks[n - 1], chunks[0], Indices(chunks[..n - 1]))
  }

  /** The data of the first chunk with index `k`. */
  function DataAt(chunks: seq<Chunk>, k: int): string {
    if chunks == [] then "" else if chunks[0].index == k then chunks[0].data else DataAt(chunks[1..], k)
  }

  /** The data of the chunks 1 to `n`, in index order. */
  function Assemble(chunks: seq<Chunk>, n: nat): string {
    if n == 0 then "" else Assemble(chunks, n - 1) + DataAt(chunks, n)
  }

  function Join(chunks: seq<Chunk>): Result<string> {
    if chunks == [] then Err(NoChunks)
    else if JoinScan(chunks, |chunks|).Problem? then Err(JoinScan(chunks, |chunks|).error)
    else if |Indices(chunks)| != chunks[0].total then Err(MissingChunks(|Indices(chunks)|, chunks[0].total))
    else Ok(Assemble(chunks, |Indices(chunks)|))
  }

  function ParseAll(lines: seq<string>, n: nat): Result<seq<Chunk>>
    requires n <= |lines|
    ensures ParseAll(lines, n).Ok? ==> |ParseAll(lines, n).value| == n
  {
    if n == 0 then Ok([])
    else
      var front := ParseAll(lines, n - 1);
      if front.Err? then front
      else
        var c := ParseChunkLine(lines[n - 1]);
        if c.Err? then Err(c.error) else Ok(front.value + [c.value])
  }

  function JoinedLines(lines: seq<string>): Result<string> {
    if lines == [] then Err(NoLines)
    else
      var chunks := ParseAll(lines, |lines|);
      if chunks.Err? then Err(chunks.error) else Join(chunks.value)
  }
}
