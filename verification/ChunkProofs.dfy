/** Joining chunks: when it succeeds, what it returns, and that the order of the chunks is irrelevant. */
module ChunkProofs {
  import opened Counting
  import opened Sorting
  import opened Folds
  import opened Chunks
  import opened Text

  /** Version 1, ID and total of the first chunk, index in range. */
  predicate FitsFirst(c: Chunk, first: Chunk) {
    c.version == 1 && c.id == first.id && c.total == first.total && 1 <= c.index <= c.total
  }

  /** All chunks are of version 1, share ID and total, and have an index in range. */
  ghost predicate Uniform(chunks: seq<Chunk>) {
    forall c :: c in chunks ==> FitsFirst(c, chunks[0])
  }

  ghost predicate DistinctIndices(chunks: seq<Chunk>) {
    forall i, j :: 0 <= i < j < |chunks| ==> chunks[i].index != chunks[j].index
  }

  /** 1, 2, ..., n */
  function UpTo(n: nat): (r: seq<int>)
    ensures |r| == n
  {
    seq(n, i => i + 1)
  }

  function Index(c: Chunk): int {
    c.index
  }

  /** The indices are a permutation of 1 to the common total. */
  ghost predicate Complete(chunks: seq<Chunk>) {
    && chunks != [] && Uniform(chunks)
    && chunks[0].total >= 0 && Bag(Index, chunks) == multiset(UpTo(chunks[0].total))
  }

  // ---------- the scan ----------

  lemma ScanStep(chunks: seq<Chunk>, n: nat)
    requires 0 < n <= |chunks|
    ensures JoinScan(chunks, n).Fine? <==>
            JoinScan(chunks, n - 1).Fine? && FitsFirst(chunks[n - 1], chunks[0]) && chunks[n - 1].index !in Indices(chunks[..n - 1])
  {
    hide Indices;
  }

  lemma {:induction false} ScanPrefix(chunks: seq<Chunk>, n: nat)
    requires n <= |chunks| && chunks != []
    ensures JoinScan(chunks, n).Fine? <==>
            DistinctIndices(chunks[..n]) && forall i :: 0 <= i < n ==> FitsFirst(chunks[i], chunks[0])
  {
    if n > 0 {
      hide JoinScan, FitsFirst, DistinctIndices, Indices;
      ScanPrefix(chunks, n - 1);
      ScanStep(chunks, n);
      NewIndex(chunks[..n - 1], chunks[n - 1]);
      assert chunks[..n] == chunks[..n - 1] + [chunks[n - 1]];
    }
  }

  lemma NewIndex(front: seq<Chunk>, c: Chunk)
    ensures DistinctIndices(front + [c]) <==> DistinctIndices(front) && c.index !in Indices(front)
  {
    var all := front + [c];
    if DistinctIndices(all) {
      assert forall i :: 0 <= i < |front| ==> all[i] == front[i];
      assert all[|front|] == c;
    }
  }

  lemma ScanAll(chunks: seq<Chunk>)
    requires chunks != []
    ensures JoinScan(chunks, |chunks|).Fine? <==> Uniform(chunks) && DistinctIndices(chunks)
  {
    ScanPrefix(chunks, |chunks|);
    assert chunks[..|chunks|] == chunks;
  }

  // ---------- counting indices ----------

  lemma {:induction false} IndicesSize(chunks: seq<Chunk>)
    requires DistinctIndices(chunks)
    ensures |Indices(chunks)| == |chunks|
  {
    if chunks != [] {
      var n := |chunks| - 1;
      IndicesSize(chunks[..n]);
      assert chunks == chunks[..n] + [chunks[n]];
      assert Indices(chunks) == Indices(chunks[..n]) + {chunks[n].index};
      assert chunks[n].index !in Indices(chunks[..n]);
    }
  }

  lemma {:induction false} RangeSize(n: nat, s: set<int>)
    requires forall x :: x in s ==> 1 <= x <= n
    ensures |s| <= n
    ensures |s| == n ==> forall x :: 1 <= x <= n ==> x in s
  {
    if n == 0 {
      assert forall x :: x !in s;
      assert s == {};
    } else {
      RangeSize(n - 1, s - {n});
      if n !in s {
        assert s - {n} == s;
      } else if |s| == n {
        forall x | 1 <= x <= n ensures x in s {
          assert x == n || x in s - {n};
        }
      }
    }
  }

  lemma BagOfDistinct(chunks: seq<Chunk>, x: int)
    requires DistinctIndices(chunks)
    ensures Bag(Index, chunks)[x] == if x in Indices(chunks) then 1 else 0
  {
    var m := Map(Index, chunks);
    assert forall i :: 0 <= i < |m| ==> m[i] == chunks[i].index;
    DistinctCount(m, x);
    if x in Indices(chunks) {
      var c :| c in chunks && c.index == x;
      var i :| 0 <= i < |chunks| && chunks[i] == c;
      assert m[i] == x;
    }
    if x in m {
      var i :| 0 <= i < |m| && m[i] == x;
      assert chunks[i] in chunks;
    }
  }

  lemma {:induction false} DistinctCount(s: seq<int>, x: int)
    requires forall i, j :: 0 <= i < j < |s| ==> s[i] != s[j]
    ensures multiset(s)[x] == if x in s then 1 else 0
  {
    if s != [] {
      var n := |s| - 1;
      DistinctCount(s[..n], x);
      assert s == s[..n] + [s[n]];
    }
  }

  lemma BagUpTo(n: nat, x: int)
    ensures multiset(UpTo(n))[x] == if 1 <= x <= n then 1 else 0
  {
    DistinctCount(UpTo(n), x);
    if 1 <= x <= n {
      assert UpTo(n)[x - 1] == x;
    }
  }

  /** A bag of indices without repetition comes from chunks with distinct indices. */
  lemma DistinctFromBag(chunks: seq<Chunk>, n: nat)
    requires Bag(Index, chunks) == multiset(UpTo(n))
    ensures DistinctIndices(chunks) && |chunks| == n
  {
    var m := Map(Index, chunks);
    assert |chunks| == |multiset(m)| == |multiset(UpTo(n))| == n;
    forall i, j | 0 <= i < j < |chunks| ensures chunks[i].index != chunks[j].index {
      BagUpTo(n, m[i]);
      TwiceIn(m, i, j);
    }
  }

  /** Distinct indices within 1..n, as many as n: by pigeonhole they are all of them. */
  lemma Pigeonhole(chunks: seq<Chunk>, n: nat)
    requires DistinctIndices(chunks) && |chunks| == n
    requires forall c :: c in chunks ==> 1 <= c.index <= n
    ensures Bag(Index, chunks) == multiset(UpTo(n))
  {
    IndicesSize(chunks);
    RangeSize(n, Indices(chunks));
    forall x ensures Bag(Index, chunks)[x] == multiset(UpTo(n))[x] {
      BagOfDistinct(chunks, x);
      BagUpTo(n, x);
    }
  }

  /** Joining succeeds exactly on complete sets of chunks. */
  lemma JoinIff(chunks: seq<Chunk>)
    ensures Join(chunks).Ok? <==> Complete(chunks)
    ensures Join(chunks).Ok? ==> DistinctIndices(chunks) && chunks[0].total == |chunks| && Join(chunks).value == Assemble(chunks, |chunks|)
  {
    if chunks != [] {
      hide Assemble, JoinScan, Bag;
      ScanAll(chunks);
      if DistinctIndices(chunks) {
        IndicesSize(chunks);
      }
      if Complete(chunks) {
        DistinctFromBag(chunks, chunks[0].total);
      }
      if Join(chunks).Ok? {
        Pigeonhole(chunks, |chunks|);
      }
    }
  }

  // ---------- order does not matter ----------

  lemma {:induction false} DataOfIndex(chunks: seq<Chunk>, c: Chunk)
    requires DistinctIndices(chunks) && c in chunks
    ensures DataAt(chunks, c.index) == c.data
  {
    if chunks[0].index != c.index {
      assert chunks == [chunks[0]] + chunks[1..];
      DataOfIndex(chunks[1..], c);
    } else {
      var i :| 0 <= i < |chunks| && chunks[i] == c;
      assert i == 0;
    }
  }

  lemma IndexOccurs(chunks: seq<Chunk>, k: nat) returns (c: Chunk)
    requires Complete(chunks) && 1 <= k <= chunks[0].total
    ensures c in chunks && c.index == k
  {
    BagUpTo(chunks[0].total, k);
    assert k in Bag(Index, chunks);
    assert k in Map(Index, chunks);
    var i :| 0 <= i < |chunks| && Map(Index, chunks)[i] == k;
    c := chunks[i];
  }

  lemma {:induction false} SameAssembly(a: seq<Chunk>, b: seq<Chunk>, n: nat)
    requires Complete(a) && DistinctIndices(a) && DistinctIndices(b)
    requires multiset(a) == multiset(b) && n <= a[0].total
    ensures Assemble(a, n) == Assemble(b, n)
  {
    if n > 0 {
      SameAssembly(a, b, n - 1);
      var c := IndexOccurs(a, n);
      SameElements(a, b);
      DataOfIndex(a, c);
      DataOfIndex(b, c);
    }
  }

  lemma CompletePermutation(a: seq<Chunk>, b: seq<Chunk>)
    requires Complete(a) && multiset(a) == multiset(b)
    ensures Complete(b) && b[0].total == a[0].total
  {
    SameElements(a, b);
    BagPermutation(Index, a, b);
    assert b[0] in b;
  }

  lemma JoinReordered(a: seq<Chunk>, b: seq<Chunk>)
    requires Join(a).Ok? && multiset(a) == multiset(b)
    ensures Join(b) == Join(a)
  {
    JoinIff(a);
    CompletePermutation(a, b);
    JoinIff(b);
    hide Join, Complete, DistinctIndices;
    SameAssembly(a, b, |a|);
  }

  /** Neither success nor the joined text depends on the order of the chunks. */
  lemma JoinPermutation(a: seq<Chunk>, b: seq<Chunk>)
    requires multiset(a) == multiset(b)
    ensures Join(a).Ok? <==> Join(b).Ok?
    ensures Join(a).Ok? ==> Join(b) == Join(a)
  {
    hide Join;
    if Join(a).Ok? {
      JoinReordered(a, b);
    } else if Join(b).Ok? {
      JoinReordered(b, a);
    }
  }

  lemma ScanOfThree(x: Chunk, y: Chunk, z: Chunk)
    requires x.version == 1 && 1 <= x.index <= x.total
    requires JoinCheck(y, x, {x.index}).Problem?
    ensures Join([x, y, z]) == Err(JoinCheck(y, x, {x.index}).error)
  {
    var s := [x, y, z];
    assert s[..0] == [] && s[..1] == [x] && Indices([]) == {} && Indices([x]) == {x.index};
    hide JoinCheck, Indices;
    assert JoinCheck(x, x, {}).Fine? by { FirstFits(x); }
    assert JoinScan(s, 1).Fine?;
    assert JoinScan(s, 2) == JoinCheck(y, x, {x.index});
    assert JoinScan(s, 3) == JoinScan(s, 2);
  }

  lemma FirstFits(x: Chunk)
    requires x.version == 1 && 1 <= x.index <= x.total
    ensures JoinCheck(x, x, {}).Fine?
  {
  }

  /** The error does: a chunk of another text and a chunk of another version are reported in the
      order in which they come. */
  lemma ErrorDependsOnOrder(a: Chunk, b: Chunk, c: Chunk)
    requires a.version == 1 && 1 <= a.index <= a.total
    requires b.version == 1 && b.id != a.id && c.version != 1
    ensures Join([a, b, c]) == Err(MixedIds) && Join([a, c, b]) == Err(UnsupportedVersion)
  {
    ScanOfThree(a, b, c);
    ScanOfThree(a, c, b);
  }

  /** What the error of a failed join says of the chunks. */
  ghost predicate TrueOfChunks(chunks: seq<Chunk>, error: Error) {
    match error
    case NoChunks => chunks == []
    case UnsupportedVersion => exists c :: c in chunks && c.version != 1
    case MixedIds => exists c :: c in chunks && c.id != chunks[0].id
    case InconsistentTotal => exists c :: c in chunks && c.total != chunks[0].total
    case InvalidIndex => exists c :: c in chunks && !(1 <= c.index <= c.total)
    case DuplicateIndex => !DistinctIndices(chunks)
    case MissingChunks(seen, total) =>
      chunks != [] && Uniform(chunks) && DistinctIndices(chunks) && seen == |chunks| != total == chunks[0].total
    case _ => false
  }

  lemma {:induction false} ScanErrorTrue(chunks: seq<Chunk>, n: nat)
    requires n <= |chunks| && chunks != [] && JoinScan(chunks, n).Problem?
    ensures TrueOfChunks(chunks, JoinScan(chunks, n).error)
  {
    if JoinScan(chunks, n - 1).Problem? {
      ScanErrorTrue(chunks, n - 1);
    } else if chunks[n - 1].index in Indices(chunks[..n - 1]) {
      var i :| 0 <= i < n - 1 && chunks[i].index == chunks[n - 1].index;
    }
  }

  /** The error of a failed join names something that is wrong with the chunks. */
  lemma JoinErrorTrue(chunks: seq<Chunk>)
    requires Join(chunks).Err?
    ensures TrueOfChunks(chunks, Join(chunks).error)
  {
    hide JoinScan, Assemble;
    if chunks != [] {
      if JoinScan(chunks, |chunks|).Problem? {
        ScanErrorTrue(chunks, |chunks|);
      } else {
        ScanAll(chunks);
        IndicesSize(chunks);
      }
    }
  }

  /** The same for the check before printing. */
  ghost predicate TrueBeforePrinting(chunks: seq<Chunk>, error: Error) {
    match error
    case NoChunks => chunks == []
    case UnsupportedVersion => exists c :: c in chunks && c.version != 1
    case MixedIds => exists c :: c in chunks && c.id != chunks[0].id
    case InconsistentTotal => exists c :: c in chunks && c.total != chunks[0].total
    case InvalidIndex => exists c :: c in chunks && !(1 <= c.index <= c.total)
    case EmptyChunkData => exists c :: c in chunks && Blank(c.data)
    case _ => false
  }

  lemma {:induction false} RenderScanTrue(chunks: seq<Chunk>, n: nat)
    requires n <= |chunks| && chunks != [] && RenderScan(chunks, n).Problem?
    ensures TrueBeforePrinting(chunks, RenderScan(chunks, n).error)
  {
    hide Trim;
    if RenderScan(chunks, n - 1).Problem? {
      RenderScanTrue(chunks, n - 1);
    }
  }

  /** A refusal to print names something that is wrong with the chunks, and changes nothing. */
  lemma RenderErrorTrue(before: seq<Chunk>, after: seq<Chunk>, r: Result<seq<string>>)
    requires RenderOutcome(before, after, r) && r.Err?
    ensures TrueBeforePrinting(before, r.error) && after == before
  {
    hide RenderScan, Lines;
    if before != [] && RenderScan(before, |before|).Problem? {
      RenderScanTrue(before, |before|);
    }
  }

  // ---------- the code ----------

  /** Sorting complete chunks puts index k + 1 at position k. */
  lemma SortedPositions(sorted: seq<Chunk>, k: nat)
    requires Complete(sorted) && DistinctIndices(sorted) && Sorted(ByIndex, sorted) && k < |sorted|
    ensures sorted[k].index >= k + 1 && sorted[k].index <= sorted[0].total - (|sorted| - 1 - k)
  {
    SortedLow(sorted, k);
    SortedHigh(sorted, k);
  }

  lemma {:induction false} SortedLow(sorted: seq<Chunk>, k: nat)
    requires Uniform(sorted) && DistinctIndices(sorted) && Sorted(ByIndex, sorted) && k < |sorted|
    ensures sorted[k].index >= k + 1
  {
    assert sorted[k] in sorted;
    if k > 0 {
      SortedLow(sorted, k - 1);
      assert ByIndex(sorted[k - 1], sorted[k]);
    }
  }

  lemma {:induction false} SortedHigh(sorted: seq<Chunk>, k: nat)
    requires Uniform(sorted) && DistinctIndices(sorted) && Sorted(ByIndex, sorted) && k < |sorted|
    ensures sorted[k].index <= sorted[0].total - (|sorted| - 1 - k)
    decreases |sorted| - k
  {
    assert sorted[k] in sorted;
    if k + 1 < |sorted| {
      SortedHigh(sorted, k + 1);
      assert ByIndex(sorted[k], sorted[k + 1]);
    }
  }

  /** Sorts the caller's chunks in place when it succeeds, and leaves them alone when it fails. */
  method JoinChunks(chunks: array<Chunk>) returns (r: Result<string>)
    modifies chunks
    ensures r == Join(old(chunks[..]))
    ensures multiset(chunks[..]) == multiset(old(chunks[..]))
    ensures if r.Ok? then Sorted(ByIndex, chunks[..]) else chunks[..] == old(chunks[..])
  {
    hide Assemble, JoinScan;
    if chunks.Length == 0 {
      return Err(NoChunks);
    }
    var total := chunks[0].total;
    var check, seen := CheckForJoin(chunks);
    if check.Problem? {
      return Err(check.error);
    }
    if |seen| != total {
      return Err(MissingChunks(|seen|, total));
    }
    ghost var before := chunks[..];
    JoinIff(before);
    SortSlice(ByIndex, chunks);
    hide Join, Complete;
    JoinPermutation(before, chunks[..]);
    r := Concatenate(chunks);
  }

  method CheckForJoin(chunks: array<Chunk>) returns (r: Check, seen: set<int>)
    requires chunks.Length > 0
    ensures r == JoinScan(chunks[..], chunks.Length)
    ensures r.Fine? ==> seen == Indices(chunks[..])
  {
    hide JoinCheck;
    var id, total := chunks[0].id, chunks[0].total;
    seen := {};
    for i := 0 to chunks.Length
      invariant JoinScan(chunks[..], i) == Fine && seen == Indices(chunks[..i])
    {
      assert chunks[..][..i] == chunks[..i];
      assert chunks[..i + 1] == chunks[..i] + [chunks[i]];
      var check := JoinCheck(chunks[i], chunks[0], seen);
      if check.Problem? {
        JoinScanStops(chunks[..], i + 1, chunks.Length);
        return check, seen;
      }
      seen := seen + {chunks[i].index};
    }
    assert chunks[..chunks.Length] == chunks[..];
    return Fine, seen;
  }

  lemma {:induction false} JoinScanStops(chunks: seq<Chunk>, k: nat, n: nat)
    requires k <= n <= |chunks| && chunks != [] && JoinScan(chunks, k).Problem?
    ensures JoinScan(chunks, n) == JoinScan(chunks, k)
  {
    hide JoinCheck;
    if k < n {
      JoinScanStops(chunks, k, n - 1);
    }
  }

  lemma AssembleNext(sorted: seq<Chunk>, k: nat)
    requires Join(sorted).Ok? && Sorted(ByIndex, sorted) && k < |sorted|
    ensures Assemble(sorted, k + 1) == Assemble(sorted, k) + sorted[k].data
  {
    hide Join, Complete, Sorted, DistinctIndices, DataAt;
    JoinIff(sorted);
    assert sorted[k].index == k + 1 by {
      SortedPositions(sorted, k);
    }
    DataOfIndex(sorted, sorted[k]);
  }

  method Concatenate(chunks: array<Chunk>) returns (r: Result<string>)
    requires Join(chunks[..]).Ok? && Sorted(ByIndex, chunks[..])
    ensures r == Join(chunks[..])
  {
    hide Join, Complete, Sorted, DistinctIndices;
    JoinIff(chunks[..]);
    var text := "";
    for k := 0 to chunks.Length
      invariant text == Assemble(chunks[..], k)
    {
      AssembleNext(chunks[..], k);
      text := text + chunks[k].data;
    }
    return Ok(text);
  }

  method JoinChunkLines(lines: seq<string>) returns (r: Result<string>)
    ensures r == JoinedLines(lines)
  {
    hide ParseChunkLine, Join;
    if lines == [] {
      return Err(NoLines);
    }
    var chunks: seq<Chunk> := [];
    for i := 0 to |lines|
      invariant ParseAll(lines, i) == Ok(chunks)
    {
      var c := ParseChunkLine(lines[i]);
      if c.Err? {
        ParseAllStops(lines, i + 1, |lines|);
        return Err(c.error);
      }
      chunks := chunks + [c.value];
    }
    var slice := new Chunk[|chunks|](i requires 0 <= i < |chunks| => chunks[i]);
    assert slice[..] == chunks;
    r := JoinChunks(slice);
  }

  lemma {:induction false} ParseAllStops(lines: seq<string>, k: nat, n: nat)
    requires k <= n <= |lines| && ParseAll(lines, k).Err?
    ensures ParseAll(lines, n) == ParseAll(lines, k)
  {
    hide ParseChunkLine;
    if k < n {
      ParseAllStops(lines, k, n - 1);
    }
  }
}
