/** The main results about bundle selection. */
module SelectionTheorems {
  import opened Text
  import opened Counting
  import opened Sorting
  import opened Folds
  import opened Profiles
  import opened Selection
  import opened SelectionProofs

  function Id(c: Candidate): string {
    c.profile.id
  }

  function ExcludedId(e: Exclusion): string {
    e.id
  }

  function Score(c: Candidate): int {
    c.score
  }

  // ---------- no candidate is lost ----------

  lemma {:induction false} OfFamilyCount(s: seq<Candidate>, f: Family, x: Candidate)
    ensures multiset(OfFamily(s, f))[x] == if FamilyOf(x) == f then multiset(s)[x] else 0
  {
    if s != [] {
      var n := |s| - 1;
      OfFamilyCount(s[..n], f, x);
      assert s == s[..n] + [s[n]];
    }
  }

  lemma {:induction false} CollectCount(s: seq<Candidate>, fs: seq<Family>, x: Candidate)
    requires Distinct(fs)
    ensures multiset(Collect(s, fs))[x] == if FamilyOf(x) in fs then multiset(s)[x] else 0
  {
    if fs != [] {
      var n := |fs| - 1;
      CollectCount(s, fs[..n], x);
      SortMultiset(Before, OfFamily(s, fs[n]));
      OfFamilyCount(s, fs[n], x);
      assert fs == fs[..n] + [fs[n]];
      assert fs[n] !in fs[..n];
    }
  }

  lemma CollectAll(s: seq<Candidate>)
    ensures multiset(Collect(s, Families(s))) == multiset(s)
  {
    FamiliesDistinct(s);
    forall x ensures multiset(Collect(s, Families(s)))[x] == multiset(s)[x] {
      CollectCount(s, Families(s), x);
      if multiset(s)[x] > 0 {
        assert x in s;
      }
    }
  }

  lemma VisitMultiset(p: Pass, group: seq<Candidate>, caps: Caps)
    requires group != []
    ensures multiset(Visit(p, group, caps).tally.selected) + multiset(Visit(p, group, caps).rest)
         == multiset(p.tally.selected) + multiset(p.rest) + multiset(group)
  {
    hide CountFamily, Keys;
    assert group == [group[0]] + group[1..];
  }

  lemma {:induction false} FirstPassMultiset(s: seq<Candidate>, fs: seq<Family>, caps: Caps)
    requires AllGroups(s, fs)
    ensures multiset(FirstPass(s, fs, caps).tally.selected) + multiset(FirstPass(s, fs, caps).rest) == multiset(Collect(s, fs))
  {
    if fs != [] {
      hide Visit, Group;
      var n := |fs| - 1;
      FirstPassMultiset(s, fs[..n], caps);
      VisitMultiset(FirstPass(s, fs[..n], caps), Group(s, fs[n]), caps);
    }
  }

  /** The seeds and the list of the second pass are together the whole input. */
  lemma SeededMultiset(s: seq<Candidate>, caps: Caps)
    ensures multiset(Seeded(s, caps).tally.selected) + multiset(SortedRest(s, caps)) == multiset(s)
  {
    GroupOfOccurring(s);
    FirstPassMultiset(s, Families(s), caps);
    CollectAll(s);
    SortMultiset(Before, Seeded(s, caps).rest);
  }

  /** What one round of the seeding loop adds to the exclusions. */
  lemma VisitExcluded(p: Pass, group: seq<Candidate>, caps: Caps)
    requires group != []
    ensures Bag(ExcludedId, Visit(p, group, caps).tally.excluded)
         == Bag(ExcludedId, p.tally.excluded) + Bag(Id, RejectedHead(p.tally.selected, group[0], caps))
  {
    assert Map(Id, []) == [];
    assert Map(Id, [group[0]]) == [Id(group[0])];
    if |p.tally.selected| < caps.total && !Accepts(p.tally.selected, group[0], caps) {
      RejectedBag(p.tally, group[0], caps);
    }
  }

  lemma {:induction false} FirstPassExcluded(s: seq<Candidate>, fs: seq<Family>, n: nat, caps: Caps)
    requires n <= |fs| && AllGroups(s, fs)
    ensures Bag(ExcludedId, FirstPass(s, fs[..n], caps).tally.excluded) == Bag(Id, Rejections(s, fs[..n], caps))
  {
    if n == 0 {
      assert Map(ExcludedId, []) == Map(Id, []) == [];
    } else {
      var k := n - 1;
      FirstPassExcluded(s, fs, k, caps);
      FirstPassStep(s, fs, k, caps);
      hide Bag, Visit, Group, FirstPass, Rejections, RejectedHead;
      var p := FirstPass(s, fs[..k], caps);
      VisitExcluded(p, Group(s, fs[k]), caps);
      BagConcat(Id, Rejections(s, fs[..k], caps), RejectedHead(p.tally.selected, Group(s, fs[k])[0], caps));
    }
  }

  lemma RejectedBag(t: Tally, c: Candidate, caps: Caps)
    requires !Accepts(t.selected, c, caps)
    ensures SelectOne(t, c, caps).selected == t.selected
    ensures Bag(ExcludedId, SelectOne(t, c, caps).excluded) == Bag(ExcludedId, t.excluded) + multiset{Id(c)}
  {
    hide CountFamily, Keys, Bag;
    var reason := if CountFamily(t.selected, FamilyOf(c)) >= caps.perFamily then CapPerFamily else DuplicateEndpoint;
    BagSnoc(ExcludedId, t.excluded, Exclusion(Id(c), reason));
  }

  /** Everybody who has been decided on, by ID and with multiplicity. */
  ghost function Decided(t: Tally): multiset<string> {
    Bag(Id, t.selected) + Bag(ExcludedId, t.excluded)
  }

  lemma OfferDecides(t: Tally, c: Candidate, caps: Caps)
    ensures Decided(Offer(t, c, caps)) == Decided(t) + multiset{Id(c)}
  {
    hide CountFamily, Keys, Bag;
    if |t.selected| >= caps.total {
      BagSnoc(ExcludedId, t.excluded, Exclusion(Id(c), MaxProfilesReached));
    } else if Accepts(t.selected, c, caps) {
      BagSnoc(Id, t.selected, c);
    } else {
      RejectedBag(t, c, caps);
    }
  }

  lemma {:induction false} SecondPassDecides(t: Tally, rest: seq<Candidate>, caps: Caps)
    ensures Decided(SecondPass(t, rest, caps)) == Decided(t) + Bag(Id, rest)
  {
    if rest == [] {
      assert Map(Id, rest) == [];
    } else {
      hide Offer, Decided, Bag;
      var n := |rest| - 1;
      SecondPassDecides(t, rest[..n], caps);
      OfferDecides(SecondPass(t, rest[..n], caps), rest[n], caps);
      BagSnoc(Id, rest[..n], rest[n]);
      assert rest == rest[..n] + [rest[n]];
    }
  }

  /** The IDs reported as included or excluded are those of the input, plus once more the ID of
      every head the first pass rejected. */
  lemma ReportedIds(s: seq<Candidate>, params: Params)
    ensures Bag(Id, Select(s, params).included) + Bag(ExcludedId, Select(s, params).excluded)
         == Bag(Id, s) + Bag(Id, SeedRejections(s, EffectiveCaps(params)))
  {
    hide Bag;
    var caps := EffectiveCaps(params);
    var p, rest := Seeded(s, caps), SortedRest(s, caps);
    SecondPassDecides(p.tally, rest, caps);
    SeededMultiset(s, caps);
    BagPermutation(Id, p.tally.selected + rest, s);
    BagConcat(Id, p.tally.selected, rest);
    SeededExcluded(s, caps);
    SortMultiset(IdBefore, Filled(s, caps).selected);
    BagPermutation(Id, Select(s, params).included, Filled(s, caps).selected);
  }

  lemma SeededExcluded(s: seq<Candidate>, caps: Caps)
    ensures Bag(ExcludedId, Seeded(s, caps).tally.excluded) == Bag(Id, SeedRejections(s, caps))
  {
    GroupOfOccurring(s);
    FirstPassExcluded(s, Families(s), |Families(s)|, caps);
    assert Families(s)[..|Families(s)|] == Families(s);
    assert Map(ExcludedId, []) == Map(Id, []) == [];
  }

  lemma EmptyBag(s: seq<Candidate>)
    ensures Bag(Id, s) == multiset{} <==> s == []
  {
    assert |Bag(Id, s)| == |Map(Id, s)| == |s|;
  }

  /** Every input candidate is reported exactly once if and only if the heads the seeding loop
      reaches have pairwise different endpoint keys. */
  lemma PartitionIff(s: seq<Candidate>, params: Params)
    ensures Bag(Id, Select(s, params).included) + Bag(ExcludedId, Select(s, params).excluded) == Bag(Id, s)
       <==> DistinctKeys(SeedHeads(s, EffectiveCaps(params)))
  {
    hide Bag, Select, SeedRejections, SeedHeads, DistinctKeys;
    var caps := EffectiveCaps(params);
    ReportedIds(s, params);
    NoRejectionIff(s, caps);
    EmptyBag(SeedRejections(s, caps));
    Absorbed(Bag(Id, s), Bag(Id, SeedRejections(s, caps)));
  }

  lemma Absorbed<T>(a: multiset<T>, b: multiset<T>)
    ensures a + b == a <==> b == multiset{}
  {
    if a + b == a {
      assert |a + b| == |a| + |b|;
    }
  }

  // ---------- how many are selected ----------

  /** Separator-free families put the selection in the state the counting argument starts from. */
  lemma SeedsSaturated(s: seq<Candidate>, caps: Caps)
    requires KeysSplitByFamily(s) && caps.perFamily > 0
    ensures var seeds := Seeded(s, caps).tally.selected;
            Saturated(seeds, seeds, caps)
  {
    hide KeysSplitByFamily;
    SeededFeasible(s, caps);
  }

  lemma SplitKeysOf(s: seq<Candidate>, t: seq<Candidate>)
    requires KeysSplitByFamily(s) && forall c :: c in t ==> c in s
    ensures KeysSplitByFamily(t)
  {
  }

  lemma SeedsAndRest(s: seq<Candidate>, caps: Caps, c: Candidate)
    ensures c in Seeded(s, caps).tally.selected + SortedRest(s, caps) <==> c in s
  {
    SeededMultiset(s, caps);
    SameElements(Seeded(s, caps).tally.selected + SortedRest(s, caps), s);
  }

  /** The choice is saturated on every prefix of the sorted list. */
  lemma PrefixSaturated(s: seq<Candidate>, caps: Caps, i: nat)
    requires KeysSplitByFamily(s) && caps.perFamily > 0 && i <= |SortedRest(s, caps)|
    ensures var p := Seeded(s, caps);
            Saturated(p.tally.selected + SortedRest(s, caps)[..i], SecondPass(p.tally, SortedRest(s, caps)[..i], caps).selected, caps)
  {
    var seeds, rest := Seeded(s, caps).tally.selected, SortedRest(s, caps);
    forall c | c in seeds + rest[..i] ensures c in s {
      SeedsAndRest(s, caps, c);
    }
    hide KeysSplitByFamily, Saturated, Seeded, SortedRest;
    SplitKeysOf(s, seeds + rest[..i]);
    SeedsSaturated(s, caps);
    SecondPassSaturated(seeds, Seeded(s, caps).tally, rest[..i], caps);
  }

  lemma FamiliesCover(s: seq<Candidate>, t: seq<Candidate>)
    requires forall c :: c in t ==> c in s
    ensures Covers(Families(s), t)
  {
    FamiliesDistinct(s);
  }

  /** The number of selected candidates is the minimum of the total cap and the sum over the
      families of min(family cap, distinct endpoints of the family). */
  lemma SelectedCount(s: seq<Candidate>, params: Params)
    requires KeysSplitByFamily(s)
    ensures var caps := EffectiveCaps(params);
            |Select(s, params).included| == Min(caps.total, Rank(Families(s), s, caps.perFamily))
  {
    var caps := EffectiveCaps(params);
    var seeds, rest := Seeded(s, caps).tally.selected, SortedRest(s, caps);
    var offered := seeds + rest;
    forall c ensures c in offered <==> c in s {
      SeedsAndRest(s, caps, c);
    }
    hide KeysSplitByFamily, Saturated, Seeded, SortedRest, Families, Covers;
    PrefixSaturated(s, caps, |rest|);
    assert rest[..|rest|] == rest;
    FamiliesCover(s, offered);
    SaturatedSize(Families(s), offered, Filled(s, caps).selected, caps);
    RankMonotone(Families(s), offered, s, caps.perFamily);
    RankMonotone(Families(s), s, offered, caps.perFamily);
  }

  /** No selection that respects the caps is larger. */
  lemma LargestSelection(s: seq<Candidate>, params: Params, sel: seq<Candidate>)
    requires KeysSplitByFamily(s) && Feasible(s, sel, EffectiveCaps(params))
    ensures |sel| <= |Select(s, params).included|
  {
    hide KeysSplitByFamily, Select, Families;
    var caps := EffectiveCaps(params);
    SelectedCount(s, params);
    FamiliesCover(s, s);
    RankBound(Families(s), s, sel, caps.perFamily);
  }

  // ---------- how good the selection is ----------

  lemma OfferGrows(t: Tally, c: Candidate, caps: Caps)
    ensures Offer(t, c, caps).selected == t.selected || Offer(t, c, caps).selected == t.selected + [c]
  {
    hide CountFamily, Keys;
  }

  /** The second pass only appends. */
  lemma {:induction false} SecondPassGrows(t: Tally, rest: seq<Candidate>, i: nat, caps: Caps)
    requires i <= |rest|
    ensures SecondPass(t, rest[..i], caps).selected <= SecondPass(t, rest, caps).selected
    decreases |rest| - i
  {
    if i == |rest| {
      assert rest[..i] == rest;
    } else {
      hide Offer;
      SecondPassGrows(t, rest, i + 1, caps);
      assert rest[..i + 1][..i] == rest[..i];
      OfferGrows(SecondPass(t, rest[..i], caps), rest[i], caps);
    }
  }

  /** What the second pass appends was offered to it. */
  lemma {:induction false} SecondPassTakes(t: Tally, rest: seq<Candidate>, caps: Caps)
    ensures t.selected <= SecondPass(t, rest, caps).selected
    ensures forall j :: |t.selected| <= j < |SecondPass(t, rest, caps).selected| ==> SecondPass(t, rest, caps).selected[j] in rest
  {
    if rest != [] {
      hide Offer;
      var n := |rest| - 1;
      SecondPassTakes(t, rest[..n], caps);
      OfferGrows(SecondPass(t, rest[..n], caps), rest[n], caps);
    }
  }

  ghost predicate CutAt(rest: seq<Candidate>, score: int, i: nat) {
    forall k :: 0 <= k < |rest| ==> (rest[k].score >= score <==> k < i)
  }

  lemma PrefixScores(rest: seq<Candidate>, score: int, i: nat, c: Candidate)
    requires i <= |rest| && CutAt(rest, score, i) && c in rest[..i]
    ensures c.score >= score
  {
    var m :| 0 <= m < i && rest[..i][m] == c;
    assert rest[m] == c;
  }

  /** Candidates with at least a given score are a prefix of the sorted list. */
  lemma ScoreCut(rest: seq<Candidate>, score: int) returns (i: nat)
    requires Sorted(Before, rest)
    ensures i <= |rest|
    ensures CutAt(rest, score, i)
  {
    i := 0;
    while i < |rest| && rest[i].score >= score
      invariant i <= |rest|
      invariant forall k :: 0 <= k < i ==> rest[k].score >= score
    {
      i := i + 1;
    }
    forall k | i < k < |rest| ensures rest[k].score < score {
      assert Before(rest[i], rest[k]);
    }
  }

  lemma CountPrefix(s: seq<Candidate>, n: nat, f: Family)
    requires n <= |s|
    ensures CountFamily(s[..n], f) <= CountFamily(s, f)
    decreases |s| - n
  {
    if n < |s| {
      CountPrefix(s, n + 1, f);
      assert s[..n + 1] == s[..n] + [s[n]];
      CountAppend(s[..n], s[n], f);
    } else {
      assert s[..n] == s;
    }
  }

  lemma FeasiblePrefix(s: seq<Candidate>, sel: seq<Candidate>, n: nat, caps: Caps)
    requires Feasible(s, sel, caps) && n <= |sel|
    ensures Feasible(s, sel[..n], caps)
  {
    forall f ensures CountFamily(sel[..n], f) <= caps.perFamily {
      CountPrefix(sel, n, f);
    }
  }

  ghost predicate DescendingScores(s: seq<Candidate>) {
    forall i, j :: 0 <= i < j < |s| ==> s[i].score >= s[j].score
  }

  /** What the comparison below needs to know about the seeds and the list offered after them. */
  ghost predicate Comparable(fs: seq<Family>, t: Tally, rest: seq<Candidate>, caps: Caps) {
    && Sorted(Before, rest)
    && KeysSplitByFamily(t.selected + rest)
    && Saturated(t.selected, t.selected, caps)
    && Covers(fs, t.selected + rest)
  }

  /** Another feasible way to fill up the seeds from the same list. */
  ghost predicate Alternative(t: Tally, rest: seq<Candidate>, others: seq<Candidate>, caps: Caps) {
    && Feasible(t.selected + rest, t.selected + others, caps)
    && forall k :: 0 <= k < |others| ==> others[k] in rest
  }

  lemma PrefixCovered(fs: seq<Family>, t: Tally, rest: seq<Candidate>, i: nat)
    requires i <= |rest|
    ensures Covers(fs, t.selected + rest) ==> Covers(fs, t.selected + rest[..i])
    ensures KeysSplitByFamily(t.selected + rest) ==> KeysSplitByFamily(t.selected + rest[..i])
  {
    forall c | c in t.selected + rest[..i] ensures c in t.selected + rest {
    }
  }

  lemma HighScorersInPrefix(rest: seq<Candidate>, i: nat, score: int, c: Candidate)
    requires i <= |rest| && c in rest && c.score >= score
    requires CutAt(rest, score, i)
    ensures c in rest[..i]
  {
    var m :| 0 <= m < |rest| && rest[m] == c;
    assert rest[..i][m] == c;
  }

  /** The first `j + 1` own choices of an alternative lie in the prefix of candidates that score at
      least as much as the last of them. */
  lemma ChoicesInPrefix(rest: seq<Candidate>, others: seq<Candidate>, j: nat, i: nat)
    requires DescendingScores(others) && j < |others| && i <= |rest|
    requires forall k :: 0 <= k < |others| ==> others[k] in rest
    requires CutAt(rest, others[j].score, i)
    ensures forall c :: c in others[..j + 1] ==> c in rest[..i]
  {
    forall c | c in others[..j + 1] ensures c in rest[..i] {
      var k :| 0 <= k <= j && others[k] == c;
      HighScorersInPrefix(rest, i, others[j].score, c);
    }
  }

  lemma FeasibleSize(fs: seq<Family>, s: seq<Candidate>, p: seq<Candidate>, sel: seq<Candidate>, caps: Caps)
    requires Feasible(s, sel, caps) && Covers(fs, p) && forall c :: c in sel ==> c in p
    ensures |sel| <= Min(caps.total, Rank(fs, p, caps.perFamily))
  {
    hide Covers, CountFamily, DistinctKeys;
    RankBound(fs, p, sel, caps.perFamily);
  }

  lemma ChoicesFit(fs: seq<Family>, t: Tally, rest: seq<Candidate>, others: seq<Candidate>, caps: Caps, j: nat, i: nat)
    requires i <= |rest| && j < |others|
    requires Covers(fs, t.selected + rest[..i])
    requires Alternative(t, rest, others, caps) && DescendingScores(others)
    requires CutAt(rest, others[j].score, i)
    ensures |t.selected| + j + 1 <= Min(caps.total, Rank(fs, t.selected + rest[..i], caps.perFamily))
  {
    ChoicesInPrefix(rest, others, j, i);
    hide Covers, Feasible, DescendingScores, CutAt, Rank;
    var mine := t.selected + others[..j + 1];
    assert mine == (t.selected + others)[..|t.selected| + j + 1];
    FeasiblePrefix(t.selected + rest, t.selected + others, |t.selected| + j + 1, caps);
    FeasibleSize(fs, t.selected + rest, t.selected + rest[..i], mine, caps);
  }

  lemma FilledAtLeast(fs: seq<Family>, t: Tally, rest: seq<Candidate>, caps: Caps, i: nat)
    requires Comparable(fs, t, rest, caps) && i <= |rest|
    ensures |SecondPass(t, rest[..i], caps).selected| == Min(caps.total, Rank(fs, t.selected + rest[..i], caps.perFamily))
  {
    hide Sorted, KeysSplitByFamily, Saturated, Covers, CountFamily;
    PrefixCovered(fs, t, rest, i);
    SecondPassSaturated(t.selected, t, rest[..i], caps);
    SaturatedSize(fs, t.selected + rest[..i], SecondPass(t, rest[..i], caps).selected, caps);
  }

  lemma EarlyChoice(t: Tally, rest: seq<Candidate>, caps: Caps, i: nat, at: nat)
    requires i <= |rest| && |t.selected| <= at < |SecondPass(t, rest[..i], caps).selected|
    ensures at < |SecondPass(t, rest, caps).selected| && SecondPass(t, rest, caps).selected[at] in rest[..i]
  {
    hide SecondPass;
    SecondPassGrows(t, rest, i, caps);
    SecondPassTakes(t, rest[..i], caps);
  }

  /** Rank by rank, the greedy choice is at least as good as any alternative: its j-th choice
      scores at least as much as the alternative's j-th best. */
  lemma GreedyDominates(fs: seq<Family>, t: Tally, rest: seq<Candidate>, others: seq<Candidate>, caps: Caps, j: nat)
    requires Comparable(fs, t, rest, caps)
    requires Alternative(t, rest, others, caps) && DescendingScores(others) && j < |others|
    ensures var selected := SecondPass(t, rest, caps).selected;
            |t.selected| + j < |selected| && selected[|t.selected| + j].score >= others[j].score
  {
    hide Sorted, KeysSplitByFamily, Saturated, Covers, Alternative, SecondPass, CutAt, DescendingScores;
    var i := ScoreCut(rest, others[j].score);
    PrefixCovered(fs, t, rest, i);
    ChoicesFit(fs, t, rest, others, caps, j, i);
    FilledAtLeast(fs, t, rest, caps, i);
    EarlyChoice(t, rest, caps, i, |t.selected| + j);
    PrefixScores(rest, others[j].score, i, SecondPass(t, rest, caps).selected[|t.selected| + j]);
  }

  lemma SeedsComparable(s: seq<Candidate>, caps: Caps)
    requires KeysSplitByFamily(s) && caps.perFamily > 0
    ensures Comparable(Families(s), Seeded(s, caps).tally, SortedRest(s, caps), caps)
  {
    var p, rest := Seeded(s, caps), SortedRest(s, caps);
    forall c | c in p.tally.selected + rest ensures c in s {
      SeedsAndRest(s, caps, c);
    }
    BeforeOrder();
    SortSorted(Before, p.rest);
    SeedsSaturated(s, caps);
    hide Seeded, KeysSplitByFamily, Saturated, Covers, Families;
    SplitKeysOf(s, p.tally.selected + rest);
    FamiliesCover(s, p.tally.selected + rest);
  }

  /** Whatever a feasible selection adds to the seeds was on the sorted list. */
  lemma OthersAreOffered(s: seq<Candidate>, caps: Caps, others: seq<Candidate>)
    requires Feasible(s, Seeded(s, caps).tally.selected + others, caps)
    ensures Alternative(Seeded(s, caps).tally, SortedRest(s, caps), others, caps)
  {
    var seeds, rest := Seeded(s, caps).tally.selected, SortedRest(s, caps);
    hide Seeded, SortedRest, CountFamily, DistinctKeys;
    var all := seeds + others;
    forall c | c in all ensures c in seeds + rest {
      SeedsAndRest(s, caps, c);
    }
    forall k | 0 <= k < |others| ensures others[k] in rest {
      assert all[|seeds| + k] == others[k];
      NotAgain(seeds, others, k);
      assert others[k] in all;
      assert others[k] in seeds + rest;
    }
  }

  lemma NotAgain(seeds: seq<Candidate>, others: seq<Candidate>, k: nat)
    requires DistinctKeys(seeds + others) && k < |others|
    ensures others[k] !in seeds
  {
    var all := seeds + others;
    assert all[|seeds| + k] == others[k];
    forall i | 0 <= i < |seeds| ensures seeds[i] != others[k] {
      assert all[i] == seeds[i];
    }
  }

  lemma SameFeasible(s: seq<Candidate>, seeds: seq<Candidate>, others: seq<Candidate>, sorted: seq<Candidate>, caps: Caps)
    requires Feasible(s, seeds + others, caps) && multiset(others) == multiset(sorted)
    ensures Feasible(s, seeds + sorted, caps)
  {
    var a, b := seeds + others, seeds + sorted;
    SameElements(a, b);
    DistinctKeysPermutation(a, b);
    forall f ensures CountFamily(b, f) <= caps.perFamily {
      CountPermutation(a, b, f);
    }
  }

  lemma DistinctKeysPermutation(a: seq<Candidate>, b: seq<Candidate>)
    requires DistinctKeys(a) && multiset(a) == multiset(b)
    ensures DistinctKeys(b)
  {
    KeysOnce(a);
    BagPermutation(Key, a, b);
    MultisetDistinct(Map(Key, b));
    assert forall i :: 0 <= i < |b| ==> Map(Key, b)[i] == Key(b[i]);
  }

  lemma KeysOnce(a: seq<Candidate>)
    requires DistinctKeys(a)
    ensures forall k :: Bag(Key, a)[k] <= 1
  {
    hide Key;
    DistinctMultiset(Map(Key, a));
  }

  function InFamily(f: Family): Candidate -> int {
    c => if FamilyOf(c) == f then 1 else 0
  }

  lemma {:induction false} CountIsSum(s: seq<Candidate>, f: Family)
    ensures CountFamily(s, f) == Sum(InFamily(f), s)
  {
    if s != [] {
      CountIsSum(s[..|s| - 1], f);
    }
  }

  lemma CountPermutation(a: seq<Candidate>, b: seq<Candidate>, f: Family)
    requires multiset(a) == multiset(b)
    ensures CountFamily(a, f) == CountFamily(b, f)
  {
    CountIsSum(a, f);
    CountIsSum(b, f);
    SumPermutation(InFamily(f), a, b);
  }

  /** Total scores compare when every choice compares. */
  lemma TotalsCompare(seeds: seq<Candidate>, others: seq<Candidate>, best: seq<Candidate>, selected: seq<Candidate>)
    requires multiset(others) == multiset(best)
    requires seeds <= selected && |seeds| + |best| == |selected|
    requires forall j :: 0 <= j < |best| ==> best[j].score <= selected[|seeds| + j].score
    ensures Sum(Score, seeds + others) <= Sum(Score, selected)
  {
    var picked := selected[|seeds|..];
    SumPermutation(Score, others, best);
    SumConcat(Score, seeds, others);
    SumConcat(Score, seeds, picked);
    hide Sum;
    SumPointwise(Score, best, picked);
    assert selected == seeds + picked;
  }

  /** Among all feasible selections of the same size that contain the seeds, none has a larger
      total score than the greedy one. */
  lemma GreedyOptimal(s: seq<Candidate>, caps: Caps, others: seq<Candidate>)
    requires KeysSplitByFamily(s) && caps.perFamily > 0
    requires Feasible(s, Seeded(s, caps).tally.selected + others, caps)
    requires |Seeded(s, caps).tally.selected + others| == |Filled(s, caps).selected|
    ensures Sum(Score, Seeded(s, caps).tally.selected + others) <= Sum(Score, Filled(s, caps).selected)
  {
    hide Seeded, SortedRest, SecondPass, Comparable, Alternative, Feasible, KeysSplitByFamily, Sum, Sorted, StableSort, DescendingScores;
    var t, rest := Seeded(s, caps).tally, SortedRest(s, caps);
    var best := Descending(others);
    SeedsComparable(s, caps);
    SameFeasible(s, t.selected, others, best, caps);
    OthersAreOffered(s, caps, best);
    SecondPassTakes(t, rest, caps);
    forall j | 0 <= j < |best| ensures best[j].score <= SecondPass(t, rest, caps).selected[|t.selected| + j].score {
      GreedyDominates(Families(s), t, rest, best, caps, j);
    }
    TotalsCompare(t.selected, others, best, SecondPass(t, rest, caps).selected);
  }

  lemma Descending(others: seq<Candidate>) returns (best: seq<Candidate>)
    ensures |best| == |others| && multiset(best) == multiset(others) && DescendingScores(best)
  {
    best := StableSort(Before, others);
    BeforeOrder();
    SortSorted(Before, others);
    SortMultiset(Before, others);
    SortedDescends(best);
  }

  lemma SortedDescends(s: seq<Candidate>)
    requires Sorted(Before, s)
    ensures DescendingScores(s)
  {
    forall i, j | 0 <= i < j < |s| ensures s[i].score >= s[j].score {
      assert Before(s[i], s[j]);
    }
  }

  // ---------- input order and map order do not matter ----------

  ghost predicate DistinctIds(s: seq<Candidate>) {
    forall a, b :: a in s && b in s && Id(a) == Id(b) ==> a == b
  }

  lemma NoTiesWithin(s: seq<Candidate>, t: seq<Candidate>)
    requires DistinctIds(s) && forall c :: c in t ==> c in s
    ensures NoTies(Before, t)
  {
    forall a, b | a in t && b in t && Before(a, b) && Before(b, a) ensures a == b {
      LeqAntisymmetric(Id(a), Id(b));
    }
  }

  lemma SameGroup(s: seq<Candidate>, t: seq<Candidate>, f: Family)
    requires DistinctIds(s) && multiset(s) == multiset(t)
    ensures Group(s, f) == Group(t, f)
  {
    forall x ensures multiset(OfFamily(s, f))[x] == multiset(OfFamily(t, f))[x] {
      OfFamilyCount(s, f, x);
      OfFamilyCount(t, f, x);
    }
    BeforeOrder();
    NoTiesWithin(s, OfFamily(s, f));
    SortUnique(Before, OfFamily(s, f), OfFamily(t, f));
  }

  lemma SameSetSameMultiset<T>(a: seq<T>, b: seq<T>)
    requires Distinct(a) && Distinct(b) && forall x :: x in a <==> x in b
    ensures multiset(a) == multiset(b)
  {
    DistinctMultiset(a);
    DistinctMultiset(b);
    forall x ensures multiset(a)[x] == multiset(b)[x] {
      assert x in a <==> multiset(a)[x] > 0;
      assert x in b <==> multiset(b)[x] > 0;
    }
  }

  /** Any two listings of the same families, such as two map iterations, sort to the same list. */
  lemma AnyFamilyOrder(a: seq<Family>, b: seq<Family>)
    requires Distinct(a) && Distinct(b) && forall f :: f in a <==> f in b
    ensures StableSort(Leq, a) == StableSort(Leq, b)
  {
    SameSetSameMultiset(a, b);
    LeqOrder();
    forall f, g | f in a && g in a && Leq(f, g) && Leq(g, f) ensures f == g {
      LeqAntisymmetric(f, g);
    }
    SortUnique(Leq, a, b);
  }

  lemma SameFamilies(s: seq<Candidate>, t: seq<Candidate>)
    requires multiset(s) == multiset(t)
    ensures Families(s) == Families(t)
  {
    SameElements(s, t);
    AnyFamilyOrder(Occurring(s), Occurring(t));
  }

  lemma {:induction false} SamePasses(s: seq<Candidate>, t: seq<Candidate>, fs: seq<Family>, caps: Caps)
    requires DistinctIds(s) && multiset(s) == multiset(t)
    requires AllGroups(s, fs) && AllGroups(t, fs)
    ensures FirstPass(s, fs, caps) == FirstPass(t, fs, caps)
    ensures Collect(s, fs) == Collect(t, fs)
  {
    if fs != [] {
      hide Group, Visit;
      SamePasses(s, t, fs[..|fs| - 1], caps);
      SameGroup(s, t, fs[|fs| - 1]);
    }
  }

  /** With distinct IDs, both result lists are the same for every order of the input. */
  lemma OrderIrrelevant(s: seq<Candidate>, t: seq<Candidate>, params: Params)
    requires DistinctIds(s) && multiset(s) == multiset(t)
    ensures Select(s, params) == Select(t, params)
  {
    GroupOfOccurring(s);
    GroupOfOccurring(t);
    SameFamilies(s, t);
    SamePasses(s, t, Families(s), EffectiveCaps(params));
  }

  // ---------- where the guarantees end ----------

  lemma OccurringPair(a: Candidate, b: Candidate)
    requires FamilyOf(a) != FamilyOf(b)
    ensures Occurring([a, b]) == [FamilyOf(a), FamilyOf(b)]
  {
    assert [a, b][..1] == [a];
    assert [a][..0] == [];
    assert Occurring([a]) == [FamilyOf(a)];
  }

  /** Two families whose only endpoints collide in the key text: the seeding loop rejects one head
      and keeps it on the list, so that it is reported twice. */
  lemma CollidingFamilies(a: Candidate, b: Candidate, params: Params)
    requires FamilyOf(a) != FamilyOf(b) && Key(a) == Key(b)
    requires EffectiveCaps(params).total > 1
    ensures Bag(Id, Select([a, b], params).included) + Bag(ExcludedId, Select([a, b], params).excluded) != Bag(Id, [a, b])
  {
    hide Bag, Select, Key, EffectiveCaps;
    var s, caps := [a, b], EffectiveCaps(params);
    OccurringPair(a, b);
    PartitionIff(s, params);
    FamiliesDistinct(s);
    GroupOfOccurring(s);
    assert |Families(s)| == 2;
    assert Families(s)[..2] == Families(s);
    var heads := SeedHeads(s, caps);
    HeadFamily(s, Families(s)[0]);
    HeadFamily(s, Families(s)[1]);
    assert heads[0] in s && heads[1] in s;
    assert Key(heads[0]) == Key(heads[1]);
    assert !DistinctKeys(heads);
  }

  /** Such families exist: the separator may hide in a family name. */
  lemma CollisionExists(p: Profile)
    ensures var a := p.(family := "dns", endpoint := Endpoint("a|b", 53, "dual"));
            var b := p.(family := "dns|a", endpoint := Endpoint("b", 53, "dual"));
            a.family != b.family && EndpointKey(a) == EndpointKey(b)
  {
    assert "dns" + "|" + "a|b" == "dns|a" + "|" + "b";
  }
}
