/** What bundle selection guarantees: caps, counting, conservation of candidates, optimality, and
    independence of the input order. */
module SelectionProofs {
  import opened Counting
  import opened Sorting
  import opened Profiles
  import opened Selection

  /** Two candidates with the same endpoint key are of the same family.  The key starts with the
      family name, so this can only fail when a family name contains the separator. */
  ghost predicate KeysSplitByFamily(s: seq<Candidate>) {
    forall a, b :: a in s && b in s && Key(a) == Key(b) ==> FamilyOf(a) == FamilyOf(b)
  }

  lemma SeparatorFreeFamilies(s: seq<Candidate>)
    requires forall c :: c in s ==> '|' !in FamilyOf(c)
    ensures KeysSplitByFamily(s)
  {
    forall a, b | a in s && b in s && Key(a) == Key(b) ensures FamilyOf(a) == FamilyOf(b) {
      EndpointKeyInjective(a.profile, b.profile);
    }
  }

  ghost predicate DistinctKeys(s: seq<Candidate>) {
    forall i, j :: 0 <= i < j < |s| ==> Key(s[i]) != Key(s[j])
  }

  /** One candidate per endpoint, the family cap, the total cap. */
  ghost predicate Feasible(s: seq<Candidate>, sel: seq<Candidate>, caps: Caps) {
    && DistinctKeys(sel)
    && (forall c :: c in sel ==> c in s)
    && (forall f :: CountFamily(sel, f) <= caps.perFamily)
    && |sel| <= caps.total
  }

  // ---------- every run of the two passes stays feasible ----------

  lemma SelectOneFeasible(s: seq<Candidate>, t: Tally, c: Candidate, caps: Caps)
    requires Feasible(s, t.selected, caps) && c in s && |t.selected| < caps.total
    ensures Feasible(s, SelectOne(t, c, caps).selected, caps)
  {
    var sel := SelectOne(t, c, caps).selected;
    if Accepts(t.selected, c, caps) {
      assert sel == t.selected + [c];
      assert sel[..|sel| - 1] == t.selected;
      forall i, j | 0 <= i < j < |sel| ensures Key(sel[i]) != Key(sel[j]) {
        if j == |t.selected| {
          assert sel[i] in t.selected;
        }
      }
    }
  }

  lemma GroupInInput(s: seq<Candidate>, f: Family)
    ensures forall c :: c in Group(s, f) <==> c in s && FamilyOf(c) == f
  {
    SortMultiset(Before, OfFamily(s, f));
    SameElements(Group(s, f), OfFamily(s, f));
  }

  lemma {:induction false} FirstPassFeasible(s: seq<Candidate>, fs: seq<Family>, caps: Caps)
    requires forall f :: f in fs ==> Group(s, f) != []
    ensures Feasible(s, FirstPass(s, fs, caps).tally.selected, caps)
    ensures forall c :: c in FirstPass(s, fs, caps).rest ==> c in s
  {
    if fs != [] {
      var n := |fs| - 1;
      FirstPassFeasible(s, fs[..n], caps);
      var p := FirstPass(s, fs[..n], caps);
      GroupInInput(s, fs[n]);
      var group := Group(s, fs[n]);
      assert group[0] in group;
      if |p.tally.selected| < caps.total {
        SelectOneFeasible(s, p.tally, group[0], caps);
      }
    }
  }

  lemma {:induction false} CollectInInput(s: seq<Candidate>, fs: seq<Family>)
    ensures forall c :: c in Collect(s, fs) ==> c in s
  {
    if fs != [] {
      CollectInInput(s, fs[..|fs| - 1]);
      GroupInInput(s, fs[|fs| - 1]);
    }
  }

  lemma SeededFeasible(s: seq<Candidate>, caps: Caps)
    ensures Feasible(s, Seeded(s, caps).tally.selected, caps)
    ensures forall c :: c in Seeded(s, caps).rest ==> c in s
  {
    GroupOfOccurring(s);
    FirstPassFeasible(s, Families(s), caps);
    CollectInInput(s, Families(s));
  }

  lemma {:induction false} SecondPassFeasible(s: seq<Candidate>, t: Tally, rest: seq<Candidate>, caps: Caps)
    requires Feasible(s, t.selected, caps) && forall c :: c in rest ==> c in s
    ensures Feasible(s, SecondPass(t, rest, caps).selected, caps)
  {
    if rest != [] {
      var n := |rest| - 1;
      SecondPassFeasible(s, t, rest[..n], caps);
      var u := SecondPass(t, rest[..n], caps);
      assert rest[n] in rest;
      if |u.selected| < caps.total {
        SelectOneFeasible(s, u, rest[n], caps);
      }
    }
  }

  lemma RestInInput(s: seq<Candidate>, caps: Caps)
    ensures forall c :: c in SortedRest(s, caps) ==> c in s
  {
    SeededFeasible(s, caps);
    SortMultiset(Before, Seeded(s, caps).rest);
    SameElements(SortedRest(s, caps), Seeded(s, caps).rest);
  }

  /** Selection never exceeds a cap and never takes an endpoint twice, for any input. */
  lemma FilledFeasible(s: seq<Candidate>, caps: Caps)
    ensures Feasible(s, Filled(s, caps).selected, caps)
  {
    SeededFeasible(s, caps);
    RestInInput(s, caps);
    SecondPassFeasible(s, Seeded(s, caps).tally, SortedRest(s, caps), caps);
  }

  // ---------- the size no feasible selection can exceed ----------

  ghost function FamilyKeys(s: seq<Candidate>, f: Family): set<string> {
    set c | c in s && FamilyOf(c) == f :: Key(c)
  }

  function Min(a: nat, b: nat): nat {
    if a <= b then a else b
  }

  /** The sum over the families `fs` of min(cap per family, distinct endpoints of the family). */
  ghost function Rank(fs: seq<Family>, s: seq<Candidate>, perFamily: nat): nat {
    if fs == [] then 0
    else Rank(fs[..|fs| - 1], s, perFamily) + Min(perFamily, |FamilyKeys(s, fs[|fs| - 1])|)
  }

  ghost function SumCounts(fs: seq<Family>, s: seq<Candidate>): nat {
    if fs == [] then 0 else SumCounts(fs[..|fs| - 1], s) + CountFamily(s, fs[|fs| - 1])
  }

  ghost predicate Covers(fs: seq<Family>, s: seq<Candidate>) {
    Distinct(fs) && forall c :: c in s ==> FamilyOf(c) in fs
  }

  lemma CountAppend(s: seq<Candidate>, c: Candidate, f: Family)
    ensures CountFamily(s + [c], f) == CountFamily(s, f) + if FamilyOf(c) == f then 1 else 0
  {
    assert (s + [c])[..|s|] == s;
  }

  lemma {:induction false} SumCountsAppend(fs: seq<Family>, s: seq<Candidate>, c: Candidate)
    requires Distinct(fs)
    ensures SumCounts(fs, s + [c]) == SumCounts(fs, s) + if FamilyOf(c) in fs then 1 else 0
  {
    if fs != [] {
      var n := |fs| - 1;
      SumCountsAppend(fs[..n], s, c);
      CountAppend(s, c, fs[n]);
      assert fs == fs[..n] + [fs[n]];
      assert fs[n] !in fs[..n];
    }
  }

  lemma {:induction false} SumCountsEmpty(fs: seq<Family>)
    ensures SumCounts(fs, []) == 0
  {
    if fs != [] {
      SumCountsEmpty(fs[..|fs| - 1]);
    }
  }

  lemma {:induction false} SumCountsIsSize(fs: seq<Family>, s: seq<Candidate>)
    requires Covers(fs, s)
    ensures SumCounts(fs, s) == |s|
  {
    if s == [] {
      SumCountsEmpty(fs);
    } else {
      var n := |s| - 1;
      assert s == s[..n] + [s[n]];
      SumCountsIsSize(fs, s[..n]);
      SumCountsAppend(fs, s[..n], s[n]);
    }
  }

  lemma FamilyKeysAppend(s: seq<Candidate>, c: Candidate, f: Family)
    ensures FamilyKeys(s + [c], f) == FamilyKeys(s, f) + if FamilyOf(c) == f then {Key(c)} else {}
  {
  }

  lemma {:induction false} CountIsKeys(s: seq<Candidate>, f: Family)
    requires DistinctKeys(s)
    ensures CountFamily(s, f) == |FamilyKeys(s, f)|
  {
    if s != [] {
      var n := |s| - 1;
      assert s == s[..n] + [s[n]];
      CountIsKeys(s[..n], f);
      FamilyKeysAppend(s[..n], s[n], f);
      assert Key(s[n]) !in FamilyKeys(s[..n], f);
    }
  }

  lemma FamilyKeysSubset(s: seq<Candidate>, t: seq<Candidate>, f: Family)
    requires forall c :: c in s ==> c in t
    ensures FamilyKeys(s, f) <= FamilyKeys(t, f)
    ensures |FamilyKeys(s, f)| <= |FamilyKeys(t, f)|
  {
    SubsetSize(FamilyKeys(s, f), FamilyKeys(t, f));
  }

  lemma {:induction false} RankMonotone(fs: seq<Family>, s: seq<Candidate>, t: seq<Candidate>, perFamily: nat)
    requires forall c :: c in s ==> c in t
    ensures Rank(fs, s, perFamily) <= Rank(fs, t, perFamily)
  {
    if fs != [] {
      RankMonotone(fs[..|fs| - 1], s, t, perFamily);
      FamilyKeysSubset(s, t, fs[|fs| - 1]);
    }
  }

  lemma {:induction false} CountsBelowRank(fs: seq<Family>, p: seq<Candidate>, sel: seq<Candidate>, perFamily: nat)
    requires DistinctKeys(sel) && (forall c :: c in sel ==> c in p)
    requires forall f :: CountFamily(sel, f) <= perFamily
    ensures SumCounts(fs, sel) <= Rank(fs, p, perFamily)
  {
    if fs != [] {
      var f := fs[|fs| - 1];
      CountsBelowRank(fs[..|fs| - 1], p, sel, perFamily);
      CountIsKeys(sel, f);
      FamilyKeysSubset(sel, p, f);
    }
  }

  /** A selection with one candidate per endpoint that respects the family cap is no larger than
      the rank of what it selects from. */
  lemma RankBound(fs: seq<Family>, p: seq<Candidate>, sel: seq<Candidate>, perFamily: nat)
    requires DistinctKeys(sel) && (forall c :: c in sel ==> c in p)
    requires forall f :: CountFamily(sel, f) <= perFamily
    requires Covers(fs, p)
    ensures |sel| <= Rank(fs, p, perFamily)
  {
    CountsBelowRank(fs, p, sel, perFamily);
    SumCountsIsSize(fs, sel);
  }

  /** Families below their cap have all their endpoints of `p` selected. */
  ghost predicate Full(p: seq<Candidate>, sel: seq<Candidate>, perFamily: nat) {
    forall f :: CountFamily(sel, f) < perFamily ==> FamilyKeys(p, f) <= FamilyKeys(sel, f)
  }

  lemma FullFamily(p: seq<Candidate>, sel: seq<Candidate>, perFamily: nat, f: Family)
    requires DistinctKeys(sel) && (forall c :: c in sel ==> c in p)
    requires CountFamily(sel, f) <= perFamily
    requires CountFamily(sel, f) < perFamily ==> FamilyKeys(p, f) <= FamilyKeys(sel, f)
    ensures CountFamily(sel, f) == Min(perFamily, |FamilyKeys(p, f)|)
  {
    CountIsKeys(sel, f);
    FamilyKeysSubset(sel, p, f);
    if CountFamily(sel, f) < perFamily {
      assert FamilyKeys(p, f) == FamilyKeys(sel, f);
    }
  }

  lemma {:induction false} CountsReachRank(fs: seq<Family>, p: seq<Candidate>, sel: seq<Candidate>, perFamily: nat)
    requires DistinctKeys(sel) && (forall c :: c in sel ==> c in p)
    requires forall f :: CountFamily(sel, f) <= perFamily
    requires Full(p, sel, perFamily)
    ensures SumCounts(fs, sel) == Rank(fs, p, perFamily)
  {
    if fs != [] {
      var f := fs[|fs| - 1];
      CountsReachRank(fs[..|fs| - 1], p, sel, perFamily);
      FullFamily(p, sel, perFamily, f);
    }
  }

  // ---------- the greedy choice reaches that size, on every prefix of what it is offered ----------

  /** After `p` has been offered: either the total cap is reached or nothing more could be taken. */
  ghost predicate Saturated(p: seq<Candidate>, sel: seq<Candidate>, caps: Caps) {
    && DistinctKeys(sel)
    && (forall c :: c in sel ==> c in p)
    && (forall f :: CountFamily(sel, f) <= caps.perFamily)
    && |sel| <= caps.total
    && (|sel| < caps.total ==> Full(p, sel, caps.perFamily))
  }

  lemma SaturatedSize(fs: seq<Family>, p: seq<Candidate>, sel: seq<Candidate>, caps: Caps)
    requires Covers(fs, p) && Saturated(p, sel, caps)
    ensures |sel| == Min(caps.total, Rank(fs, p, caps.perFamily))
  {
    RankBound(fs, p, sel, caps.perFamily);
    if |sel| < caps.total {
      CountsReachRank(fs, p, sel, caps.perFamily);
      SumCountsIsSize(fs, sel);
    }
  }

  lemma FullAfterOffer(p: seq<Candidate>, t: Tally, c: Candidate, caps: Caps)
    requires KeysSplitByFamily(p + [c]) && Saturated(p, t.selected, caps) && |t.selected| < caps.total
    ensures Full(p + [c], SelectOne(t, c, caps).selected, caps.perFamily)
  {
    var sel, after := t.selected, SelectOne(t, c, caps).selected;
    forall f | CountFamily(after, f) < caps.perFamily ensures FamilyKeys(p + [c], f) <= FamilyKeys(after, f) {
      FamilyKeysAppend(p, c, f);
      if after == sel + [c] {
        CountAppend(sel, c, f);
        FamilyKeysAppend(sel, c, f);
      } else if FamilyOf(c) == f {
        var twin :| twin in sel && Key(twin) == Key(c);
        assert FamilyOf(twin) == f;
      }
    }
  }

  lemma OfferSaturated(p: seq<Candidate>, t: Tally, c: Candidate, caps: Caps)
    requires KeysSplitByFamily(p + [c]) && Saturated(p, t.selected, caps)
    ensures Saturated(p + [c], Offer(t, c, caps).selected, caps)
  {
    if |t.selected| < caps.total {
      SelectOneFeasible(p + [c], t, c, caps);
      FullAfterOffer(p, t, c, caps);
    }
  }

  lemma {:induction false} SecondPassSaturated(p: seq<Candidate>, t: Tally, rest: seq<Candidate>, caps: Caps)
    requires KeysSplitByFamily(p + rest) && Saturated(p, t.selected, caps)
    ensures Saturated(p + rest, SecondPass(t, rest, caps).selected, caps)
  {
    if rest == [] {
      assert p + rest == p;
    } else {
      var n := |rest| - 1;
      assert p + rest == p + rest[..n] + [rest[n]];
      SecondPassSaturated(p, t, rest[..n], caps);
      OfferSaturated(p + rest[..n], SecondPass(t, rest[..n], caps), rest[n], caps);
    }
  }

  // ---------- the seeds ----------

  /** The best candidate of each family. */
  function Heads(s: seq<Candidate>, fs: seq<Family>): (r: seq<Candidate>)
    requires forall f :: f in fs ==> Group(s, f) != []
    ensures |r| == |fs|
    ensures forall i :: 0 <= i < |fs| ==> r[i] == Group(s, fs[i])[0]
  {
    seq(|fs|, i requires 0 <= i < |fs| => Group(s, fs[i])[0])
  }

  function RejectedHead(selected: seq<Candidate>, head: Candidate, caps: Caps): seq<Candidate> {
    if |selected| < caps.total && !Accepts(selected, head, caps) then [head] else []
  }

  /** The candidates the first pass rejects; they stay on the list of the second pass. */
  function Rejections(s: seq<Candidate>, fs: seq<Family>, caps: Caps): seq<Candidate>
    requires forall f :: f in fs ==> Group(s, f) != []
  {
    if fs == [] then []
    else
      var p := FirstPass(s, fs[..|fs| - 1], caps);
      var head := Group(s, fs[|fs| - 1])[0];
      Rejections(s, fs[..|fs| - 1], caps) + RejectedHead(p.tally.selected, head, caps)
  }

  /** Does SelectForBundle run the seeding loop? */
  predicate Seeds(s: seq<Candidate>, caps: Caps) {
    caps.total > 1 && |Families(s)| > 1
  }

  function SeedRejections(s: seq<Candidate>, caps: Caps): seq<Candidate> {
    GroupOfOccurring(s);
    if Seeds(s, caps) then Rejections(s, Families(s), caps) else []
  }

  /** The families whose best candidate the seeding loop tries when none is rejected. */
  function SeedFamilies(s: seq<Candidate>, caps: Caps): seq<Family> {
    if Seeds(s, caps) then Families(s)[..Min(caps.total, |Families(s)|)] else []
  }

  function SeedHeads(s: seq<Candidate>, caps: Caps): seq<Candidate> {
    GroupOfOccurring(s);
    Heads(s, SeedFamilies(s, caps))
  }

  lemma HeadFamily(s: seq<Candidate>, f: Family)
    requires Group(s, f) != []
    ensures FamilyOf(Group(s, f)[0]) == f && Group(s, f)[0] in s
  {
    GroupInInput(s, f);
    assert Group(s, f)[0] in Group(s, f);
  }

  lemma {:induction false} NoneOfFamily(sel: seq<Candidate>, f: Family)
    requires forall c :: c in sel ==> FamilyOf(c) != f
    ensures CountFamily(sel, f) == 0
  {
    if sel != [] {
      NoneOfFamily(sel[..|sel| - 1], f);
    }
  }

  /** A seed is accepted exactly when its endpoint is new: its family has no seed yet. */
  lemma SeedAccepted(s: seq<Candidate>, fs: seq<Family>, k: nat, f: Family, caps: Caps)
    requires forall g :: g in fs ==> Group(s, g) != []
    requires k <= |fs| && f !in fs[..k] && Group(s, f) != [] && caps.perFamily > 0
    ensures Accepts(Heads(s, fs[..k]), Group(s, f)[0], caps) <==> Key(Group(s, f)[0]) !in Keys(Heads(s, fs[..k]))
  {
    HeadFamily(s, f);
    var heads := Heads(s, fs[..k]);
    forall c | c in heads ensures FamilyOf(c) != f {
      var i :| 0 <= i < k && heads[i] == c;
      HeadFamily(s, fs[i]);
    }
    NoneOfFamily(heads, f);
  }

  lemma HeadsPrefix(s: seq<Candidate>, fs: seq<Family>, m: nat, k: nat)
    requires forall f :: f in fs ==> Group(s, f) != []
    requires k < m <= |fs|
    ensures Heads(s, fs[..k + 1]) == Heads(s, fs[..k]) + [Group(s, fs[k])[0]]
    ensures DistinctKeys(Heads(s, fs[..m])) ==>
              DistinctKeys(Heads(s, fs[..k])) && Key(Group(s, fs[k])[0]) !in Keys(Heads(s, fs[..k]))
  {
    hide Group;
    var all, front := Heads(s, fs[..m]), Heads(s, fs[..k]);
    assert forall i :: 0 <= i < k ==> front[i] == all[i];
    assert all[k] == Group(s, fs[k])[0];
  }

  lemma SeedVisit(p: Pass, heads: seq<Candidate>, group: seq<Candidate>, caps: Caps)
    requires group != [] && p.tally == Tally(heads, [])
    ensures |heads| >= caps.total ==> Visit(p, group, caps).tally == p.tally
    ensures |heads| < caps.total && Accepts(heads, group[0], caps) ==>
              Visit(p, group, caps).tally == Tally(heads + [group[0]], [])
  {
    hide CountFamily, Keys;
  }

  ghost predicate AllGroups(s: seq<Candidate>, fs: seq<Family>) {
    forall f :: f in fs ==> Group(s, f) != []
  }

  /** The seeding loop, one family further. */
  lemma FirstPassStep(s: seq<Candidate>, fs: seq<Family>, k: nat, caps: Caps)
    requires k < |fs| && AllGroups(s, fs)
    ensures Group(s, fs[k]) != [] && AllGroups(s, fs[..k]) && AllGroups(s, fs[..k + 1])
    ensures FirstPass(s, fs[..k + 1], caps) == Visit(FirstPass(s, fs[..k], caps), Group(s, fs[k]), caps)
    ensures Rejections(s, fs[..k + 1], caps) == Rejections(s, fs[..k], caps)
                                             + RejectedHead(FirstPass(s, fs[..k], caps).tally.selected, Group(s, fs[k])[0], caps)
  {
    hide Group, Visit, RejectedHead;
    assert fs[..k + 1][..k] == fs[..k] && fs[..k + 1][k] == fs[k];
  }

  lemma NextSeedAccepted(s: seq<Candidate>, fs: seq<Family>, m: nat, k: nat, caps: Caps)
    requires k < m <= |fs| && AllGroups(s, fs) && Distinct(fs) && caps.perFamily > 0
    requires DistinctKeys(Heads(s, fs[..m]))
    ensures Group(s, fs[k]) != [] && Accepts(Heads(s, fs[..k]), Group(s, fs[k])[0], caps)
    ensures Heads(s, fs[..k + 1]) == Heads(s, fs[..k]) + [Group(s, fs[k])[0]]
  {
    hide Group, Accepts, Heads, DistinctKeys, Keys;
    HeadsPrefix(s, fs, m, k);
    assert fs[k] !in fs[..k];
    SeedAccepted(s, fs, k, fs[k], caps);
  }

  /** After `n` families every head within the total cap is selected and none was rejected. */
  ghost predicate SeededUpTo(s: seq<Candidate>, fs: seq<Family>, n: nat, caps: Caps)
    requires n <= |fs| && AllGroups(s, fs)
  {
    && FirstPass(s, fs[..n], caps).tally == Tally(Heads(s, fs[..Min(caps.total, n)]), [])
    && Rejections(s, fs[..n], caps) == []
  }

  lemma SeededUpToNone(s: seq<Candidate>, fs: seq<Family>, caps: Caps)
    requires AllGroups(s, fs)
    ensures SeededUpTo(s, fs, 0, caps)
  {
    hide Group;
    assert fs[..0] == [];
    assert Heads(s, fs[..0]) == [];
  }

  /** The seeding invariant moves on exactly when the next head is accepted. */
  lemma SeededStep(s: seq<Candidate>, fs: seq<Family>, k: nat, caps: Caps)
    requires k < |fs| && AllGroups(s, fs) && Group(s, fs[k]) != []
    requires SeededUpTo(s, fs, k, caps)
    requires k < caps.total ==> Heads(s, fs[..k + 1]) == Heads(s, fs[..k]) + [Group(s, fs[k])[0]]
    ensures SeededUpTo(s, fs, k + 1, caps) <==>
            (k < caps.total ==> Accepts(Heads(s, fs[..k]), Group(s, fs[k])[0], caps))
    ensures Rejections(s, fs[..k + 1], caps) == [] ==> SeededUpTo(s, fs, k + 1, caps)
  {
    FirstPassStep(s, fs, k, caps);
    hide Group, Visit, Accepts, FirstPass, Rejections;
    SeedVisit(FirstPass(s, fs[..k], caps), Heads(s, fs[..Min(caps.total, k)]), Group(s, fs[k]), caps);
  }

  /** As long as no seed repeats an endpoint, the first pass selects every head it reaches. */
  lemma {:induction false} DistinctSeedsSelected(s: seq<Candidate>, fs: seq<Family>, n: nat, caps: Caps)
    requires n <= |fs| && AllGroups(s, fs)
    requires Distinct(fs) && caps.perFamily > 0
    requires DistinctKeys(Heads(s, fs[..Min(caps.total, |fs|)]))
    ensures SeededUpTo(s, fs, n, caps)
  {
    hide SeededUpTo, Accepts, DistinctKeys, Distinct;
    if n == 0 {
      SeededUpToNone(s, fs, caps);
    } else {
      var k := n - 1;
      DistinctSeedsSelected(s, fs, k, caps);
      if k < caps.total {
        NextSeedAccepted(s, fs, Min(caps.total, |fs|), k, caps);
      }
      SeededStep(s, fs, k, caps);
    }
  }

  /** The other way round: without a rejection the selected seeds are exactly those heads. */
  lemma {:induction false} UnrejectedSeeds(s: seq<Candidate>, fs: seq<Family>, n: nat, caps: Caps)
    requires n <= |fs| && AllGroups(s, fs)
    requires Rejections(s, fs[..n], caps) == []
    ensures SeededUpTo(s, fs, n, caps)
  {
    hide SeededUpTo, Accepts, DistinctKeys;
    if n == 0 {
      SeededUpToNone(s, fs, caps);
    } else {
      var k := n - 1;
      FirstPassStep(s, fs, k, caps);
      UnrejectedSeeds(s, fs, k, caps);
      HeadsPrefix(s, fs, n, k);
      SeededStep(s, fs, k, caps);
    }
  }

  /** The first pass rejects nobody if and only if the heads it reaches have different endpoints. */
  lemma NoRejectionIff(s: seq<Candidate>, caps: Caps)
    requires caps.perFamily > 0
    ensures SeedRejections(s, caps) == [] <==> DistinctKeys(SeedHeads(s, caps))
    ensures SeedRejections(s, caps) == [] ==> Seeded(s, caps).tally == Tally(SeedHeads(s, caps), [])
  {
    GroupOfOccurring(s);
    FamiliesDistinct(s);
    if Seeds(s, caps) {
      var fs := Families(s);
      assert fs[..|fs|] == fs;
      if DistinctKeys(SeedHeads(s, caps)) {
        DistinctSeedsSelected(s, fs, |fs|, caps);
      }
      if SeedRejections(s, caps) == [] {
        UnrejectedSeeds(s, fs, |fs|, caps);
        FirstPassFeasible(s, fs, caps);
      }
    }
  }

  lemma SplitKeysSeedsDistinct(s: seq<Candidate>, caps: Caps)
    requires KeysSplitByFamily(s)
    ensures DistinctKeys(SeedHeads(s, caps))
  {
    GroupOfOccurring(s);
    FamiliesDistinct(s);
    var fs := SeedFamilies(s, caps);
    forall i, j | 0 <= i < j < |fs| ensures Key(Group(s, fs[i])[0]) != Key(Group(s, fs[j])[0]) {
      HeadFamily(s, fs[i]);
      HeadFamily(s, fs[j]);
    }
  }
}
