/** Which candidates bundle selection takes, and what its report says about the others, in terms of
    scores, IDs, families, endpoints and caps. */
module SelectionChoice {
  import opened Text
  import opened Counting
  import opened Sorting
  import opened Profiles
  import opened Selection
  import opened SelectionProofs
  import opened SelectionTheorems

  /** A higher score, or the same score and not a larger ID. */
  predicate AtLeastAsGood(b: Candidate, c: Candidate) {
    b.score > c.score || (b.score == c.score && Leq(Id(b), Id(c)))
  }

  lemma BeforeIsBetter(b: Candidate, c: Candidate)
    ensures Before(b, c) <==> AtLeastAsGood(b, c)
  {
  }

  // ---------- the best of every family ----------

  /** A listing of the families that occur, in ascending order of their names. */
  ghost predicate FamilyList(s: seq<Candidate>, fs: seq<Family>) {
    && (forall f :: f in fs <==> exists c :: c in s && FamilyOf(c) == f)
    && (forall i, j :: 0 <= i < j < |fs| ==> fs[i] != fs[j] && Leq(fs[i], fs[j]))
  }

  lemma ListedFamilies(s: seq<Candidate>, fs: seq<Family>)
    requires FamilyList(s, fs)
    ensures fs == Families(s)
  {
    AnyFamilyOrder(fs, Occurring(s));
    SortOfSorted(Leq, fs);
  }

  lemma FirstIsBest(s: seq<Candidate>, c: Candidate)
    requires c in s
    ensures c in StableSort(Before, s) && AtLeastAsGood(StableSort(Before, s)[0], c)
  {
    BeforeOrder();
    SortSorted(Before, s);
    SortMultiset(Before, s);
    SameElements(StableSort(Before, s), s);
    SmallestFirst(Before, StableSort(Before, s), c);
    LeqReflexive(Id(c));
  }

  lemma HeadIsBest(s: seq<Candidate>, f: Family, c: Candidate)
    requires c in s && FamilyOf(c) == f
    ensures Group(s, f) != [] && FamilyOf(Group(s, f)[0]) == f && AtLeastAsGood(Group(s, f)[0], c)
  {
    FirstIsBest(OfFamily(s, f), c);
    HeadFamily(s, f);
  }

  lemma SeedIncluded(s: seq<Candidate>, caps: Caps, i: nat)
    requires KeysSplitByFamily(s) && Seeds(s, caps) && caps.perFamily > 0 && i < |Families(s)| && i < caps.total
    ensures Group(s, Families(s)[i]) != [] && Group(s, Families(s)[i])[0] in Filled(s, caps).selected
  {
    hide Group, KeysSplitByFamily, SecondPass;
    GroupOfOccurring(s);
    SplitKeysSeedsDistinct(s, caps);
    NoRejectionIff(s, caps);
    assert SeedFamilies(s, caps)[i] == Families(s)[i];
    assert SeedHeads(s, caps)[i] == Group(s, Families(s)[i])[0];
    SecondPassTakes(Seeded(s, caps).tally, SortedRest(s, caps), caps);
  }

  /** Without seeding the best of all is taken first. */
  lemma FirstOffered(rest: seq<Candidate>, caps: Caps)
    requires rest != [] && caps.total > 0 && caps.perFamily > 0
    ensures rest[0] in SecondPass(NOTHING, rest, caps).selected
  {
    assert rest[..1] == [rest[0]] && rest[..1][..0] == [];
    assert SecondPass(NOTHING, [], caps) == NOTHING;
    assert SecondPass(NOTHING, rest[..1], caps) == Offer(NOTHING, rest[0], caps);
    hide SecondPass;
    SecondPassGrows(NOTHING, rest, 1, caps);
  }

  /** Without seeding the best of all is included. */
  lemma NoSeeds(s: seq<Candidate>, caps: Caps) returns (b: Candidate)
    requires s != [] && !Seeds(s, caps) && caps.total > 0 && caps.perFamily > 0
    ensures b in Filled(s, caps).selected && b in s && forall c :: c in s ==> AtLeastAsGood(b, c)
  {
    hide Group, AtLeastAsGood, SecondPass;
    var rest := SortedRest(s, caps);
    SeedsAndRest(s, caps, s[0]);
    b := rest[0];
    FirstOffered(rest, caps);
    forall c | c in s ensures AtLeastAsGood(b, c) {
      SeedsAndRest(s, caps, c);
      SortMultiset(Before, Seeded(s, caps).rest);
      SameElements(rest, Seeded(s, caps).rest);
      FirstIsBest(Seeded(s, caps).rest, c);
    }
    SeedsAndRest(s, caps, b);
  }

  lemma OnlyFamily(s: seq<Candidate>, f: Family, caps: Caps) returns (b: Candidate)
    requires Families(s) == [f] && caps.total > 0 && caps.perFamily > 0
    ensures b in Filled(s, caps).selected && FamilyOf(b) == f
    ensures forall c :: c in s ==> AtLeastAsGood(b, c)
  {
    hide AtLeastAsGood, Filled;
    FamiliesDistinct(s);
    assert f in Families(s);
    b := NoSeeds(s, caps);
    assert FamilyOf(b) in Families(s);
  }

  lemma IncludedIsSelected(s: seq<Candidate>, params: Params)
    ensures multiset(Select(s, params).included) == multiset(Filled(s, EffectiveCaps(params)).selected)
    ensures forall c :: c in Select(s, params).included <==> c in Filled(s, EffectiveCaps(params)).selected
  {
    SortMultiset(IdBefore, Filled(s, EffectiveCaps(params)).selected);
    SameElements(Select(s, params).included, Filled(s, EffectiveCaps(params)).selected);
  }

  /** As far as the total cap reaches, every family in name order has its best candidate included: the
      highest score, and the smallest ID among equals. */
  lemma EveryFamilyRepresented(s: seq<Candidate>, params: Params, fs: seq<Family>, i: nat) returns (b: Candidate)
    requires forall c :: c in s ==> '|' !in FamilyOf(c)
    requires FamilyList(s, fs) && i < |fs| && 1 < EffectiveCaps(params).total && i < EffectiveCaps(params).total
    ensures b in Select(s, params).included && FamilyOf(b) == fs[i]
    ensures forall c :: c in s && FamilyOf(c) == fs[i] ==> b.score > c.score || (b.score == c.score && Leq(Id(b), Id(c)))
  {
    var caps := EffectiveCaps(params);
    ListedFamilies(s, fs);
    SeparatorFreeFamilies(s);
    IncludedIsSelected(s, params);
    hide KeysSplitByFamily, FamilyList, Filled, Select, Families, Group;
    if Seeds(s, caps) {
      SeedIncluded(s, caps, i);
      b := Group(s, fs[i])[0];
      HeadFamily(s, fs[i]);
      forall c | c in s && FamilyOf(c) == fs[i] ensures AtLeastAsGood(b, c) {
        HeadIsBest(s, fs[i], c);
      }
    } else {
      assert fs == [fs[0]];
      b := OnlyFamily(s, fs[0], caps);
      assert forall c :: c in s ==> AtLeastAsGood(b, c);
    }
  }

  /** With room for one, that is the best of all, whatever its family. */
  lemma OnlyTheBest(s: seq<Candidate>, params: Params) returns (b: Candidate)
    requires s != [] && params.maxProfiles == 1
    ensures Select(s, params).included == [b] && b in s
    ensures forall c :: c in s ==> b.score > c.score || (b.score == c.score && Leq(Id(b), Id(c)))
  {
    var caps := EffectiveCaps(params);
    b := NoSeeds(s, caps);
    IncludedIsSelected(s, params);
    FilledFeasible(s, caps);
    hide Filled, Select, Key;
    var included := Select(s, params).included;
    assert |included| == |Filled(s, caps).selected| <= 1;
    assert b in included;
    assert forall c :: c in s ==> AtLeastAsGood(b, c);
  }

  // ---------- nothing left out would have been better ----------

  /** A candidate that the list offers before `rest[i]` and that does not end up selected found the
      total cap reached, its family full, or its endpoint taken. */
  lemma {:induction false} OfferedAndRefused(t: Tally, rest: seq<Candidate>, j: nat, caps: Caps)
    requires j < |rest| && rest[j] !in SecondPass(t, rest, caps).selected
    ensures var taken := SecondPass(t, rest[..j], caps).selected;
            |taken| >= caps.total || CountFamily(taken, FamilyOf(rest[j])) >= caps.perFamily || Key(rest[j]) in Keys(taken)
  {
    var taken := SecondPass(t, rest[..j], caps);
    assert rest[..j + 1][..j] == rest[..j];
    assert SecondPass(t, rest[..j + 1], caps) == Offer(taken, rest[j], caps);
    SecondPassGrows(t, rest, j + 1, caps);
    hide SecondPass, CountFamily, Keys, Offer, Accepts;
    if |taken.selected| < caps.total && Accepts(taken.selected, rest[j], caps) {
      OfferTakes(taken, rest[j], caps);
    }
    AcceptsMeans(taken.selected, rest[j], caps);
  }

  lemma OfferTakes(t: Tally, c: Candidate, caps: Caps)
    requires |t.selected| < caps.total && Accepts(t.selected, c, caps)
    ensures Offer(t, c, caps).selected == t.selected + [c] && c in Offer(t, c, caps).selected
  {
  }

  lemma AcceptsMeans(sel: seq<Candidate>, c: Candidate, caps: Caps)
    ensures Accepts(sel, c, caps) || CountFamily(sel, FamilyOf(c)) >= caps.perFamily || Key(c) in Keys(sel)
  {
  }

  /** Where on the list the choice number `k` was offered: everything chosen before comes from before. */
  lemma {:induction false} OfferOf(t: Tally, rest: seq<Candidate>, caps: Caps, k: nat) returns (i: nat)
    requires |t.selected| <= k < |SecondPass(t, rest, caps).selected|
    ensures i < |rest| && rest[i] == SecondPass(t, rest, caps).selected[k]
    ensures |SecondPass(t, rest[..i], caps).selected| == k < caps.total
  {
    hide CountFamily, Keys;
    var n := |rest| - 1;
    var before := SecondPass(t, rest[..n], caps);
    if k < |before.selected| {
      i := OfferOf(t, rest[..n], caps, k);
      assert rest[..n][..i] == rest[..i];
      OfferGrows(before, rest[n], caps);
    } else {
      i := n;
    }
  }

  lemma SmallerPart(small: seq<Candidate>, sel: seq<Candidate>, k: nat, c: Candidate, f: Family)
    requires small <= sel && |small| <= k < |sel|
    ensures CountFamily(sel[k := c], f) >= CountFamily(small, f) + if FamilyOf(c) == f then 1 else 0
  {
    var swapped := sel[k := c];
    assert swapped[..|small|] == small;
    CountSplit(swapped, k, f);
    CountPrefix(swapped[..k], |small|, f);
    assert swapped[..k][..|small|] == small;
  }

  lemma {:induction false} CountSplit(s: seq<Candidate>, k: nat, f: Family)
    requires k < |s|
    ensures CountFamily(s, f) >= CountFamily(s[..k], f) + if FamilyOf(s[k]) == f then 1 else 0
  {
    var n := |s| - 1;
    if k < n {
      CountSplit(s[..n], k, f);
      assert s[..n][..k] == s[..k];
    }
  }

  lemma SwapRefused(small: seq<Candidate>, sel: seq<Candidate>, k: nat, c: Candidate, s: seq<Candidate>, caps: Caps)
    requires small <= sel && |small| <= k < |sel| && |small| < caps.total
    requires |small| >= caps.total || CountFamily(small, FamilyOf(c)) >= caps.perFamily || Key(c) in Keys(small)
    ensures !Feasible(s, sel[k := c], caps)
  {
    var swapped := sel[k := c];
    SmallerPart(small, sel, k, c, FamilyOf(c));
    hide CountFamily, Key;
    if Key(c) in Keys(small) {
      var twin :| twin in small && Key(twin) == Key(c);
      var j :| 0 <= j < |small| && small[j] == twin;
      assert swapped[j] == sel[j] == twin && swapped[k] == c;
      assert Key(swapped[j]) == Key(swapped[k]) && j < k;
    } else {
      assert CountFamily(swapped, FamilyOf(c)) > caps.perFamily;
    }
  }

  /** Choice by choice: replacing a choice of the second pass by a candidate that was left out and
      stands before it would break a cap or repeat an endpoint. */
  lemma NoBetterChoice(s: seq<Candidate>, caps: Caps, c: Candidate, k: nat)
    requires c in s && c !in Filled(s, caps).selected
    requires |Seeded(s, caps).tally.selected| <= k < |Filled(s, caps).selected|
    requires Feasible(s, Filled(s, caps).selected[k := c], caps)
    ensures AtLeastAsGood(Filled(s, caps).selected[k], c)
  {
    hide Seeded, Feasible, SecondPass, CountFamily, Keys, AtLeastAsGood, Key;
    var t, rest := Seeded(s, caps).tally, SortedRest(s, caps);
    var sel := Filled(s, caps).selected;
    var i := OfferOf(t, rest, caps, k);
    SeedsAndRest(s, caps, c);
    SecondPassTakes(t, rest, caps);
    assert c in rest;
    var j :| 0 <= j < |rest| && rest[j] == c;
    RestSorted(s, caps);
    if j < i {
      OfferedAndRefused(t, rest, j, caps);
      var small := SecondPass(t, rest[..j], caps).selected;
      SecondPassGrows(t, rest[..i], j, caps);
      assert rest[..i][..j] == rest[..j];
      SecondPassGrows(t, rest, j, caps);
      SwapRefused(small, sel, k, c, s, caps);
      assert false;
    } else {
      assert i != j;
      assert Before(rest[i], rest[j]);
      BeforeIsBetter(rest[i], rest[j]);
    }
  }

  lemma RestSorted(s: seq<Candidate>, caps: Caps)
    ensures Sorted(Before, SortedRest(s, caps))
  {
    BeforeOrder();
    SortSorted(Before, Seeded(s, caps).rest);
  }

  lemma FeasiblePermutation(s: seq<Candidate>, a: seq<Candidate>, b: seq<Candidate>, caps: Caps)
    requires Feasible(s, a, caps) && multiset(a) == multiset(b)
    ensures Feasible(s, b, caps)
  {
    SameElements(a, b);
    DistinctKeysPermutation(a, b);
    forall f ensures CountFamily(b, f) <= caps.perFamily {
      CountPermutation(a, b, f);
    }
  }

  lemma ReplaceOne(sel: seq<Candidate>, k: nat, c: Candidate)
    requires k < |sel|
    ensures multiset(sel[k := c]) == multiset(sel) - multiset{sel[k]} + multiset{c}
  {
    assert sel == sel[..k] + [sel[k]] + sel[k + 1..];
    assert sel[k := c] == sel[..k] + [c] + sel[k + 1..];
  }

  /** No candidate left out could take the place of one that is included and no seed, within the caps
      and the endpoints, and have a higher score or the same score and a smaller ID. */
  lemma NoBetterReplacement(s: seq<Candidate>, params: Params, c: Candidate, d: Candidate, replaced: seq<Candidate>)
    requires c in s && c !in Select(s, params).included && d in Select(s, params).included
    requires d !in Seeded(s, EffectiveCaps(params)).tally.selected
    requires multiset(replaced) == multiset(Select(s, params).included) - multiset{d} + multiset{c}
    requires Feasible(s, replaced, EffectiveCaps(params))
    ensures d.score > c.score || (d.score == c.score && Leq(Id(d), Id(c)))
  {
    var caps := EffectiveCaps(params);
    IncludedIsSelected(s, params);
    hide Select, Seeded, Feasible, SecondPass;
    var sel := Filled(s, caps).selected;
    SecondPassTakes(Seeded(s, caps).tally, SortedRest(s, caps), caps);
    var seeds := Seeded(s, caps).tally.selected;
    assert seeds <= sel;
    hide Filled;
    var k :| 0 <= k < |sel| && sel[k] == d;
    assert forall m :: 0 <= m < |seeds| ==> seeds[m] == sel[m] && seeds[m] in seeds;
    ReplaceOne(sel, k, c);
    FeasiblePermutation(s, replaced, sel[k := c], caps);
    NoBetterChoice(s, caps, c, k);
  }

  // ---------- the report ----------

  /** The included candidates come in ascending order of their IDs. */
  lemma IncludedById(s: seq<Candidate>, params: Params)
    ensures forall i, j :: 0 <= i < j < |Select(s, params).included| ==>
              Leq(Id(Select(s, params).included[i]), Id(Select(s, params).included[j]))
  {
    LeqOrder();
    assert TotalPreorder(IdBefore);
    SortSorted(IdBefore, Filled(s, EffectiveCaps(params)).selected);
    hide Filled;
  }

  /** What an exclusion says, judged by the final selection. */
  ghost predicate Justified(s: seq<Candidate>, sel: seq<Candidate>, e: Exclusion, caps: Caps) {
    exists c :: c in s && Id(c) == e.id &&
      match e.reason
      case MaxProfilesReached => |sel| >= caps.total
      case CapPerFamily => CountFamily(sel, FamilyOf(c)) >= caps.perFamily
      case DuplicateEndpoint => Key(c) in Keys(sel)
  }

  ghost predicate AllJustified(s: seq<Candidate>, t: Tally, caps: Caps) {
    forall e :: e in t.excluded ==> Justified(s, t.selected, e, caps)
  }

  lemma JustifiedLater(s: seq<Candidate>, a: seq<Candidate>, b: seq<Candidate>, e: Exclusion, caps: Caps)
    requires a <= b && Justified(s, a, e, caps)
    ensures Justified(s, b, e, caps)
  {
    hide CountFamily, Key;
    var c :| c in s && Id(c) == e.id &&
      match e.reason
      case MaxProfilesReached => |a| >= caps.total
      case CapPerFamily => CountFamily(a, FamilyOf(c)) >= caps.perFamily
      case DuplicateEndpoint => Key(c) in Keys(a);
    assert b[..|a|] == a;
    CountPrefix(b, |a|, FamilyOf(c));
    assert forall x :: x in a ==> x in b;
  }

  lemma SelectOneJustified(s: seq<Candidate>, t: Tally, c: Candidate, caps: Caps)
    requires AllJustified(s, t, caps) && c in s
    ensures AllJustified(s, SelectOne(t, c, caps), caps)
  {
    hide CountFamily, Keys;
    var u := SelectOne(t, c, caps);
    assert t.selected <= u.selected;
    forall e | e in u.excluded ensures Justified(s, u.selected, e, caps) {
      if e in t.excluded {
        JustifiedLater(s, t.selected, u.selected, e, caps);
      } else {
        assert Id(c) == e.id;
      }
    }
  }

  lemma OfferJustified(s: seq<Candidate>, t: Tally, c: Candidate, caps: Caps)
    requires AllJustified(s, t, caps) && c in s
    ensures AllJustified(s, Offer(t, c, caps), caps)
  {
    if |t.selected| < caps.total {
      SelectOneJustified(s, t, c, caps);
    } else {
      hide CountFamily, Keys;
      assert Justified(s, t.selected, Exclusion(Id(c), MaxProfilesReached), caps);
    }
  }

  lemma {:induction false} FirstPassJustified(s: seq<Candidate>, fs: seq<Family>, caps: Caps)
    requires AllGroups(s, fs)
    ensures AllJustified(s, FirstPass(s, fs, caps).tally, caps)
  {
    if fs != [] {
      hide AllJustified, SelectOne, Group;
      var n := |fs| - 1;
      FirstPassJustified(s, fs[..n], caps);
      HeadFamily(s, fs[n]);
      SelectOneJustified(s, FirstPass(s, fs[..n], caps).tally, Group(s, fs[n])[0], caps);
    } else {
      hide Justified;
    }
  }

  lemma {:induction false} SecondPassJustified(s: seq<Candidate>, t: Tally, rest: seq<Candidate>, caps: Caps)
    requires AllJustified(s, t, caps) && forall c :: c in rest ==> c in s
    ensures AllJustified(s, SecondPass(t, rest, caps), caps)
  {
    if rest != [] {
      hide AllJustified, Offer;
      var n := |rest| - 1;
      assert rest[n] in rest;
      SecondPassJustified(s, t, rest[..n], caps);
      OfferJustified(s, SecondPass(t, rest[..n], caps), rest[n], caps);
    }
  }

  /** Every reason given is true of the selection that is reported with it. */
  lemma ReasonsTrue(s: seq<Candidate>, params: Params, e: Exclusion)
    requires e in Select(s, params).excluded
    ensures Justified(s, Select(s, params).included, e, EffectiveCaps(params))
  {
    var caps := EffectiveCaps(params);
    GroupOfOccurring(s);
    FirstPassJustified(s, Families(s), caps);
    RestInInput(s, caps);
    SecondPassJustified(s, Seeded(s, caps).tally, SortedRest(s, caps), caps);
    IncludedIsSelected(s, params);
    hide AllJustified, SecondPass, Seeded;
    JustifiedOne(s, Filled(s, caps), e, caps);
    JustifiedPermutation(s, Filled(s, caps).selected, Select(s, params).included, e, caps);
  }

  lemma JustifiedOne(s: seq<Candidate>, t: Tally, e: Exclusion, caps: Caps)
    requires AllJustified(s, t, caps) && e in t.excluded
    ensures Justified(s, t.selected, e, caps)
  {
  }

  lemma JustifiedPermutation(s: seq<Candidate>, a: seq<Candidate>, b: seq<Candidate>, e: Exclusion, caps: Caps)
    requires Justified(s, a, e, caps) && multiset(a) == multiset(b)
    ensures Justified(s, b, e, caps)
  {
    hide CountFamily, Key;
    SameElements(a, b);
    var c :| c in s && Id(c) == e.id &&
      match e.reason
      case MaxProfilesReached => |a| >= caps.total
      case CapPerFamily => CountFamily(a, FamilyOf(c)) >= caps.perFamily
      case DuplicateEndpoint => Key(c) in Keys(a);
    CountPermutation(a, b, FamilyOf(c));
  }

  lemma OneFamily(a: Candidate, b: Candidate)
    requires FamilyOf(a) == FamilyOf(b)
    ensures Families([a, b]) == [FamilyOf(a)]
  {
    assert [a, b][..1] == [a] && [a][..0] == [];
    assert Occurring([a]) == [FamilyOf(a)];
    assert Occurring([a, b]) == [FamilyOf(a)];
    SortOfSorted(Leq, [FamilyOf(a)]);
  }

  lemma TwoOffers(x: Candidate, y: Candidate, caps: Caps)
    requires FamilyOf(x) == FamilyOf(y) && caps.perFamily == 1 && caps.total > 1
    ensures SecondPass(NOTHING, [x, y], caps) == Tally([x], [Exclusion(Id(y), CapPerFamily)])
  {
    hide Key;
    assert [x, y][..1] == [x] && [x][..0] == [];
    assert SecondPass(NOTHING, [], caps) == NOTHING;
    assert SecondPass(NOTHING, [x], caps) == Offer(NOTHING, x, caps) == Tally([x], []);
    assert CountFamily([x], FamilyOf(y)) == 1;
  }

  /** A candidate that finds both its family full and its endpoint taken is reported for the family. */
  lemma CapBeforeDuplicate(a: Candidate, b: Candidate, params: Params)
    requires FamilyOf(a) == FamilyOf(b) && Key(a) == Key(b) && params.maxPerFamily == 1 && params.maxProfiles > 1
    ensures var r := Select([a, b], params);
            |r.included| == 1 && |r.excluded| == 1 && r.excluded[0].reason == CapPerFamily
            && multiset{Id(r.included[0]), r.excluded[0].id} == multiset{Id(a), Id(b)}
  {
    hide Key, Group, SecondPass;
    var s, caps := [a, b], EffectiveCaps(params);
    OneFamily(a, b);
    assert Seeded(s, caps).tally == NOTHING;
    SeededMultiset(s, caps);
    var rest := SortedRest(s, caps);
    assert NOTHING.selected + rest == rest;
    assert |rest| == |multiset(rest)| == |multiset(s)| == 2;
    assert rest == [rest[0], rest[1]];
    SameElements(rest, s);
    assert rest[0] in rest && rest[1] in rest;
    TwoOffers(rest[0], rest[1], caps);
    IncludedIsSelected(s, params);
    assert multiset{rest[0], rest[1]} == multiset(rest) == multiset(s) == multiset{a, b};
    hide Select, Seeded, SortedRest;
    OfTwo(rest[0], rest[1], a, b);
    assert Select(s, params).included == [rest[0]] by { OnlyElement(Select(s, params).included, rest[0]); }
  }

  lemma OnlyElement(s: seq<Candidate>, c: Candidate)
    requires multiset(s) == multiset{c}
    ensures s == [c]
  {
    assert |s| == |multiset(s)| == 1;
    assert s[0] in multiset(s);
  }

  lemma OfTwo(x: Candidate, y: Candidate, a: Candidate, b: Candidate)
    requires multiset{x, y} == multiset{a, b}
    ensures multiset{Id(x), Id(y)} == multiset{Id(a), Id(b)}
  {
    assert x in multiset{a, b};
    if x == a {
      assert multiset{y} == multiset{x, y} - multiset{x} == multiset{b};
      assert y in multiset{b};
    } else {
      assert multiset{y} == multiset{x, y} - multiset{x} == multiset{a};
      assert y in multiset{a};
    }
  }

  // ---------- caps that are not given ----------

  lemma {:induction false} SameKeys(s: seq<Candidate>)
    requires DistinctKeys(s)
    ensures |Keys(s)| == |s|
  {
    hide Key;
    if s != [] {
      var n := |s| - 1;
      SameKeys(s[..n]);
      assert s == s[..n] + [s[n]];
      assert Keys(s) == Keys(s[..n]) + {Key(s[n])};
    } else {
      assert Keys(s) == {};
    }
  }

  /** Without caps at most twenty are included, and fewer only if every endpoint is. */
  lemma DefaultCaps(s: seq<Candidate>, params: Params)
    requires params.maxProfiles <= 0 && params.maxPerFamily <= 0 && KeysSplitByFamily(s)
    ensures |Select(s, params).included| == Min(20, |Keys(s)|)
  {
    var caps := EffectiveCaps(params);
    var sel := Filled(s, caps).selected;
    IncludedIsSelected(s, params);
    assert |Select(s, params).included| == |sel|;
    FilledFeasible(s, caps);
    SameKeys(sel);
    SubsetSize(Keys(sel), Keys(s));
    hide Select, Filled, Key;
    if |sel| < 20 {
      AllSaturated(s, caps);
      forall k | k in Keys(s) ensures k in Keys(sel) {
        var c :| c in s && Key(c) == k;
        CountBound(sel, FamilyOf(c));
        assert k in FamilyKeys(s, FamilyOf(c));
        assert k in FamilyKeys(sel, FamilyOf(c));
      }
      assert Keys(s) == Keys(sel);
    }
  }

  lemma CountBound(s: seq<Candidate>, f: Family)
    ensures CountFamily(s, f) <= |s|
  {
  }

  lemma AllSaturated(s: seq<Candidate>, caps: Caps)
    requires KeysSplitByFamily(s) && caps.perFamily > 0
    ensures Saturated(s, Filled(s, caps).selected, caps)
  {
    var p, rest := Seeded(s, caps), SortedRest(s, caps);
    PrefixSaturated(s, caps, |rest|);
    assert rest[..|rest|] == rest;
    forall c ensures c in p.tally.selected + rest <==> c in s {
      SeedsAndRest(s, caps, c);
    }
    hide Seeded, SortedRest, SecondPass, KeysSplitByFamily;
    SaturatedSame(p.tally.selected + rest, s, Filled(s, caps).selected, caps);
  }

  lemma SaturatedSame(p: seq<Candidate>, s: seq<Candidate>, sel: seq<Candidate>, caps: Caps)
    requires Saturated(p, sel, caps) && forall c :: c in p <==> c in s
    ensures Saturated(s, sel, caps)
  {
    hide CountFamily, Key, DistinctKeys;
    forall f ensures FamilyKeys(p, f) == FamilyKeys(s, f) {
    }
  }
}
