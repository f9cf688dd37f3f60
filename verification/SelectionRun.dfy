/** SelectForBundle as it runs: the closure's captured variables are the fields of `Selector`, the
    grouping map is filled and shrunk in place, and map iteration picks keys in any order. */
module SelectionRun {
  import opened Text
  import opened Counting
  import opened Sorting
  import opened Profiles
  import opened Selection
  import opened SelectionProofs
  import opened SelectionTheorems

  lemma KeysAppend(s: seq<Candidate>, c: Candidate)
    ensures Keys(s + [c]) == Keys(s) + {Key(c)}
  {
  }

  class Selector {
    const caps: Caps
    var selected: seq<Candidate>
    var excluded: seq<Exclusion>
    var seenEndpoints: set<string>
    var selectedPerFamily: map<Family, nat>

    ghost predicate Valid()
      reads this
    {
      && seenEndpoints == Keys(selected)
      && forall f :: PerFamily(f) == CountFamily(selected, f)
    }

    /** Reading a Go map: missing keys count as 0. */
    function PerFamily(f: Family): nat
      reads this
    {
      if f in selectedPerFamily then selectedPerFamily[f] else 0
    }

    function State(): Tally
      reads this
    {
      Tally(selected, excluded)
    }

    constructor (caps: Caps)
      ensures Valid() && State() == NOTHING && this.caps == caps
    {
      this.caps := caps;
      selected, excluded, seenEndpoints, selectedPerFamily := [], [], {}, map[];
    }

    /** The closure selectOne. */
    method SelectOne(c: Candidate) returns (ok: bool)
      requires Valid()
      modifies this
      ensures Valid()
      ensures State() == Selection.SelectOne(old(State()), c, caps)
      ensures ok == Accepts(old(selected), c, caps)
    {
      hide Keys, CountFamily;
      if PerFamily(FamilyOf(c)) >= caps.perFamily {
        excluded := excluded + [Exclusion(c.profile.id, CapPerFamily)];
        return false;
      }
      var ek := Key(c);
      if ek in seenEndpoints {
        excluded := excluded + [Exclusion(c.profile.id, DuplicateEndpoint)];
        return false;
      }
      forall f ensures CountFamily(selected + [c], f) == CountFamily(selected, f) + if FamilyOf(c) == f then 1 else 0 {
        CountAppend(selected, c, f);
      }
      KeysAppend(selected, c);
      seenEndpoints := seenEndpoints + {ek};
      selectedPerFamily := selectedPerFamily[FamilyOf(c) := PerFamily(FamilyOf(c)) + 1];
      selected := selected + [c];
      return true;
    }
  }

  // ---------- the grouping map ----------

  type Groups = map<Family, seq<Candidate>>

  ghost predicate HasAll(m: Groups, fs: seq<Family>) {
    forall f :: f in fs ==> f in m
  }

  /** What is left in the map, family after family. */
  ghost function Joined(m: Groups, fs: seq<Family>): seq<Candidate>
    requires HasAll(m, fs)
  {
    if fs == [] then [] else Joined(m, fs[..|fs| - 1]) + m[fs[|fs| - 1]]
  }

  lemma {:induction false} JoinedFrame(m: Groups, f: Family, group: seq<Candidate>, fs: seq<Family>)
    requires HasAll(m, fs) && f !in fs
    ensures Joined(m[f := group], fs) == Joined(m, fs)
  {
    if fs != [] {
      JoinedFrame(m, f, group, fs[..|fs| - 1]);
    }
  }

  lemma JoinedNext(m: Groups, fs: seq<Family>, k: nat)
    requires k < |fs| && HasAll(m, fs)
    ensures HasAll(m, fs[..k]) && HasAll(m, fs[..k + 1])
    ensures Joined(m, fs[..k + 1]) == Joined(m, fs[..k]) + m[fs[k]]
  {
    assert fs[..k + 1][..k] == fs[..k];
  }

  lemma {:induction false} JoinedGroups(s: seq<Candidate>, m: Groups, fs: seq<Family>)
    requires HasAll(m, fs) && forall f :: f in fs ==> m[f] == Group(s, f)
    ensures Joined(m, fs) == Collect(s, fs)
  {
    if fs != [] {
      JoinedGroups(s, m, fs[..|fs| - 1]);
    }
  }

  /** The map holds exactly the non-empty groups of `s`, each in input order. */
  ghost predicate Grouped(m: Groups, s: seq<Candidate>) {
    forall f :: (f in m <==> OfFamily(s, f) != []) && (f in m ==> m[f] == OfFamily(s, f))
  }

  lemma GroupedNext(m: Groups, s: seq<Candidate>, c: Candidate)
    requires Grouped(m, s)
    ensures Grouped(m[FamilyOf(c) := (if FamilyOf(c) in m then m[FamilyOf(c)] else []) + [c]], s + [c])
  {
    assert (s + [c])[..|s|] == s;
    forall f ensures OfFamily(s + [c], f) == OfFamily(s, f) + if FamilyOf(c) == f then [c] else [] {
    }
  }

  lemma OccursIff(s: seq<Candidate>, f: Family)
    ensures OfFamily(s, f) != [] <==> f in Families(s)
    ensures f in Families(s) <==> f in Occurring(s)
  {
    FamiliesDistinct(s);
    if OfFamily(s, f) != [] {
      assert OfFamily(s, f)[0] in OfFamily(s, f);
    }
    if f in Families(s) {
      var c :| c in s && FamilyOf(c) == f;
      assert c in OfFamily(s, f);
    }
  }

  method GroupByFamily(candidates: seq<Candidate>) returns (byFamily: Groups)
    ensures Grouped(byFamily, candidates)
  {
    byFamily := map[];
    for i := 0 to |candidates|
      invariant Grouped(byFamily, candidates[..i])
    {
      hide Grouped;
      var c := candidates[i];
      var fam := FamilyOf(c);
      GroupedNext(byFamily, candidates[..i], c);
      assert candidates[..i + 1] == candidates[..i] + [c];
      byFamily := byFamily[fam := (if fam in byFamily then byFamily[fam] else []) + [c]];
    }
    assert candidates[..|candidates|] == candidates;
  }

  /** Every group sorted; the keys come in any order. */
  method SortGroups(groups: Groups) returns (byFamily: Groups)
    ensures byFamily.Keys == groups.Keys
    ensures forall f :: f in groups ==> byFamily[f] == StableSort(Before, groups[f])
  {
    hide StableSort;
    byFamily := groups;
    var unsorted := groups.Keys;
    while unsorted != {}
      invariant unsorted <= groups.Keys == byFamily.Keys
      invariant forall f :: f in groups ==> byFamily[f] == if f in unsorted then groups[f] else StableSort(Before, groups[f])
    {
      var fam :| fam in unsorted;
      byFamily := byFamily[fam := StableSort(Before, byFamily[fam])];
      unsorted := unsorted - {fam};
    }
  }

  method SortedFamilies(byFamily: Groups, ghost candidates: seq<Candidate>) returns (families: seq<Family>)
    requires forall f :: f in byFamily <==> OfFamily(candidates, f) != []
    ensures families == Families(candidates)
  {
    families := [];
    var pending := byFamily.Keys;
    while pending != {}
      invariant pending <= byFamily.Keys && Distinct(families)
      invariant forall f :: f in families <==> f in byFamily && f !in pending
    {
      var fam :| fam in pending;
      families := families + [fam];
      pending := pending - {fam};
    }
    forall f ensures f in families <==> f in Occurring(candidates) {
      OccursIff(candidates, f);
    }
    AnyFamilyOrder(families, Occurring(candidates));
    families := StableSort(Leq, families);
  }

  // ---------- the seeding loop ----------

  /** State of the seeding loop after `k` families. */
  ghost predicate SeedingAt(s: seq<Candidate>, fs: seq<Family>, k: nat, m: Groups, t: Tally, caps: Caps)
    requires k <= |fs| && AllGroups(s, fs)
  {
    && HasAll(m, fs)
    && t == FirstPass(s, fs[..k], caps).tally
    && Joined(m, fs[..k]) == FirstPass(s, fs[..k], caps).rest
    && forall j :: k <= j < |fs| ==> m[fs[j]] == Group(s, fs[j])
  }

  lemma SeedingNext(s: seq<Candidate>, fs: seq<Family>, k: nat, m: Groups, t: Tally, caps: Caps)
    requires k < |fs| && AllGroups(s, fs) && Distinct(fs)
    requires SeedingAt(s, fs, k, m, t, caps) && |t.selected| < caps.total
    ensures Group(s, fs[k]) != [] && fs[k] in m && m[fs[k]] == Group(s, fs[k])
    ensures var head := Group(s, fs[k])[0];
            var m' := if Accepts(t.selected, head, caps) then m[fs[k] := m[fs[k]][1..]] else m;
            SeedingAt(s, fs, k + 1, m', SelectOne(t, head, caps), caps)
  {
    FirstPassStep(s, fs, k, caps);
    hide Group, FirstPass, Accepts, SelectOne;
    var head := Group(s, fs[k])[0];
    var m' := if Accepts(t.selected, head, caps) then m[fs[k] := m[fs[k]][1..]] else m;
    assert fs[k] !in fs[..k];
    JoinedFrame(m, fs[k], m[fs[k]][1..], fs[..k]);
    assert HasAll(m', fs);
    JoinedNext(m', fs, k);
  }

  lemma SeedingSkip(s: seq<Candidate>, fs: seq<Family>, k: nat, m: Groups, t: Tally, caps: Caps)
    requires k < |fs| && AllGroups(s, fs)
    requires SeedingAt(s, fs, k, m, t, caps) && |t.selected| >= caps.total
    ensures SeedingAt(s, fs, k + 1, m, t, caps)
  {
    FirstPassStep(s, fs, k, caps);
    hide Group, FirstPass, Accepts, SelectOne;
    JoinedNext(m, fs, k);
  }

  /** Once the total cap is reached the remaining families are left untouched. */
  lemma {:induction false} SeedingStopped(s: seq<Candidate>, fs: seq<Family>, k: nat, n: nat, m: Groups, t: Tally, caps: Caps)
    requires k <= n <= |fs| && AllGroups(s, fs)
    requires SeedingAt(s, fs, k, m, t, caps) && |t.selected| >= caps.total
    ensures SeedingAt(s, fs, n, m, t, caps)
  {
    hide SeedingAt;
    if k < n {
      SeedingStopped(s, fs, k, n - 1, m, t, caps);
      SeedingSkip(s, fs, n - 1, m, t, caps);
    }
  }

  method Seed(s: Selector, candidates: seq<Candidate>, families: seq<Family>, groups: Groups) returns (byFamily: Groups)
    requires s.Valid() && s.State() == NOTHING
    requires AllGroups(candidates, families) && Distinct(families)
    requires HasAll(groups, families) && forall f :: f in families ==> groups[f] == Group(candidates, f)
    modifies s
    ensures s.Valid() && HasAll(byFamily, families)
    ensures Pass(s.State(), Joined(byFamily, families)) == FirstPass(candidates, families, s.caps)
  {
    hide Group, FirstPass, Accepts;
    byFamily := groups;
    SeedingStart(candidates, families, groups, s.caps);
    var k := 0;
    while k < |families|
      invariant k <= |families| && s.Valid()
      invariant SeedingAt(candidates, families, k, byFamily, s.State(), s.caps)
    {
      hide SeedingAt;
      var fam := families[k];
      if |s.selected| >= s.caps.total {
        SeedingStopped(candidates, families, k, |families|, byFamily, s.State(), s.caps);
        break;
      }
      SeedingNext(candidates, families, k, byFamily, s.State(), s.caps);
      var ok := s.SelectOne(byFamily[fam][0]);
      if ok {
        byFamily := byFamily[fam := byFamily[fam][1..]];
      }
      k := k + 1;
    }
    assert SeedingAt(candidates, families, |families|, byFamily, s.State(), s.caps);
    assert families[..|families|] == families;
  }

  lemma SeedingStart(s: seq<Candidate>, fs: seq<Family>, m: Groups, caps: Caps)
    requires AllGroups(s, fs) && HasAll(m, fs) && forall f :: f in fs ==> m[f] == Group(s, f)
    ensures SeedingAt(s, fs, 0, m, NOTHING, caps)
  {
    hide Group;
    assert fs[..0] == [];
  }

  // ---------- the whole selection ----------

  method JoinGroups(families: seq<Family>, byFamily: Groups) returns (rest: seq<Candidate>)
    requires HasAll(byFamily, families)
    ensures rest == Joined(byFamily, families)
  {
    rest := [];
    for k := 0 to |families|
      invariant rest == Joined(byFamily, families[..k])
    {
      JoinedNext(byFamily, families, k);
      rest := rest + byFamily[families[k]];
    }
    assert families[..|families|] == families;
  }

  /** The filling loop. */
  method Fill(s: Selector, rest: seq<Candidate>)
    requires s.Valid()
    modifies s
    ensures s.Valid() && s.State() == SecondPass(old(s.State()), rest, s.caps)
  {
    hide Keys, CountFamily;
    for k := 0 to |rest|
      invariant s.Valid() && s.State() == SecondPass(old(s.State()), rest[..k], s.caps)
    {
      assert rest[..k + 1][..k] == rest[..k];
      var c := rest[k];
      if |s.selected| >= s.caps.total {
        s.excluded := s.excluded + [Exclusion(c.profile.id, MaxProfilesReached)];
      } else {
        var _ := s.SelectOne(c);
      }
    }
    assert rest[..|rest|] == rest;
  }

  lemma GroupsAreThere(s: seq<Candidate>, m: Groups, m': Groups)
    requires Grouped(m, s) && m'.Keys == m.Keys
    requires forall f :: f in m ==> m'[f] == StableSort(Before, m[f])
    ensures HasAll(m', Families(s)) && forall f :: f in Families(s) ==> m'[f] == Group(s, f)
  {
    hide StableSort, Families, OfFamily;
    forall f | f in Families(s) ensures f in m {
      OccursIff(s, f);
    }
  }

  method SelectForBundle(candidates: seq<Candidate>, params: Params) returns (r: SelectionResult)
    ensures r == Select(candidates, params)
  {
    hide Group, Families, StableSort, CountFamily, Keys, OfFamily, Joined;
    var s := new Selector(EffectiveCaps(params));
    var groups := GroupByFamily(candidates);
    var byFamily := SortGroups(groups);
    var families := SortedFamilies(byFamily, candidates);
    FamiliesDistinct(candidates);
    GroupOfOccurring(candidates);
    GroupsAreThere(candidates, groups, byFamily);
    JoinedGroups(candidates, byFamily, families);
    if s.caps.total > 1 && |families| > 1 {
      byFamily := Seed(s, candidates, families, byFamily);
    }
    var rest := JoinGroups(families, byFamily);
    assert Pass(s.State(), rest) == Seeded(candidates, s.caps);
    rest := StableSort(Before, rest);
    Fill(s, rest);
    s.selected := StableSort(IdBefore, s.selected);
    return SelectionResult(params.nowUnix, s.selected, s.excluded);
  }
}
