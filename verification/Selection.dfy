/** Bundle selection (pkg/outsidectl/candidates.go, SelectForBundle) as a function: group by
    family, seed one candidate per family, then take the best of the rest as long as the caps allow
    it.  Scores are sums of integers in the source, so `int` is exact. */
module Selection {
  import opened Text
  import opened Counting
  import opened Sorting
  import opened Profiles

  datatype Candidate = Candidate(profile: Profile, score: int)

  datatype Reason = CapPerFamily | DuplicateEndpoint | MaxProfilesReached
  datatype Exclusion = Exclusion(id: string, reason: Reason)

  datatype Params = Params(maxProfiles: int, maxPerFamily: int, nowUnix: int)
  datatype Caps = Caps(total: nat, perFamily: nat)

  /** What has been decided so far. */
  datatype Tally = Tally(selected: seq<Candidate>, excluded: seq<Exclusion>)

  /** A tally and the candidates still to be considered. */
  datatype Pass = Pass(tally: Tally, rest: seq<Candidate>)

  datatype SelectionResult = SelectionResult(createdAtUnix: int, included: seq<Candidate>, excluded: seq<Exclusion>)

  const NOTHING := Tally([], [])

  function Key(c: Candidate): string {
    EndpointKey(c.profile)
  }

  function FamilyOf(c: Candidate): Family {
    c.profile.family
  }

  /** The defaults for caps that are not positive. */
  function EffectiveCaps(params: Params): (caps: Caps)
    ensures caps.total > 0 && caps.perFamily > 0
  {
    var total := if params.maxProfiles <= 0 then 20 else params.maxProfiles;
    Caps(total, if params.maxPerFamily <= 0 then total else params.maxPerFamily)
  }

  /** Higher scores first, then smaller IDs. */
  predicate Before(a: Candidate, b: Candidate) {
    a.score > b.score || (a.score == b.score && Leq(a.profile.id, b.profile.id))
  }

  predicate IdBefore(a: Candidate, b: Candidate) {
    Leq(a.profile.id, b.profile.id)
  }

  function CountFamily(s: seq<Candidate>, f: Family): (n: nat)
    ensures n <= |s|
  {
    if s == [] then 0
    else CountFamily(s[..|s| - 1], f) + if FamilyOf(s[|s| - 1]) == f then 1 else 0
  }

  function Keys(s: seq<Candidate>): set<string> {
    set c | c in s :: Key(c)
  }

  predicate Accepts(selected: seq<Candidate>, c: Candidate, caps: Caps) {
    CountFamily(selected, FamilyOf(c)) < caps.perFamily && Key(c) !in Keys(selected)
  }

  /** The closure selectOne. */
  function SelectOne(t: Tally, c: Candidate, caps: Caps): Tally {
    if CountFamily(t.selected, FamilyOf(c)) >= caps.perFamily then
      t.(excluded := t.excluded + [Exclusion(c.profile.id, CapPerFamily)])
    else if Key(c) in Keys(t.selected) then
      t.(excluded := t.excluded + [Exclusion(c.profile.id, DuplicateEndpoint)])
    else
      t.(selected := t.selected + [c])
  }

  // ---------- groups ----------

  function OfFamily(s: seq<Candidate>, f: Family): (r: seq<Candidate>)
    ensures forall c :: c in r <==> c in s && FamilyOf(c) == f
  {
    if s == [] then []
    else OfFamily(s[..|s| - 1], f) + if FamilyOf(s[|s| - 1]) == f then [s[|s| - 1]] else []
  }

  function Group(s: seq<Candidate>, f: Family): seq<Candidate> {
    StableSort(Before, OfFamily(s, f))
  }

  /** The families that occur, in order of first occurrence. */
  function Occurring(s: seq<Candidate>): (fs: seq<Family>)
    ensures forall f :: f in fs <==> exists c :: c in s && FamilyOf(c) == f
    ensures forall i, j :: 0 <= i < j < |fs| ==> fs[i] != fs[j]
  {
    if s == [] then []
    else
      var fs := Occurring(s[..|s| - 1]);
      var c := s[|s| - 1];
      assert s == s[..|s| - 1] + [c];
      if FamilyOf(c) in fs then fs else fs + [FamilyOf(c)]
  }

  function Families(s: seq<Candidate>): seq<Family> {
    StableSort(Leq, Occurring(s))
  }

  // ---------- the two passes ----------

  /** One round of the seeding loop: try the best candidate of a family. */
  function Visit(p: Pass, group: seq<Candidate>, caps: Caps): Pass
    requires group != []
  {
    if |p.tally.selected| >= caps.total then
      p.(rest := p.rest + group)
    else
      var t := SelectOne(p.tally, group[0], caps);
      Pass(t, p.rest + if Accepts(p.tally.selected, group[0], caps) then group[1..] else group)
  }

  function FirstPass(s: seq<Candidate>, fs: seq<Family>, caps: Caps): Pass
    requires forall f :: f in fs ==> Group(s, f) != []
  {
    if fs == [] then Pass(NOTHING, [])
    else Visit(FirstPass(s, fs[..|fs| - 1], caps), Group(s, fs[|fs| - 1]), caps)
  }

  function Collect(s: seq<Candidate>, fs: seq<Family>): seq<Candidate> {
    if fs == [] then [] else Collect(s, fs[..|fs| - 1]) + Group(s, fs[|fs| - 1])
  }

  lemma GroupOfOccurring(s: seq<Candidate>)
    ensures forall f :: f in Families(s) ==> Group(s, f) != []
  {
    forall f | f in Families(s) ensures Group(s, f) != [] {
      SortMultiset(Leq, Occurring(s));
      SameElements(Families(s), Occurring(s));
      var c :| c in s && FamilyOf(c) == f;
      assert c in OfFamily(s, f);
    }
  }

  function Seeded(s: seq<Candidate>, caps: Caps): Pass {
    var fs := Families(s);
    GroupOfOccurring(s);
    if caps.total > 1 && |fs| > 1 then FirstPass(s, fs, caps) else Pass(NOTHING, Collect(s, fs))
  }

  /** One round of the filling loop. */
  function Offer(t: Tally, c: Candidate, caps: Caps): Tally {
    if |t.selected| >= caps.total then
      t.(excluded := t.excluded + [Exclusion(c.profile.id, MaxProfilesReached)])
    else
      SelectOne(t, c, caps)
  }

  function SecondPass(t: Tally, rest: seq<Candidate>, caps: Caps): Tally {
    if rest == [] then t else Offer(SecondPass(t, rest[..|rest| - 1], caps), rest[|rest| - 1], caps)
  }

  function SortedRest(s: seq<Candidate>, caps: Caps): seq<Candidate> {
    StableSort(Before, Seeded(s, caps).rest)
  }

  /** The outcome of both passes, in the order the candidates were selected. */
  function Filled(s: seq<Candidate>, caps: Caps): Tally {
    SecondPass(Seeded(s, caps).tally, SortedRest(s, caps), caps)
  }

  function Select(s: seq<Candidate>, params: Params): SelectionResult {
    var t := Filled(s, EffectiveCaps(params));
    SelectionResult(params.nowUnix, StableSort(IdBefore, t.selected), t.excluded)
  }

  // ---------- orders ----------

  lemma BeforeOrder()
    ensures TotalPreorder(Before)
  {
    forall a, b ensures Before(a, b) || Before(b, a) {
      LeqTotal(a.profile.id, b.profile.id);
    }
    forall a, b, c | Before(a, b) && Before(b, c) ensures Before(a, c) {
      if a.score == b.score == c.score {
        LeqTransitive(a.profile.id, b.profile.id, c.profile.id);
      }
    }
  }

  /** The sorted family list holds every family once. */
  lemma FamiliesDistinct(s: seq<Candidate>)
    ensures forall f :: f in Families(s) <==> exists c :: c in s && FamilyOf(c) == f
    ensures forall i, j :: 0 <= i < j < |Families(s)| ==> Families(s)[i] != Families(s)[j]
  {
    SortMultiset(Leq, Occurring(s));
    SameElements(Families(s), Occurring(s));
    DistinctMultiset(Occurring(s));
    MultisetDistinct(Families(s));
  }
}
