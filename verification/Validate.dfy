/** From raw profiles to scored candidates (pkg/outsidectl/candidates.go, ValidateNormalizeAndScore),
    and what that makes of the conditions bundle selection depends on. */
module Validate {
  import opened Sorting
  import opened Folds
  import opened Profiles
  import opened Normalize
  import opened NormalizeProofs
  import opened Selection
  import opened SelectionProofs
  import opened SelectionTheorems

  datatype Rejection = Malformed(id: string, problem: Problem) | DuplicateId(id: string)

  datatype Validated = Validated(candidates: seq<Candidate>, rejected: seq<Rejection>)

  const WEEK := 604800
  const MONTH := 2592000
  const TWO_DAYS := 172800

  function ScoreCandidate(p: Profile, now: int): int {
    var age := if now - p.createdAt < 0 then 0 else now - p.createdAt;
    p.source.trustLevel + p.priority * 10
    + (if age < WEEK then 15 else if age < MONTH then 5 else 0)
    - (if p.expiresAt != 0 && p.expiresAt - now < TWO_DAYS then 20 else 0)
  }

  /** One round of the validation loop. */
  function Examine(v: Validated, p: Profile, now: int): Validated {
    match Normal(p, now)
    case Refused(problem) => v.(rejected := v.rejected + [Malformed(p.id, problem)])
    case Normalized(q) =>
      if exists c :: c in v.candidates && Id(c) == q.id then v.(rejected := v.rejected + [DuplicateId(q.id)])
      else v.(candidates := v.candidates + [Candidate(q, ScoreCandidate(q, now))])
  }

  function ExamineAll(ps: seq<Profile>, now: int): Validated {
    if ps == [] then Validated([], []) else Examine(ExamineAll(ps[..|ps| - 1], now), ps[|ps| - 1], now)
  }

  function Validation(ps: seq<Profile>, now: int): Validated {
    var v := ExamineAll(ps, now);
    v.(candidates := StableSort(Before, v.candidates))
  }

  ghost function IdSet(s: seq<Candidate>): set<string> {
    set c | c in s :: Id(c)
  }

  lemma IdSetSnoc(s: seq<Candidate>, c: Candidate)
    ensures IdSet(s + [c]) == IdSet(s) + {Id(c)}
  {
  }

  method ValidateNormalizeAndScore(ps: seq<Profile>, now: int) returns (v: Validated)
    ensures v == Validation(ps, now)
  {
    hide Normal, Before, ScoreCandidate;
    var seenIDs: set<string> := {};
    var out: seq<Candidate>, excluded: seq<Rejection> := [], [];
    for i := 0 to |ps|
      invariant Validated(out, excluded) == ExamineAll(ps[..i], now)
      invariant seenIDs == IdSet(out)
    {
      assert ps[..i + 1][..i] == ps[..i];
      var r := NormalizeForWire(ps[i], now);
      if r.Refused? {
        excluded := excluded + [Malformed(ps[i].id, r.problem)];
        continue;
      }
      var cp := r.profile;
      if cp.id in seenIDs {
        excluded := excluded + [DuplicateId(cp.id)];
        continue;
      }
      assert !exists c :: c in out && Id(c) == cp.id;
      IdSetSnoc(out, Candidate(cp, ScoreCandidate(cp, now)));
      seenIDs := seenIDs + {cp.id};
      out := out + [Candidate(cp, ScoreCandidate(cp, now))];
    }
    assert ps[..|ps|] == ps;
    return Validated(StableSort(Before, out), excluded);
  }

  // ---------- guarantees ----------

  /** A candidate that came through validation. */
  ghost predicate Sound(c: Candidate, now: int) {
    && SupportedFamily(FamilyOf(c)) && '|' !in FamilyOf(c)
    && c.score == ScoreCandidate(c.profile, now)
    && -1019 <= c.score <= 1115
  }

  lemma ScoreRange(p: Profile, now: int)
    requires 0 < p.source.trustLevel <= 100 && -100 <= p.priority <= 100
    ensures -1019 <= ScoreCandidate(p, now) <= 1115
  {
  }

  ghost predicate AllSound(s: seq<Candidate>, now: int) {
    DistinctIds(s) && forall c :: c in s ==> Sound(c, now)
  }

  lemma SoundCandidate(p: Profile, now: int)
    requires Normal(p, now).Normalized?
    ensures var q := Normal(p, now).profile;
            Sound(Candidate(q, ScoreCandidate(q, now)), now)
  {
    AcceptedProfile(p, now);
    hide Normal, SupportedFamily, IdPattern, AllTagsValid;
    ScoreRange(Normal(p, now).profile, now);
  }

  lemma AllSoundSnoc(s: seq<Candidate>, c: Candidate, now: int)
    requires AllSound(s, now) && Sound(c, now) && !exists d :: d in s && Id(d) == Id(c)
    ensures AllSound(s + [c], now)
  {
    hide Sound;
  }

  lemma ExamineSound(v: Validated, p: Profile, now: int)
    requires AllSound(v.candidates, now)
    ensures AllSound(Examine(v, p, now).candidates, now)
    ensures |Examine(v, p, now).candidates| + |Examine(v, p, now).rejected| == |v.candidates| + |v.rejected| + 1
  {
    hide AllSound, Sound, ScoreCandidate, Normal;
    if Normal(p, now).Normalized? {
      var q := Normal(p, now).profile;
      SoundCandidate(p, now);
      if !exists d :: d in v.candidates && Id(d) == q.id {
        AllSoundSnoc(v.candidates, Candidate(q, ScoreCandidate(q, now)), now);
      }
    }
  }

  lemma {:induction false} ExamineAllSound(ps: seq<Profile>, now: int)
    ensures AllSound(ExamineAll(ps, now).candidates, now)
    ensures |ExamineAll(ps, now).candidates| + |ExamineAll(ps, now).rejected| == |ps|
  {
    if ps == [] {
      assert AllSound([], now);
    } else {
      hide AllSound, Examine;
      ExamineAllSound(ps[..|ps| - 1], now);
      ExamineSound(ExamineAll(ps[..|ps| - 1], now), ps[|ps| - 1], now);
    }
  }

  lemma SoundPermutation(s: seq<Candidate>, t: seq<Candidate>, now: int)
    requires AllSound(s, now) && multiset(s) == multiset(t)
    ensures AllSound(t, now) && KeysSplitByFamily(t)
  {
    SameElements(s, t);
    hide Key;
    SeparatorFreeFamilies(t);
  }

  /** Whatever profiles go in, the candidates that come out have pairwise different IDs, families
      that their endpoint keys tell apart, and the documented order; nobody is lost. */
  lemma ValidationSound(ps: seq<Profile>, now: int)
    ensures var v := Validation(ps, now);
            && AllSound(v.candidates, now) && KeysSplitByFamily(v.candidates)
            && Sorted(Before, v.candidates)
            && |v.candidates| + |v.rejected| == |ps|
  {
    hide AllSound, KeysSplitByFamily, Sorted, ExamineAll;
    var w := ExamineAll(ps, now);
    ExamineAllSound(ps, now);
    BeforeOrder();
    SortSorted(Before, w.candidates);
    SortMultiset(Before, w.candidates);
    SoundPermutation(w.candidates, StableSort(Before, w.candidates), now);
  }

  // ---------- who is reported where ----------

  /** The ID under which a profile is reported: its canonical ID, or its own if it is malformed. */
  function ReportedId(p: Profile, now: int): string {
    match Normal(p, now)
    case Normalized(q) => q.id
    case Refused(_) => p.id
  }

  function Reporter(now: int): Profile -> string {
    p => ReportedId(p, now)
  }

  function RejectedId(r: Rejection): string {
    r.id
  }

  /** The report of `v`: the IDs of its candidates and of its rejections together. */
  ghost function Reported(v: Validated): multiset<string> {
    Bag(Id, v.candidates) + Bag(RejectedId, v.rejected)
  }

  lemma ExamineReports(v: Validated, p: Profile, now: int)
    ensures Reported(Examine(v, p, now)) == Reported(v) + multiset{ReportedId(p, now)}
  {
    hide Normal, Bag, ScoreCandidate;
    match Normal(p, now) {
      case Refused(problem) => BagSnoc(RejectedId, v.rejected, Malformed(p.id, problem));
      case Normalized(q) =>
        BagSnoc(RejectedId, v.rejected, DuplicateId(q.id));
        BagSnoc(Id, v.candidates, Candidate(q, ScoreCandidate(q, now)));
    }
  }

  lemma NothingReported(now: int)
    ensures Reported(ExamineAll([], now)) == Bag(Reporter(now), [])
  {
  }

  lemma ReportStep(front: seq<Profile>, p: Profile, now: int)
    requires Reported(ExamineAll(front, now)) == Bag(Reporter(now), front)
    ensures Reported(Examine(ExamineAll(front, now), p, now)) == Bag(Reporter(now), front + [p])
  {
    hide Examine, ExamineAll, Bag, ReportedId;
    ExamineReports(ExamineAll(front, now), p, now);
    BagSnoc(Reporter(now), front, p);
    assert Reporter(now)(p) == ReportedId(p, now);
  }

  lemma {:induction false} ExamineAllReports(ps: seq<Profile>, now: int)
    ensures Reported(ExamineAll(ps, now)) == Bag(Reporter(now), ps)
  {
    hide Examine, Reported, Bag;
    if ps == [] {
      NothingReported(now);
    } else {
      var front, p := ps[..|ps| - 1], ps[|ps| - 1];
      ExamineAllReports(front, now);
      ReportStep(front, p, now);
      assert ps == front + [p];
    }
  }

  predicate HasId(p: Profile, id: string, now: int) {
    Normal(p, now).Normalized? && Normal(p, now).profile.id == id
  }

  /** The profile at `i` normalises, and no profile before it normalises to the same ID. */
  predicate FirstOfId(ps: seq<Profile>, i: int, now: int) {
    && 0 <= i < |ps| && HasId(ps[i], ReportedId(ps[i], now), now)
    && forall j :: 0 <= j < i ==> !HasId(ps[j], ReportedId(ps[i], now), now)
  }

  function Made(p: Profile, now: int): Candidate {
    match Normal(p, now)
    case Normalized(q) => Candidate(q, ScoreCandidate(q, now))
    case Refused(_) => Candidate(p, 0)
  }

  ghost predicate Taken(ps: seq<Profile>, now: int, c: Candidate) {
    exists i :: 0 <= i < |ps| && FirstOfId(ps, i, now) && c == Made(ps[i], now)
  }

  lemma FirstSnoc(front: seq<Profile>, p: Profile, now: int)
    ensures forall i :: 0 <= i < |front| ==> (FirstOfId(front + [p], i, now) <==> FirstOfId(front, i, now))
  {
    hide HasId, ReportedId;
    assert forall i :: 0 <= i < |front| ==> (front + [p])[i] == front[i];
  }

  lemma TakenSnoc(front: seq<Profile>, p: Profile, now: int, c: Candidate)
    ensures Taken(front + [p], now, c) <==>
            Taken(front, now, c) || (FirstOfId(front + [p], |front|, now) && c == Made(p, now))
  {
    hide FirstOfId, Made;
    var ps := front + [p];
    FirstSnoc(front, p, now);
    if Taken(ps, now, c) {
      var i :| 0 <= i < |ps| && FirstOfId(ps, i, now) && c == Made(ps[i], now);
      if i < |front| {
        assert FirstOfId(front, i, now) && ps[i] == front[i];
      }
    }
    if Taken(front, now, c) {
      var i :| 0 <= i < |front| && FirstOfId(front, i, now) && c == Made(front[i], now);
      assert FirstOfId(ps, i, now) && ps[i] == front[i];
    }
    assert ps[|front|] == p;
  }

  lemma EarliestOfId(ps: seq<Profile>, j: nat, id: string, now: int) returns (i: nat)
    requires j < |ps| && HasId(ps[j], id, now)
    ensures i < |ps| && FirstOfId(ps, i, now) && Made(ps[i], now).profile.id == id
  {
    hide Normal, ScoreCandidate;
    if FirstOfId(ps, j, now) {
      i := j;
    } else {
      var k :| 0 <= k < j && HasId(ps[k], id, now);
      i := EarliestOfId(ps, k, id, now);
    }
  }

  /** A new profile is a candidate exactly if its ID is not among the candidates yet. */
  lemma NewIdIff(front: seq<Profile>, p: Profile, now: int, candidates: seq<Candidate>)
    requires forall c :: c in candidates <==> Taken(front, now, c)
    requires Normal(p, now).Normalized?
    ensures FirstOfId(front + [p], |front|, now) <==>
            !exists c :: c in candidates && Id(c) == Normal(p, now).profile.id
  {
    hide Normal, ScoreCandidate;
    var ps, id := front + [p], Normal(p, now).profile.id;
    assert ps[|front|] == p && forall i :: 0 <= i < |front| ==> ps[i] == front[i];
    if c :| c in candidates && Id(c) == id {
      var i :| 0 <= i < |front| && FirstOfId(front, i, now) && c == Made(front[i], now);
      assert HasId(ps[i], id, now);
    }
    if j :| 0 <= j < |front| && HasId(front[j], id, now) {
      var i := EarliestOfId(front, j, id, now);
      assert Taken(front, now, Made(front[i], now));
      assert Made(front[i], now) in candidates;
    }
  }

  lemma ExamineCandidates(v: Validated, p: Profile, now: int)
    ensures Examine(v, p, now).candidates ==
            if Normal(p, now).Normalized? && !exists c :: c in v.candidates && Id(c) == Normal(p, now).profile.id
            then v.candidates + [Made(p, now)] else v.candidates
  {
    hide Normal, ScoreCandidate;
  }

  lemma MalformedNotFirst(front: seq<Profile>, p: Profile, now: int)
    requires Normal(p, now).Refused?
    ensures !FirstOfId(front + [p], |front|, now)
  {
    hide Normal;
    assert (front + [p])[|front|] == p;
  }

  lemma ExamineTakes(front: seq<Profile>, p: Profile, now: int, v: Validated, c: Candidate)
    requires forall d :: d in v.candidates <==> Taken(front, now, d)
    ensures c in Examine(v, p, now).candidates <==> Taken(front + [p], now, c)
  {
    hide *;
    TakenSnoc(front, p, now, c);
    ExamineCandidates(v, p, now);
    if Normal(p, now).Normalized? {
      NewIdIff(front, p, now, v.candidates);
    } else {
      MalformedNotFirst(front, p, now);
    }
  }

  lemma {:induction false} ExamineAllTakes(ps: seq<Profile>, now: int)
    ensures forall c :: c in ExamineAll(ps, now).candidates <==> Taken(ps, now, c)
  {
    if ps == [] {
      hide HasId, Made;
    } else {
      hide Examine, Taken;
      var front, p := ps[..|ps| - 1], ps[|ps| - 1];
      assert ps == front + [p];
      ExamineAllTakes(front, now);
      forall c ensures c in ExamineAll(ps, now).candidates <==> Taken(ps, now, c) {
        ExamineTakes(front, p, now, ExamineAll(front, now), c);
      }
    }
  }

  /** Who is where: every input is reported once, under the ID it is known by, and the candidates are
      exactly the scored canonical profiles that are the first of their ID. */
  lemma ValidationExact(ps: seq<Profile>, now: int)
    ensures var v := Validation(ps, now);
            && Reported(v) == Bag(Reporter(now), ps)
            && forall c :: c in v.candidates <==> Taken(ps, now, c)
  {
    var w := ExamineAll(ps, now);
    ExamineAllReports(ps, now);
    ExamineAllTakes(ps, now);
    SortMultiset(Before, w.candidates);
    hide ExamineAll, Taken, Bag, StableSort;
    BagPermutation(Id, StableSort(Before, w.candidates), w.candidates);
    SameElements(StableSort(Before, w.candidates), w.candidates);
  }

  // ---------- what a rejection says ----------

  /** A malformed profile with this problem, or two profiles of this ID. */
  ghost predicate TrueOfInput(ps: seq<Profile>, now: int, r: Rejection) {
    match r
    case Malformed(id, problem) => exists i :: 0 <= i < |ps| && ps[i].id == id && Normal(ps[i], now) == Refused(problem)
    case DuplicateId(id) => exists i, j :: 0 <= i < j < |ps| && HasId(ps[i], id, now) && HasId(ps[j], id, now)
  }

  lemma TrueLater(front: seq<Profile>, p: Profile, now: int, r: Rejection)
    requires TrueOfInput(front, now, r)
    ensures TrueOfInput(front + [p], now, r)
  {
    hide Normal, HasId;
    var ps := front + [p];
    assert forall i :: 0 <= i < |front| ==> ps[i] == front[i];
    match r {
      case Malformed(id, problem) =>
        var i :| 0 <= i < |front| && front[i].id == id && Normal(front[i], now) == Refused(problem);
        assert ps[i].id == id && Normal(ps[i], now) == Refused(problem);
      case DuplicateId(id) =>
        var i, j :| 0 <= i < j < |front| && HasId(front[i], id, now) && HasId(front[j], id, now);
        assert HasId(ps[i], id, now) && HasId(ps[j], id, now);
    }
  }

  lemma NewRejectionTrue(front: seq<Profile>, p: Profile, now: int, v: Validated, r: Rejection)
    requires v == ExamineAll(front, now) && r in Examine(v, p, now).rejected && r !in v.rejected
    ensures TrueOfInput(front + [p], now, r)
  {
    hide Normal, ScoreCandidate, ExamineAll;
    var ps := front + [p];
    assert ps[|front|] == p && forall i :: 0 <= i < |front| ==> ps[i] == front[i];
    if Normal(p, now).Normalized? {
      var id := Normal(p, now).profile.id;
      var c :| c in v.candidates && Id(c) == id;
      ExamineAllTakes(front, now);
      var i :| 0 <= i < |front| && FirstOfId(front, i, now) && c == Made(front[i], now);
      assert HasId(ps[i], id, now) && HasId(ps[|front|], id, now);
    }
  }

  lemma {:induction false} ExamineRejectsTruly(ps: seq<Profile>, now: int, r: Rejection)
    requires r in ExamineAll(ps, now).rejected
    ensures TrueOfInput(ps, now, r)
  {
    hide Examine, TrueOfInput;
    var front, p := ps[..|ps| - 1], ps[|ps| - 1];
    assert ps == front + [p];
    if r in ExamineAll(front, now).rejected {
      ExamineRejectsTruly(front, now, r);
      TrueLater(front, p, now, r);
    } else {
      NewRejectionTrue(front, p, now, ExamineAll(front, now), r);
    }
  }

  /** A profile is rejected only for a problem it has, or because another one came with its ID. */
  lemma RejectedTruly(ps: seq<Profile>, now: int, r: Rejection)
    requires r in Validation(ps, now).rejected
    ensures TrueOfInput(ps, now, r)
  {
    hide TrueOfInput;
    ExamineRejectsTruly(ps, now, r);
  }

  /** Validation followed by selection: every validated candidate is reported exactly once, and as
      many are selected as the caps allow. */
  lemma PipelineComplete(ps: seq<Profile>, params: Params, now: int)
    ensures var s := Validation(ps, now).candidates;
            var r := Select(s, params);
            && Bag(Id, r.included) + Bag(ExcludedId, r.excluded) == Bag(Id, s)
            && |r.included| == Min(EffectiveCaps(params).total, Rank(Families(s), s, EffectiveCaps(params).perFamily))
  {
    hide Bag, Select, SeedHeads, DistinctKeys, Families, Validation, KeysSplitByFamily;
    var s := Validation(ps, now).candidates;
    ValidationSound(ps, now);
    SplitKeysSeedsDistinct(s, EffectiveCaps(params));
    PartitionIff(s, params);
    SelectedCount(s, params);
  }
}
