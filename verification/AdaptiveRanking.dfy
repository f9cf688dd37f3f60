/** What AdaptiveState.SelectProfile may answer (pkg/policy/adaptive.go).  sort.Slice promises no
    order among equal scores, so the answer is a relation and not a function. */
module AdaptiveRanking {
  import opened Text
  import opened Sorting
  import opened Folds
  import opened Profiles
  import opened NormalizeProofs
  import opened AdaptiveMemory
  import opened AdaptiveScores

  const DELTA_DIVERSITY := 5.0
  const DELTA_CLOSE := 3.0

  datatype ScoredProfile = ScoredProfile(profileId: string, score: real)

  datatype Reason =
    | Unset | AdaptiveDisabled | NoSelectableProfiles
    | BestScore(score: real) | DiversityGuard(repeated: string, streak: nat, score: real)
    | NoViableProfiles | DeterministicFallback(score: real)

  datatype Decision = Decision(
    selected: string, reason: Reason, scores: seq<ScoredProfile>, recentFailures: seq<string>, useOrchestrator: bool)

  const NO_DECISION := Decision("", Unset, [], [], false)

  // ---------- who is ranked ----------

  /** Switched on, and past the cooldown in its own health record. */
  predicate Available(p: Profile, now: int) {
    p.enabled && !p.manualDisabled && p.health.cooldownUntil <= now
  }

  predicate Selectable(m: Memory, p: Profile, now: int) {
    Available(p, now) && CooldownOf(m, p.id) <= now
  }

  predicate DnsDependent(p: Profile) {
    p.family == FAMILY_DNS || HasTag(p.capabilities.dpiResistanceTags, DNS_DEPENDENT)
  }

  predicate Admitted(m: Memory, p: Profile, now: int) {
    Selectable(m, p, now) && !("DNS_BLOCKED" in RecentFailures(m.events) && DnsDependent(p))
  }

  function WithScore(p: Profile, score: real): Profile {
    p.(health := p.health.(score := score))
  }

  /** The copy of a profile that goes into the ranking. */
  function Scored(m: Memory, p: Profile, now: int): Profile {
    WithScore(p.(source := p.source.(trustLevel := TrustOf(p))),
              Score(p, DirectTally(m.events, p.id, now), RecentFailures(m.events)))
  }

  function FallbackScored(p: Profile): Profile {
    WithScore(p, p.health.successEWMA * 100.0)
  }

  function StrictPool(m: Memory, profiles: seq<Profile>, now: int): seq<Profile> {
    if profiles == [] then []
    else
      var front, p := StrictPool(m, profiles[..|profiles| - 1], now), profiles[|profiles| - 1];
      if Admitted(m, p, now) then front + [Scored(m, p, now)] else front
  }

  function FallbackPool(m: Memory, profiles: seq<Profile>, now: int): seq<Profile> {
    if profiles == [] then []
    else
      var front, p := FallbackPool(m, profiles[..|profiles| - 1], now), profiles[|profiles| - 1];
      if Selectable(m, p, now) then front + [FallbackScored(p)] else front
  }

  function Pool(m: Memory, profiles: seq<Profile>, now: int): seq<Profile> {
    if StrictPool(m, profiles, now) != [] then StrictPool(m, profiles, now) else FallbackPool(m, profiles, now)
  }

  // ---------- scores for display ----------

  /** math.Round(x * 10) / 10, halves away from zero. */
  function Rounded(x: real): real {
    if x >= 0.0 then (x * 10.0 + 0.5).Floor as real / 10.0 else -((-x * 10.0 + 0.5).Floor as real / 10.0)
  }

  lemma FloorMonotone(x: real, y: real)
    requires x <= y
    ensures x.Floor <= y.Floor
  {
  }

  lemma RoundedMonotone(x: real, y: real)
    requires x <= y
    ensures Rounded(x) <= Rounded(y)
  {
    FloorMonotone(x * 10.0 + 0.5, y * 10.0 + 0.5);
    FloorMonotone(-y * 10.0 + 0.5, -x * 10.0 + 0.5);
  }

  function Shown(p: Profile): ScoredProfile {
    ScoredProfile(p.id, Rounded(p.health.score))
  }

  predicate BetterProfile(p: Profile, q: Profile) {
    p.health.score >= q.health.score
  }

  predicate BetterScore(a: ScoredProfile, b: ScoredProfile) {
    a.score >= b.score
  }

  lemma BetterIsOrder()
    ensures TotalPreorder(BetterProfile) && TotalPreorder(BetterScore)
  {
  }

  // ---------- the decision ----------

  predicate Guarded(m: Memory, ranked: seq<Profile>) {
    && |ranked| > 1
    && Streak(m.history, ranked[0].id) >= STREAK_LIMIT
    && ranked[0].health.score - ranked[1].health.score <= DELTA_DIVERSITY
  }

  function Chosen(m: Memory, ranked: seq<Profile>): Profile
    requires ranked != []
  {
    if Guarded(m, ranked) then ranked[1] else ranked[0]
  }

  function ReasonOf(m: Memory, ranked: seq<Profile>): Reason
    requires ranked != []
  {
    if Guarded(m, ranked) then
      DiversityGuard(ranked[0].id, Streak(m.history, ranked[0].id), ranked[1].health.score)
    else BestScore(ranked[0].health.score)
  }

  predicate CloseScores(scores: seq<ScoredProfile>) {
    |scores| > 1 && -DELTA_CLOSE <= scores[0].score - scores[1].score <= DELTA_CLOSE
  }

  predicate ShouldUseOrchestrator(scores: seq<ScoredProfile>, recentFailures: seq<string>) {
    CloseScores(scores) || |recentFailures| >= 2 || exists i :: 0 <= i < |recentFailures| && EqualFold(recentFailures[i], "UNKNOWN")
  }

  /** `ranked` and `d.scores` are the pool and its scores, both in descending order. */
  ghost predicate RankedFrom(pool: seq<Profile>, ranked: seq<Profile>, scores: seq<ScoredProfile>) {
    && Sorted(BetterProfile, ranked) && multiset(ranked) == multiset(pool)
    && Sorted(BetterScore, scores) && multiset(scores) == Bag(Shown, pool)
  }

  predicate DecisionFrom(m: Memory, ranked: seq<Profile>, d: Decision) {
    && d.recentFailures == RecentFailures(m.events)
    && if ranked == [] then d.selected == "" && d.reason == NoSelectableProfiles && !d.useOrchestrator
       else && d.selected == Chosen(m, ranked).id && d.reason == ReasonOf(m, ranked)
            && d.useOrchestrator == ShouldUseOrchestrator(d.scores, d.recentFailures)
  }

  ghost predicate Decided(m: Memory, profiles: seq<Profile>, now: int, ranked: seq<Profile>, d: Decision) {
    if !m.enabled then ranked == [] && d == NO_DECISION.(reason := AdaptiveDisabled)
    else RankedFrom(Pool(m, profiles, now), ranked, d.scores) && DecisionFrom(m, ranked, d)
  }

  // ---------- what follows ----------

  /** An entry of the ranking is the copy of a selectable input, rescored. */
  ghost predicate CopyOf(m: Memory, profiles: seq<Profile>, now: int, q: Profile) {
    exists i :: 0 <= i < |profiles| && Selectable(m, profiles[i], now) &&
                (q == FallbackScored(profiles[i]) || (Admitted(m, profiles[i], now) && q == Scored(m, profiles[i], now)))
  }

  lemma CopyLater(m: Memory, profiles: seq<Profile>, now: int, q: Profile)
    requires profiles != [] && CopyOf(m, profiles[..|profiles| - 1], now, q)
    ensures CopyOf(m, profiles, now, q)
  {
    hide Selectable, Admitted, Scored, FallbackScored;
    var front := profiles[..|profiles| - 1];
    var i :| 0 <= i < |front| && Selectable(m, front[i], now) &&
      (q == FallbackScored(front[i]) || (Admitted(m, front[i], now) && q == Scored(m, front[i], now)));
    assert profiles[i] == front[i];
  }

  lemma CopyLast(m: Memory, profiles: seq<Profile>, now: int)
    requires profiles != [] && Selectable(m, profiles[|profiles| - 1], now)
    ensures CopyOf(m, profiles, now, FallbackScored(profiles[|profiles| - 1]))
    ensures Admitted(m, profiles[|profiles| - 1], now) ==> CopyOf(m, profiles, now, Scored(m, profiles[|profiles| - 1], now))
  {
    hide Selectable, Admitted, Scored, FallbackScored;
  }

  lemma {:induction false} StrictCopies(m: Memory, profiles: seq<Profile>, now: int, q: Profile)
    requires q in StrictPool(m, profiles, now)
    ensures CopyOf(m, profiles, now, q)
  {
    hide Selectable, DnsDependent, Scored, CopyOf, RecentFailures;
    var front, p := profiles[..|profiles| - 1], profiles[|profiles| - 1];
    if q in StrictPool(m, front, now) {
      StrictCopies(m, front, now, q);
      CopyLater(m, profiles, now, q);
    } else {
      CopyLast(m, profiles, now);
    }
  }

  lemma {:induction false} FallbackCopies(m: Memory, profiles: seq<Profile>, now: int, q: Profile)
    requires q in FallbackPool(m, profiles, now)
    ensures CopyOf(m, profiles, now, q)
  {
    hide Selectable, Scored, FallbackScored, CopyOf;
    var front, p := profiles[..|profiles| - 1], profiles[|profiles| - 1];
    if q in FallbackPool(m, front, now) {
      FallbackCopies(m, front, now, q);
      CopyLater(m, profiles, now, q);
    } else {
      CopyLast(m, profiles, now);
    }
  }

  lemma {:induction false} FallbackEmpty(m: Memory, profiles: seq<Profile>, now: int)
    ensures FallbackPool(m, profiles, now) == [] <==> forall i :: 0 <= i < |profiles| ==> !Selectable(m, profiles[i], now)
  {
    hide Selectable;
    if profiles != [] {
      var n := |profiles| - 1;
      FallbackEmpty(m, profiles[..n], now);
      assert forall i :: 0 <= i < n ==> profiles[..n][i] == profiles[i];
    }
  }

  lemma {:induction false} StrictEmpty(m: Memory, profiles: seq<Profile>, now: int)
    ensures StrictPool(m, profiles, now) == [] <==> forall i :: 0 <= i < |profiles| ==> !Admitted(m, profiles[i], now)
  {
    hide Admitted, Scored;
    if profiles != [] {
      var n := |profiles| - 1;
      StrictEmpty(m, profiles[..n], now);
      assert forall i :: 0 <= i < n ==> profiles[..n][i] == profiles[i];
    }
  }

  lemma PoolCopies(m: Memory, profiles: seq<Profile>, now: int, q: Profile)
    requires q in Pool(m, profiles, now)
    ensures CopyOf(m, profiles, now, q)
  {
    hide StrictPool, FallbackPool, CopyOf;
    if StrictPool(m, profiles, now) != [] {
      StrictCopies(m, profiles, now, q);
    } else {
      FallbackCopies(m, profiles, now, q);
    }
  }

  /** The ranking is empty only when nothing at all may be selected: the rule against DNS-dependent
      profiles never empties it. */
  lemma NeverCollapses(m: Memory, profiles: seq<Profile>, now: int, ranked: seq<Profile>, d: Decision)
    requires m.enabled && Decided(m, profiles, now, ranked, d)
    ensures ranked == [] <==> forall i :: 0 <= i < |profiles| ==> !Selectable(m, profiles[i], now)
  {
    SameElements(ranked, Pool(m, profiles, now));
    StrictEmpty(m, profiles, now);
    FallbackEmpty(m, profiles, now);
    hide StrictPool, FallbackPool, Selectable, DecisionFrom, DnsDependent, RecentFailures;
  }

  /** Every entry of a ranking stems from an input that is switched on and past both cooldowns. */
  lemma RankedAreCopies(m: Memory, profiles: seq<Profile>, now: int, ranked: seq<Profile>, d: Decision, q: Profile)
    requires Decided(m, profiles, now, ranked, d) && q in ranked
    ensures CopyOf(m, profiles, now, q)
  {
    hide Pool, CopyOf, DecisionFrom;
    SameElements(ranked, Pool(m, profiles, now));
    PoolCopies(m, profiles, now, q);
  }

  lemma CopyCooled(m: Memory, profiles: seq<Profile>, now: int, q: Profile)
    requires CopyOf(m, profiles, now, q)
    ensures CooldownOf(m, q.id) <= now
  {
    hide Score, DirectTally, RecentFailures, DnsDependent;
  }

  /** While DNS failures are recent, a DNS-dependent profile is ranked only when nothing else is left. */
  lemma DnsLastResort(m: Memory, profiles: seq<Profile>, now: int, ranked: seq<Profile>, d: Decision, q: Profile)
    requires Decided(m, profiles, now, ranked, d) && q in ranked
    requires "DNS_BLOCKED" in RecentFailures(m.events) && DnsDependent(q)
    ensures forall i :: 0 <= i < |profiles| && Selectable(m, profiles[i], now) ==> DnsDependent(profiles[i])
  {
    hide RecentFailures, Selectable, DecisionFrom, HasTag;
    SameElements(ranked, Pool(m, profiles, now));
    StrictEmpty(m, profiles, now);
    if StrictPool(m, profiles, now) != [] {
      StrictAdmits(m, profiles, now, q);
    }
  }

  lemma {:induction false} StrictAdmits(m: Memory, profiles: seq<Profile>, now: int, q: Profile)
    requires q in StrictPool(m, profiles, now)
    ensures !("DNS_BLOCKED" in RecentFailures(m.events) && DnsDependent(q))
  {
    hide Selectable, RecentFailures, HasTag, Score;
    var front, p := profiles[..|profiles| - 1], profiles[|profiles| - 1];
    if q in StrictPool(m, front, now) {
      StrictAdmits(m, front, now, q);
    } else {
      assert q == Scored(m, p, now) && Admitted(m, p, now);
    }
  }

  /** The choice is the first or the second of the ranking, and never more than 5 points off. */
  lemma ChoiceNearTop(m: Memory, ranked: seq<Profile>)
    requires ranked != [] && Sorted(BetterProfile, ranked)
    ensures Chosen(m, ranked) in ranked
    ensures forall q :: q in ranked ==> Chosen(m, ranked).health.score >= q.health.score - 5.0
    ensures Chosen(m, ranked) != ranked[0] ==> Guarded(m, ranked) && Chosen(m, ranked) == ranked[1]
  {
    forall q | q in ranked ensures ranked[0].health.score >= q.health.score {
      var i :| 0 <= i < |ranked| && ranked[i] == q;
      assert i == 0 || BetterProfile(ranked[0], ranked[i]);
    }
  }

  function ShownScore(p: Profile): real { Rounded(p.health.score) }

  function ScoreIn(a: ScoredProfile): real { a.score }

  predicate AtLeast(x: real, y: real) { x >= y }

  /** The two sorts agree on the scores: entry by entry, the list for display shows the rounded
      score of the ranking, although ties may list different profiles. */
  lemma ScoresMatchRanking(pool: seq<Profile>, ranked: seq<Profile>, scores: seq<ScoredProfile>)
    requires RankedFrom(pool, ranked, scores)
    ensures |scores| == |ranked|
    ensures forall i :: 0 <= i < |ranked| ==> scores[i].score == Rounded(ranked[i].health.score)
  {
    var a, b := Map(ShownScore, ranked), Map(ScoreIn, scores);
    BagPermutation(ShownScore, ranked, pool);
    BagPermutation(ScoreIn, scores, Map(Shown, pool));
    assert Map(ScoreIn, Map(Shown, pool)) == Map(ShownScore, pool);
    ShownSorted(ranked, a);
    ScoresSorted(scores, b);
    assert NoTies(AtLeast, a);
    hide RankedFrom;
    SortedUnique(AtLeast, a, b);
    forall i | 0 <= i < |ranked| ensures i < |scores| && scores[i].score == Rounded(ranked[i].health.score) {
      assert a[i] == b[i];
    }
  }

  lemma ShownSorted(ranked: seq<Profile>, a: seq<real>)
    requires Sorted(BetterProfile, ranked) && a == Map(ShownScore, ranked)
    ensures Sorted(AtLeast, a)
  {
    forall i, j | 0 <= i < j < |a| ensures AtLeast(a[i], a[j]) {
      assert BetterProfile(ranked[i], ranked[j]);
      RoundedMonotone(ranked[j].health.score, ranked[i].health.score);
    }
  }

  lemma ScoresSorted(scores: seq<ScoredProfile>, b: seq<real>)
    requires Sorted(BetterScore, scores) && b == Map(ScoreIn, scores)
    ensures Sorted(AtLeast, b)
  {
  }
}
