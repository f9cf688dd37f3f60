/** The policy engine (pkg/policy/engine.go): ranking with the adaptive state first and a
    deterministic score as the fallback. */
module Engine {
  import opened Text
  import opened Sorting
  import opened Profiles
  import opened AdaptiveMemory
  import opened AdaptiveScores
  import opened AdaptiveRanking
  import Folds
  import Adaptive

  const RECENT_SUCCESS_WINDOW := 3600
  const FRESH_IMPORT_WINDOW := 7 * 24 * 3600

  function LatencyBonus(handshakeMs: int): real {
    if handshakeMs > 1000 then -10.0
    else if 0 < handshakeMs < 300 then 10.0
    else 0.0
  }

  /** The dynamic health score of RankProfiles. */
  function EngineScore(p: Profile, now: int): real {
    p.health.successEWMA * 100.0
    + LatencyBonus(p.health.medianHandshakeMs)
    + (if now - p.health.lastOkAt < RECENT_SUCCESS_WINDOW then 5.0 else 0.0)
    + TrustOf(p) as real * 0.2
    + (if p.source.importedAt > 0 && now - p.source.importedAt < FRESH_IMPORT_WINDOW then 3.0 else 0.0)
    - p.health.consecutiveFails as real * 15.0
    - p.health.failureCount as real
    + (if p.capabilities.transport == "tcp" then 1.0 else 0.0)
  }

  function EngineScored(p: Profile, now: int): Profile {
    WithScore(p.(source := p.source.(trustLevel := TrustOf(p))), EngineScore(p, now))
  }

  function EnginePool(profiles: seq<Profile>, now: int): seq<Profile> {
    if profiles == [] then []
    else
      var front, p := EnginePool(profiles[..|profiles| - 1], now), profiles[|profiles| - 1];
      if Available(p, now) then front + [EngineScored(p, now)] else front
  }

  ghost predicate EngineRanked(profiles: seq<Profile>, now: int, ranked: seq<Profile>) {
    Sorted(BetterProfile, ranked) && multiset(ranked) == multiset(EnginePool(profiles, now))
  }

  const NO_PROFILE := Profile("", "", false, false, 0, 0, 0, "", Endpoint("", 0, ""), Capabilities("", [], ""),
                              Credentials("", "", "", "", "", "", ""), SourceInfo("", 0, 0, ""), "",
                              MutationPolicy([], 0), NO_HEALTH)

  datatype AdaptivePart = None | Some(memory: Memory)

  // ---------- what the engine may answer ----------

  /** The adaptive state had nothing to offer, and `recentFailures` is all it reported. */
  ghost predicate Silent(a: AdaptivePart, profiles: seq<Profile>, now: int, recentFailures: seq<string>) {
    if a.Some? then exists d :: Decided(a.memory, profiles, now, [], d) && d.recentFailures == recentFailures
    else recentFailures == []
  }

  /** RankProfiles with its two readings of the clock. */
  ghost predicate RankAnswer(a: AdaptivePart, profiles: seq<Profile>, n2: int, n3: int, ranked: seq<Profile>) {
    || (a.Some? && ranked != [] && exists d :: Decided(a.memory, profiles, n2, ranked, d))
    || ((exists f :: Silent(a, profiles, n2, f)) && EngineRanked(profiles, n3, ranked))
  }

  /** The adaptive state answered SelectProfile. */
  ghost predicate AdaptiveAnswer(a: AdaptivePart, profiles: seq<Profile>, n1: int, p: Profile, d: Decision, ranked: seq<Profile>) {
    a.Some? && a.memory.enabled && ranked != [] && p == ranked[0] && Decided(a.memory, profiles, n1, ranked, d)
  }

  function ScoresOf(ranked: seq<Profile>): (r: seq<ScoredProfile>)
    ensures |r| == |ranked| && forall i :: 0 <= i < |ranked| ==> r[i] == ScoredProfile(ranked[i].id, ranked[i].health.score)
  {
    seq(|ranked|, i requires 0 <= i < |ranked| => ScoredProfile(ranked[i].id, ranked[i].health.score))
  }

  predicate FallbackDecision(p: Profile, d: Decision, ranked: seq<Profile>) {
    && !d.useOrchestrator
    && if ranked == [] then p == NO_PROFILE && d.selected == "" && d.reason == NoViableProfiles && d.scores == []
    else && p == ranked[0] && d.selected == p.id && d.reason == DeterministicFallback(p.health.score)
         && d.scores == ScoresOf(ranked)
  }

  /** SelectProfile with its three readings of the clock. */
  ghost predicate SelectAnswer(a: AdaptivePart, profiles: seq<Profile>, n1: int, n2: int, n3: int,
                               p: Profile, d: Decision, ranked: seq<Profile>) {
    || AdaptiveAnswer(a, profiles, n1, p, d, ranked)
    || (Silent(a, profiles, n1, d.recentFailures) && RankAnswer(a, profiles, n2, n3, ranked) && FallbackDecision(p, d, ranked))
  }

  class PolicyEngine {
    var adaptive: Adaptive.AdaptiveState?

    ghost function Part(): AdaptivePart
      reads this, adaptive
    {
      if adaptive == null then None else Some(WithDefaults(adaptive.Value()))
    }

    method Score(p: Profile, now: int) returns (score: real)
      ensures score == EngineScore(p, now)
    {
      score := p.health.successEWMA * 100.0;
      if p.health.medianHandshakeMs > 1000 {
        score := score - 10.0;
      } else if p.health.medianHandshakeMs < 300 && p.health.medianHandshakeMs > 0 {
        score := score + 10.0;
      }
      if now - p.health.lastOkAt < RECENT_SUCCESS_WINDOW {
        score := score + 5.0;
      }
      score := score + TrustOf(p) as real * 0.2;
      if p.source.importedAt > 0 && now - p.source.importedAt < FRESH_IMPORT_WINDOW {
        score := score + 3.0;
      }
      score := score - p.health.consecutiveFails as real * 15.0;
      score := score - p.health.failureCount as real;
      if p.capabilities.transport == "tcp" {
        score := score + 1.0;
      }
    }

    /** The deterministic part of RankProfiles. */
    method RankDeterministically(profiles: seq<Profile>, now: int) returns (ranked: seq<Profile>)
      ensures EngineRanked(profiles, now, ranked)
    {
      hide EngineScore, Sorted, TotalPreorder;
      var available: seq<Profile> := [];
      for i := 0 to |profiles|
        invariant available == EnginePool(profiles[..i], now)
      {
        hide EnginePool;
        EngineSnoc(profiles[..i], profiles[i], now);
        assert profiles[..i + 1] == profiles[..i] + [profiles[i]];
        var p := profiles[i];
        if !p.enabled || p.manualDisabled || p.health.cooldownUntil > now {
          continue;
        }
        var score := Score(p, now);
        if p.source.trustLevel == 0 {
          p := p.(source := p.source.(trustLevel := 50));
        }
        p := p.(health := p.health.(score := score));
        available := available + [p];
      }
      assert profiles[..|profiles|] == profiles;
      BetterIsOrder();
      var a := new Profile[|available|](i requires 0 <= i < |available| => available[i]);
      assert a[..] == available;
      SortSlice(BetterProfile, a);
      ranked := a[..];
    }

    method RankProfiles(profiles: seq<Profile>, n2: int, n3: int) returns (ranked: seq<Profile>)
      modifies adaptive
      ensures adaptive == old(adaptive) && Part() == old(Part())
      ensures RankAnswer(Part(), profiles, n2, n3, ranked)
    {
      hide Decided, EngineRanked;
      ghost var failures: seq<string> := [];
      if adaptive != null {
        var d;
        ranked, d := adaptive.SelectProfile(profiles, n2);
        if |ranked| > 0 {
          return;
        }
        failures := d.recentFailures;
      }
      assert Silent(Part(), profiles, n2, failures);
      ranked := RankDeterministically(profiles, n3);
    }

    method SelectProfile(profiles: seq<Profile>, n1: int, n2: int, n3: int)
      returns (p: Profile, d: Decision, ranked: seq<Profile>)
      modifies adaptive
      ensures adaptive == old(adaptive) && Part() == old(Part())
      ensures SelectAnswer(Part(), profiles, n1, n2, n3, p, d, ranked)
    {
      d := NO_DECISION;
      if adaptive != null && adaptive.enabled {
        var r, a := adaptive.SelectProfile(profiles, n1);
        if |r| > 0 {
          hide Decided;
          return r[0], a, r;
        }
        d := a;
      }
      ghost var part := Part();
      EmptyDecision(part, profiles, n1, d);
      hide Decided, RankAnswer, FallbackDecision, Silent;
      ranked := RankProfiles(profiles, n2, n3);
      p, d := DecideFallback(ranked, d);
    }
  }

  /** The end of SelectProfile; what is left in `base` comes from the adaptive state. */
  method DecideFallback(ranked: seq<Profile>, base: Decision) returns (p: Profile, d: Decision)
    requires base.selected == "" && base.scores == [] && !base.useOrchestrator
    ensures FallbackDecision(p, d, ranked)
    ensures d.recentFailures == base.recentFailures
  {
    if |ranked| == 0 {
      return NO_PROFILE, base.(reason := NoViableProfiles);
    }
    var scores: seq<ScoredProfile> := [];
    for i := 0 to |ranked|
      invariant scores == ScoresOf(ranked[..i])
    {
      scores := scores + [ScoredProfile(ranked[i].id, ranked[i].health.score)];
    }
    assert ranked[..|ranked|] == ranked;
    p := ranked[0];
    d := base.(selected := ranked[0].id, reason := DeterministicFallback(ranked[0].health.score), scores := scores);
  }

  /** An empty ranking of the adaptive state leaves nothing but the recent failures. */
  lemma EmptyDecision(a: AdaptivePart, profiles: seq<Profile>, n1: int, d: Decision)
    requires if a.Some? && a.memory.enabled then Decided(a.memory, profiles, n1, [], d) else d == NO_DECISION
    ensures d.selected == "" && d.scores == [] && !d.useOrchestrator
    ensures Silent(a, profiles, n1, d.recentFailures)
  {
    if a.Some? && a.memory.enabled {
      assert multiset(d.scores) == Folds.Bag(Shown, Pool(a.memory, profiles, n1));
      SameElements([], Pool(a.memory, profiles, n1));
      NoneInBag(Pool(a.memory, profiles, n1), d.scores);
    } else if a.Some? {
      assert Decided(a.memory, profiles, n1, [], NO_DECISION.(reason := AdaptiveDisabled));
    }
  }

  lemma NoneInBag(pool: seq<Profile>, scores: seq<ScoredProfile>)
    requires pool == [] && multiset(scores) == Folds.Bag(Shown, pool)
    ensures scores == []
  {
    SameElements(scores, Folds.Map(Shown, pool));
  }

  lemma EngineSnoc(front: seq<Profile>, p: Profile, now: int)
    ensures EnginePool(front + [p], now) ==
            if Available(p, now) then EnginePool(front, now) + [EngineScored(p, now)] else EnginePool(front, now)
  {
    hide Available, EngineScored;
    assert (front + [p])[..|front|] == front;
  }

  // ---------- what follows ----------

  /** `q` is `p` but for its score and a trust level that was missing. */
  predicate SameButScore(p: Profile, q: Profile) {
    && q == p.(health := p.health.(score := q.health.score), source := p.source.(trustLevel := q.source.trustLevel))
    && (q.source.trustLevel == p.source.trustLevel || (p.source.trustLevel == 0 && q.source.trustLevel == 50))
  }

  ghost predicate FromInput(profiles: seq<Profile>, now: int, q: Profile) {
    exists i :: 0 <= i < |profiles| && Available(profiles[i], now) && SameButScore(profiles[i], q)
  }

  predicate SomeAvailable(profiles: seq<Profile>, now: int) {
    exists i :: 0 <= i < |profiles| && Available(profiles[i], now)
  }

  lemma CopyFromInput(m: Memory, profiles: seq<Profile>, now: int, later: int, q: Profile)
    requires CopyOf(m, profiles, now, q) && now <= later
    ensures FromInput(profiles, later, q)
  {
    hide Score, DirectTally, RecentFailures, DnsDependent;
    var i :| 0 <= i < |profiles| && Selectable(m, profiles[i], now) &&
      (q == FallbackScored(profiles[i]) || (Admitted(m, profiles[i], now) && q == Scored(m, profiles[i], now)));
    hide Admitted;
    assert Available(profiles[i], later) && SameButScore(profiles[i], q);
  }

  lemma {:induction false} EnginePoolFromInput(profiles: seq<Profile>, now: int, q: Profile)
    requires q in EnginePool(profiles, now)
    ensures FromInput(profiles, now, q)
  {
    hide EngineScore;
    var n := |profiles| - 1;
    var front, p := profiles[..n], profiles[n];
    if q in EnginePool(front, now) {
      EnginePoolFromInput(front, now, q);
      FromFront(profiles, n, now, q);
    } else {
      assert Available(profiles[n], now) && SameButScore(profiles[n], q);
    }
  }

  lemma FromFront(profiles: seq<Profile>, n: nat, now: int, q: Profile)
    requires n <= |profiles| && FromInput(profiles[..n], now, q)
    ensures FromInput(profiles, now, q)
  {
    hide Available, SameButScore;
    var i :| 0 <= i < n && Available(profiles[..n][i], now) && SameButScore(profiles[..n][i], q);
    assert profiles[..n][i] == profiles[i];
  }

  lemma {:induction false} EnginePoolEmpty(profiles: seq<Profile>, now: int)
    ensures EnginePool(profiles, now) != [] <==> SomeAvailable(profiles, now)
  {
    hide Available, EngineScored;
    if profiles != [] {
      var n := |profiles| - 1;
      EnginePoolEmpty(profiles[..n], now);
      assert forall i :: 0 <= i < n ==> profiles[..n][i] == profiles[i];
      if SomeAvailable(profiles, now) {
        var i :| 0 <= i < |profiles| && Available(profiles[i], now);
        assert i < n ==> Available(profiles[..n][i], now);
      }
      if SomeAvailable(profiles[..n], now) {
        var i :| 0 <= i < n && Available(profiles[..n][i], now);
        assert Available(profiles[i], now);
      }
    }
  }

  /** Every ranked entry comes from an input that may be used, whoever ranked it. */
  lemma RankedFromInputs(a: AdaptivePart, profiles: seq<Profile>, n1: int, n2: int, n3: int,
                         p: Profile, d: Decision, ranked: seq<Profile>, q: Profile)
    requires SelectAnswer(a, profiles, n1, n2, n3, p, d, ranked) && n1 <= n3 && n2 <= n3 && q in ranked
    ensures FromInput(profiles, n3, q)
  {
    hide Decided, FromInput, FallbackDecision;
    if AdaptiveAnswer(a, profiles, n1, p, d, ranked) {
      RankedAreCopies(a.memory, profiles, n1, ranked, d, q);
      CopyFromInput(a.memory, profiles, n1, n3, q);
    } else if EngineRanked(profiles, n3, ranked) {
      SameElements(ranked, EnginePool(profiles, n3));
      EnginePoolFromInput(profiles, n3, q);
    } else {
      var e :| Decided(a.memory, profiles, n2, ranked, e);
      RankedAreCopies(a.memory, profiles, n2, ranked, e, q);
      CopyFromInput(a.memory, profiles, n2, n3, q);
    }
  }

  /** The engine finds a profile exactly when there is one that may be used, whatever the adaptive
      state holds: its cooldowns and exclusions never leave the caller without a profile. */
  lemma NonEmptyIff(a: AdaptivePart, profiles: seq<Profile>, n1: int, n2: int, n3: int,
                    p: Profile, d: Decision, ranked: seq<Profile>)
    requires SelectAnswer(a, profiles, n1, n2, n3, p, d, ranked) && n1 <= n3 && n2 <= n3
    ensures ranked != [] <==> SomeAvailable(profiles, n3)
  {
    if ranked != [] {
      RankedFromInputs(a, profiles, n1, n2, n3, p, d, ranked, ranked[0]);
    } else {
      hide Decided;
      assert EngineRanked(profiles, n3, ranked);
      SameElements(ranked, EnginePool(profiles, n3));
      EnginePoolEmpty(profiles, n3);
    }
  }

  lemma DecidedSorted(m: Memory, profiles: seq<Profile>, now: int, ranked: seq<Profile>, d: Decision)
    requires Decided(m, profiles, now, ranked, d)
    ensures Sorted(BetterProfile, ranked)
  {
    hide Pool, DecisionFrom;
  }

  /** Scores descend, the profile returned is the first of the ranking, and the decision names the
      first or the second. */
  lemma BestFirst(a: AdaptivePart, profiles: seq<Profile>, n1: int, n2: int, n3: int,
                  p: Profile, d: Decision, ranked: seq<Profile>)
    requires SelectAnswer(a, profiles, n1, n2, n3, p, d, ranked)
    ensures forall i, j :: 0 <= i < j < |ranked| ==> ranked[i].health.score >= ranked[j].health.score
    ensures ranked != [] ==> p == ranked[0] && (d.selected == p.id || (|ranked| > 1 && d.selected == ranked[1].id))
  {
    if AdaptiveAnswer(a, profiles, n1, p, d, ranked) {
      DecidedSorted(a.memory, profiles, n1, ranked, d);
      assert DecisionFrom(a.memory, ranked, d);
      hide Decided, RankAnswer, DecisionFrom, ReasonOf, ShouldUseOrchestrator, RecentFailures;
      assert d.selected == Chosen(a.memory, ranked).id by { SelectedIsChosen(a.memory, ranked, d); }
    } else if !EngineRanked(profiles, n3, ranked) {
      hide Decided;
      var e :| Decided(a.memory, profiles, n2, ranked, e);
      DecidedSorted(a.memory, profiles, n2, ranked, e);
    }
    assert forall i, j :: 0 <= i < j < |ranked| ==> BetterProfile(ranked[i], ranked[j]);
  }

  lemma SelectedIsChosen(m: Memory, ranked: seq<Profile>, d: Decision)
    requires DecisionFrom(m, ranked, d) && ranked != []
    ensures d.selected == Chosen(m, ranked).id
  {
  }

  /** An enabled adaptive state that may select some input. */
  predicate AdaptiveServes(a: AdaptivePart, profiles: seq<Profile>, now: int) {
    a.Some? && a.memory.enabled && exists i :: 0 <= i < |profiles| && Selectable(a.memory, profiles[i], now)
  }

  /** The adaptive state answers exactly when it is enabled and may select some input. */
  lemma WhoAnswers(a: AdaptivePart, profiles: seq<Profile>, n1: int, n2: int, n3: int,
                   p: Profile, d: Decision, ranked: seq<Profile>)
    requires SelectAnswer(a, profiles, n1, n2, n3, p, d, ranked) && ranked != []
    ensures AdaptiveAnswer(a, profiles, n1, p, d, ranked) <==> AdaptiveServes(a, profiles, n1)
  {
    hide Decided, Selectable, RankAnswer, FallbackDecision;
    if AdaptiveAnswer(a, profiles, n1, p, d, ranked) {
      NeverCollapses(a.memory, profiles, n1, ranked, d);
    } else if a.Some? && a.memory.enabled {
      var e :| Decided(a.memory, profiles, n1, [], e) && e.recentFailures == d.recentFailures;
      NeverCollapses(a.memory, profiles, n1, [], e);
    }
  }

  /** The profile returned and the decision reported disagree in exactly one case: the adaptive
      state answers, its diversity guard moves to the second entry, and that one has another ID. */
  lemma AgreeUnlessGuarded(a: AdaptivePart, profiles: seq<Profile>, n1: int, n2: int, n3: int,
                           p: Profile, d: Decision, ranked: seq<Profile>)
    requires SelectAnswer(a, profiles, n1, n2, n3, p, d, ranked) && ranked != []
    ensures d.selected == p.id <==>
            !(AdaptiveServes(a, profiles, n1) && Guarded(a.memory, ranked) && ranked[1].id != ranked[0].id)
  {
    WhoAnswers(a, profiles, n1, n2, n3, p, d, ranked);
    hide RankAnswer, Streak, Pool, RankedFrom, ReasonOf, ShouldUseOrchestrator, RecentFailures, AdaptiveServes;
    if AdaptiveAnswer(a, profiles, n1, p, d, ranked) {
      SelectedIsChosen(a.memory, ranked, d);
    }
  }

  // ---------- the adaptive cooldown at the engine ----------

  /** While the adaptive state may select some input, a profile that cools down is in no ranking of
      the engine. */
  lemma CoolingStaysOut(a: AdaptivePart, profiles: seq<Profile>, n1: int, n2: int, n3: int,
                        p: Profile, d: Decision, ranked: seq<Profile>, id: string)
    requires SelectAnswer(a, profiles, n1, n2, n3, p, d, ranked)
    requires AdaptiveServes(a, profiles, n1) && CooldownOf(a.memory, id) > n1
    ensures forall q :: q in ranked ==> q.id != id
  {
    hide Decided, CooldownOf, AdaptiveServes, CopyOf;
    if ranked != [] {
      WhoAnswers(a, profiles, n1, n2, n3, p, d, ranked);
      forall q | q in ranked ensures q.id != id {
        RankedAreCopies(a.memory, profiles, n1, ranked, d, q);
        CopyCooled(a.memory, profiles, n1, q);
      }
    }
  }

  lemma {:induction false} EnginePoolHas(profiles: seq<Profile>, now: int, i: nat)
    requires i < |profiles| && Available(profiles[i], now)
    ensures EngineScored(profiles[i], now) in EnginePool(profiles, now)
  {
    hide Available, EngineScored;
    var n := |profiles| - 1;
    if i < n {
      EnginePoolHas(profiles[..n], now, i);
    }
  }

  /** Otherwise it comes back: the deterministic ranking knows no adaptive cooldown and lists every
      input that may be used. */
  lemma CoolingComesBack(a: AdaptivePart, profiles: seq<Profile>, n1: int, n2: int, n3: int,
                         p: Profile, d: Decision, ranked: seq<Profile>, i: nat)
    requires SelectAnswer(a, profiles, n1, n2, n3, p, d, ranked)
    requires !AdaptiveServes(a, profiles, n1) && !AdaptiveServes(a, profiles, n2)
    requires i < |profiles| && Available(profiles[i], n3)
    ensures EngineScored(profiles[i], n3) in ranked
  {
    hide Decided, FallbackDecision, EngineScored, Selectable, Available;
    if a.Some? && ranked != [] && exists e :: Decided(a.memory, profiles, n2, ranked, e) {
      var e :| Decided(a.memory, profiles, n2, ranked, e);
      DisabledIsEmpty(a.memory, profiles, n2, ranked, e);
      NeverCollapses(a.memory, profiles, n2, ranked, e);
    }
    if AdaptiveAnswer(a, profiles, n1, p, d, ranked) {
      NeverCollapses(a.memory, profiles, n1, ranked, d);
    }
    assert EngineRanked(profiles, n3, ranked);
    SameElements(ranked, EnginePool(profiles, n3));
    EnginePoolHas(profiles, n3, i);
  }

  lemma DisabledIsEmpty(m: Memory, profiles: seq<Profile>, now: int, ranked: seq<Profile>, d: Decision)
    requires Decided(m, profiles, now, ranked, d) && ranked != []
    ensures m.enabled
  {
  }

  /** Every consecutive failure costs fifteen points, which no bonus outweighs for long. */
  lemma EngineScoreBound(p: Profile, now: int)
    requires SaneFigures(p) && p.health.failureCount >= 0
    ensures EngineScore(p, now) <= 139.0 - p.health.consecutiveFails as real * 15.0
  {
    assert TrustOf(p) as real * 0.2 <= 20.0;
  }

  lemma FreshScore(p: Profile, now: int)
    requires p.health.successEWMA == 0.5 && p.health.medianHandshakeMs == 0
    requires p.health.consecutiveFails == 0 && p.health.failureCount == 0
    requires now - p.health.lastOkAt < RECENT_SUCCESS_WINDOW && p.source.trustLevel > 0
    ensures EngineScore(p, now) > 55.0
  {
    assert TrustOf(p) as real * 0.2 > 0.0;
  }

  /** Two profiles that differ only in their ID. */
  predicate Twins(p: Profile, q: Profile, now: int) {
    q == p.(id := q.id) && q.id != p.id && Available(p, now) && p.family == FAMILY_REALITY
  }

  /** Such a case exists: twins, of which the first made the last ten selections. */
  lemma Disagreement(p: Profile, q: Profile, m: Memory, now: int) returns (ranked: seq<Profile>, d: Decision)
    requires Twins(p, q, now) && now >= 0
    requires m.enabled && m.events == [] && m.cooldown == map[] && m.history == seq(10, i => p.id)
    ensures ranked != [] && AdaptiveAnswer(Some(m), [p, q], now, ranked[0], d, ranked)
    ensures ranked[0].id == p.id && d.selected == q.id
  {
    TwinPool(p, q, m, now);
    TwinScores(p, q, m, now);
    var a, b := Scored(m, p, now), Scored(m, q, now);
    assert RecentFailures([]) == [];
    AllTheSame(m.history, p.id);
    hide Pool, Scored, RecentFailures, Streak;
    ranked := [a, b];
    d := Decision(b.id, ReasonOf(m, ranked), [Shown(a), Shown(b)], [], true);
    assert Folds.Map(Shown, ranked) == d.scores;
    assert Guarded(m, ranked);
    hide Shown;
    assert CloseScores(d.scores);
  }

  lemma TwinScores(p: Profile, q: Profile, m: Memory, now: int)
    requires Twins(p, q, now) && m.events == []
    ensures Scored(m, q, now).health.score == Scored(m, p, now).health.score
    ensures Scored(m, p, now).id == p.id && Scored(m, q, now).id == q.id
  {
    hide EqualFold, Blank;
    assert RecentFailures([]) == [];
    assert DirectTally([], p.id, now) == NO_TALLY == DirectTally([], q.id, now);
    hide DirectTally;
  }

  lemma TwinPool(p: Profile, q: Profile, m: Memory, now: int)
    requires Twins(p, q, now) && now >= 0 && m.events == [] && m.cooldown == map[]
    ensures Pool(m, [p, q], now) == [Scored(m, p, now), Scored(m, q, now)]
  {
    hide DnsDependent;
    assert RecentFailures([]) == [];
    assert Admitted(m, p, now) && Admitted(m, q, now);
    assert [p, q][..1] == [p] && [p][..0] == [];
    hide Admitted, Scored;
    assert StrictPool(m, [p], now) == [Scored(m, p, now)];
  }

  lemma {:induction false} AllTheSame(history: seq<string>, id: string)
    requires forall i :: 0 <= i < |history| ==> history[i] == id
    ensures Streak(history, id) == |history|
  {
    if history != [] {
      AllTheSame(history[..|history| - 1], id);
    }
  }
}
