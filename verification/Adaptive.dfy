/** The adaptive policy state as it runs (pkg/policy/adaptive.go). */
module Adaptive {
  import opened Text
  import opened Sorting
  import opened Folds
  import opened Profiles
  import opened NormalizeProofs
  import opened AdaptiveMemory
  import opened AdaptiveScores
  import opened AdaptiveRanking

  class AdaptiveState {
    var enabled: bool
    var maxEvents: int
    var events: seq<NetworkEvent>
    var cooldown: map<string, int>
    var selectionHistory: seq<string>

    ghost function Value(): Memory
      reads this
    {
      Memory(enabled, maxEvents, events, cooldown, selectionHistory)
    }

    /** NewAdaptiveState */
    constructor (maxEvents: int)
      ensures Value() == NewMemory(maxEvents)
    {
      enabled := true;
      this.maxEvents := if maxEvents < 50 then 50 else if maxEvents > 100 then 100 else maxEvents;
      events, cooldown, selectionHistory := [], map[], [];
    }

    method EnsureDefaults()
      modifies this
      ensures Value() == WithDefaults(old(Value()))
    {
      if maxEvents < 50 || maxEvents > 100 {
        maxEvents := WINDOW_DEFAULT;
      }
    }

    method SnapshotDisk() returns (snapshot: Memory)
      modifies this
      ensures snapshot == Value() == WithDefaults(old(Value()))
    {
      EnsureDefaults();
      var copied := CopyMap(cooldown);
      snapshot := Memory(enabled, maxEvents, events, copied, selectionHistory);
    }

    method ReplaceDisk(from: Memory)
      modifies this
      ensures Value() == WithDefaults(from)
    {
      enabled, maxEvents, events, selectionHistory := from.enabled, from.maxEvents, from.events, from.history;
      cooldown := CopyMap(from.cooldown);
      EnsureDefaults();
    }

    method Reset()
      modifies this
      ensures Value() == Cleared(old(Value()))
    {
      EnsureDefaults();
      events, selectionHistory, cooldown := [], [], map[];
    }

    method SetEnabled(enabled: bool)
      modifies this
      ensures Value() == old(Value()).(enabled := enabled)
    {
      this.enabled := enabled;
    }

    method RecordSelection(profileId: string)
      modifies this
      ensures Value() == Selected(old(Value()), profileId)
    {
      if Trim(profileId) == "" {
        return;
      }
      selectionHistory := selectionHistory + [profileId];
      if |selectionHistory| > HISTORY_SIZE {
        selectionHistory := selectionHistory[|selectionHistory| - HISTORY_SIZE..];
      }
    }

    method RecordAttempt(profileId: string, signal: AttemptSignal, failure: string, now: int)
      modifies this
      ensures Value() == Attempted(old(Value()), profileId, signal, failure, now)
    {
      hide NormalizeFailure, Recorded, Trim;
      EnsureDefaults();
      if !enabled || Trim(profileId) == "" {
        return;
      }
      Append(NetworkEvent(now, profileId, signal.connectOk, signal.latencyMs, NormalizeFailure(signal, failure)));
    }

    method Append(ev: NetworkEvent)
      requires maxEvents >= 0
      modifies this
      ensures Value() == Recorded(old(Value()), ev)
    {
      events := events + [ev];
      if |events| > maxEvents {
        events := events[|events| - maxEvents..];
      }
      if !ev.success {
        cooldown := cooldown[ev.profileId := ev.timestamp + COOLDOWN_SECONDS];
      }
    }

    /** SelectProfile changes nothing but missing defaults; `ranked` and `d` are one of the answers
        the relation Decided allows. */
    method SelectProfile(profiles: seq<Profile>, now: int) returns (ranked: seq<Profile>, d: Decision)
      modifies this
      ensures Value() == WithDefaults(old(Value()))
      ensures Decided(Value(), profiles, now, ranked, d)
    {
      EnsureDefaults();
      if !enabled {
        return [], NO_DECISION.(reason := AdaptiveDisabled);
      }
      var recentFailures := CollectFailures(events);
      var pool, scores := Candidates(profiles, now, recentFailures);
      ghost var m := Value();
      ranked, scores := SortBoth(pool, scores);
      assert m == Value();
      d := Decide(ranked, scores, recentFailures);
    }

    /** The single pass over the window. */
    method Tallies(now: int) returns (ag: map<string, Tally>)
      ensures TalliesOf(ag, events, now)
    {
      hide TalliesOf;
      ag := map[];
      NoTallies(now);
      for i := 0 to |events|
        invariant TalliesOf(ag, events[..i], now)
      {
        TallyStep(ag, events[..i], events[i], now);
        assert events[..i + 1] == events[..i] + [events[i]];
        var ev := events[i];
        ag := ag[ev.profileId := AddEvent(Lookup(ag, ev.profileId), ev, now)];
      }
      assert events[..|events|] == events;
    }

    /** Both filters with their scores. */
    method Candidates(profiles: seq<Profile>, now: int, recentFailures: seq<string>)
      returns (pool: seq<Profile>, scores: seq<ScoredProfile>)
      requires recentFailures == RecentFailures(events)
      ensures pool == Pool(Value(), profiles, now) && scores == Map(Shown, pool)
    {
      hide RecentFailures;
      var ag := Tallies(now);
      pool, scores := StrictCandidates(profiles, now, recentFailures, ag);
      hide StrictPool, FallbackPool, Shown;
      if pool == [] {
        pool := FallbackCandidates(profiles, now);
        scores := [];
        for i := 0 to |pool|
          invariant scores == Map(Shown, pool[..i])
        {
          ShownSnoc(pool[..i], pool[i]);
          assert pool[..i + 1] == pool[..i] + [pool[i]];
          scores := scores + [Shown(pool[i])];
        }
        assert pool[..|pool|] == pool;
      }
    }

    method StrictCandidates(profiles: seq<Profile>, now: int, recentFailures: seq<string>, ag: map<string, Tally>)
      returns (pool: seq<Profile>, scores: seq<ScoredProfile>)
      requires recentFailures == RecentFailures(events) && TalliesOf(ag, events, now)
      ensures pool == StrictPool(Value(), profiles, now) && scores == Map(Shown, pool)
    {
      hide *;
      ghost var m := Value();
      pool, scores := [], [];
      NothingPooled(m, now);
      assert profiles[..0] == [];
      for i := 0 to |profiles|
        invariant pool == StrictPool(m, profiles[..i], now) && scores == Map(Shown, pool)
      {
        StrictSnoc(m, profiles[..i], profiles[i], now);
        assert profiles[..i + 1] == profiles[..i] + [profiles[i]];
        var admitted, copied := Consider(profiles[i], now, recentFailures, ag);
        if admitted {
          ShownSnoc(pool, copied);
          pool, scores := pool + [copied], scores + [Shown(copied)];
        }
      }
      assert profiles[..|profiles|] == profiles;
    }

    /** The body of the strict loop. */
    method Consider(profile: Profile, now: int, recentFailures: seq<string>, ag: map<string, Tally>)
      returns (admitted: bool, p: Profile)
      requires recentFailures == RecentFailures(events) && TalliesOf(ag, events, now)
      ensures admitted == Admitted(Value(), profile, now)
      ensures admitted ==> p == Scored(Value(), profile, now)
    {
      p := profile;
      assert Lookup(ag, p.id) == DirectTally(events, p.id, now);
      hide TalliesOf, DirectTally, RecentFailures, HasTag, Score;
      if !p.enabled || p.manualDisabled || p.health.cooldownUntil > now {
        return false, p;
      }
      var until := if p.id in cooldown then cooldown[p.id] else 0;
      if until > now {
        return false, p;
      }
      if "DNS_BLOCKED" in recentFailures && (p.family == FAMILY_DNS || HasTag(p.capabilities.dpiResistanceTags, DNS_DEPENDENT)) {
        return false, p;
      }
      var score := ScoreOf(p, Lookup(ag, p.id), recentFailures);
      if p.source.trustLevel == 0 {
        p := p.(source := p.source.(trustLevel := 50));
      }
      p := p.(health := p.health.(score := score));
      return true, p;
    }

    method FallbackCandidates(profiles: seq<Profile>, now: int) returns (pool: seq<Profile>)
      ensures pool == FallbackPool(Value(), profiles, now)
    {
      ghost var m := Value();
      pool := [];
      for i := 0 to |profiles|
        invariant pool == FallbackPool(m, profiles[..i], now)
      {
        hide FallbackPool;
        FallbackSnoc(m, profiles[..i], profiles[i], now);
        assert profiles[..i + 1] == profiles[..i] + [profiles[i]];
        var p := profiles[i];
        if !p.enabled || p.manualDisabled || p.health.cooldownUntil > now {
          continue;
        }
        var until := if p.id in cooldown then cooldown[p.id] else 0;
        if until > now {
          continue;
        }
        pool := pool + [p.(health := p.health.(score := p.health.successEWMA * 100.0))];
      }
      assert profiles[..|profiles|] == profiles;
    }

    /** The two sorts, each on its own slice. */
    method SortBoth(pool: seq<Profile>, scores: seq<ScoredProfile>)
      returns (ranked: seq<Profile>, sorted: seq<ScoredProfile>)
      requires scores == Map(Shown, pool)
      ensures RankedFrom(pool, ranked, sorted)
    {
      BetterIsOrder();
      hide TotalPreorder, Sorted, Shown;
      var a := new Profile[|pool|](i requires 0 <= i < |pool| => pool[i]);
      assert a[..] == pool;
      SortSlice(BetterProfile, a);
      var b := new ScoredProfile[|scores|](i requires 0 <= i < |scores| => scores[i]);
      assert b[..] == scores;
      SortSlice(BetterScore, b);
      return a[..], b[..];
    }

    method Decide(ranked: seq<Profile>, scores: seq<ScoredProfile>, recentFailures: seq<string>) returns (d: Decision)
      requires recentFailures == RecentFailures(events)
      ensures d.scores == scores && DecisionFrom(Value(), ranked, d)
    {
      hide RecentFailures, Streak;
      d := NO_DECISION.(scores := scores, recentFailures := recentFailures);
      if ranked == [] {
        return d.(reason := NoSelectableProfiles);
      }
      var selected, reason := ranked[0], BestScore(ranked[0].health.score);
      var streak := RecentSelectionStreak(selectionHistory, selected.id);
      if streak >= STREAK_LIMIT && |ranked| > 1 {
        var diff := ranked[0].health.score - ranked[1].health.score;
        if diff <= DELTA_DIVERSITY {
          selected := ranked[1];
          reason := DiversityGuard(ranked[0].id, streak, ranked[1].health.score);
        }
      }
      var orchestrator := UseOrchestrator(scores, recentFailures);
      d := d.(selected := selected.id, reason := reason, useOrchestrator := orchestrator);
    }
  }

  /** The loop over the window from its newest event on. */
  method CollectFailures(events: seq<NetworkEvent>) returns (recentFailures: seq<string>)
    ensures recentFailures == RecentFailures(events)
  {
    hide Trim, NewestFailures, RecentFailures;
    recentFailures := [];
    var i := |events|;
    assert events[..|events|] == events;
    CollectStart(events);
    while i > 0 && |recentFailures| < RECENT_LIMIT
      invariant 0 <= i <= |events|
      invariant NewestFailures(events[..i], recentFailures) == RecentFailures(events)
    {
      NewestUnfold(events, i, recentFailures);
      i := i - 1;
      var ev := events[i];
      if !ev.success && Trim(ev.failure) != "" && ev.failure !in recentFailures {
        recentFailures := recentFailures + [ev.failure];
      }
    }
    NewestDone(events[..i], recentFailures);
  }

  lemma CollectStart(events: seq<NetworkEvent>)
    ensures NewestFailures(events, []) == RecentFailures(events)
  {
  }

  lemma NewestDone(events: seq<NetworkEvent>, found: seq<string>)
    requires events == [] || |found| >= RECENT_LIMIT
    ensures NewestFailures(events, found) == found
  {
  }

  /** The score of the strict loop, step by step. */
  method ScoreOf(p: Profile, a: Tally, recentFailures: seq<string>) returns (score: real)
    ensures score == Score(p, a, recentFailures)
  {
    hide EqualFold, Blank;
    var successRate := p.health.successEWMA;
    if a.totalW > 0.0 {
      successRate := a.successW / a.totalW;
    }
    var latency := p.health.medianHandshakeMs as real;
    if a.latencyWW > 0.0 {
      latency := a.latencyW / a.latencyWW;
    }
    var failCount := a.failW + p.health.consecutiveFails as real;
    score := successRate * 100.0 - latency / 10.0 - failCount * 5.0;
    score := score + TrustOf(p) as real * 0.2;
    if "UDP_BLOCKED" in recentFailures {
      if EqualFold(p.capabilities.transport, "tcp") {
        score := score + 8.0;
      }
      if EqualFold(p.capabilities.transport, "udp") {
        score := score - 12.0;
      }
    }
    if "TLS_BLOCKED" in recentFailures && !Blank(p.credentials.utlsFingerprint) {
      score := score + 3.0;
    }
  }

  method CopyMap(from: map<string, int>) returns (to: map<string, int>)
    ensures to == from
  {
    to := map[];
    var keys := from.Keys;
    while keys != {}
      invariant keys <= from.Keys && to.Keys == from.Keys - keys
      invariant forall k :: k in to ==> to[k] == from[k]
    {
      var k :| k in keys;
      to := to[k := from[k]];
      keys := keys - {k};
    }
  }

  method RecentSelectionStreak(history: seq<string>, id: string) returns (streak: nat)
    ensures streak == Streak(history, id)
  {
    streak := 0;
    var i := |history|;
    while i > 0 && history[i - 1] == id
      invariant 0 <= i <= |history|
      invariant streak + Streak(history[..i], id) == Streak(history, id)
    {
      assert history[..i][..i - 1] == history[..i - 1];
      streak, i := streak + 1, i - 1;
    }
  }

  method UseOrchestrator(scores: seq<ScoredProfile>, recentFailures: seq<string>) returns (use: bool)
    ensures use == ShouldUseOrchestrator(scores, recentFailures)
  {
    hide EqualFold;
    if |scores| > 1 {
      var gap := scores[0].score - scores[1].score;
      if (if gap < 0.0 then -gap else gap) <= DELTA_CLOSE {
        return true;
      }
    }
    if |recentFailures| >= 2 {
      return true;
    }
    for i := 0 to |recentFailures|
      invariant forall j :: 0 <= j < i ==> !EqualFold(recentFailures[j], "UNKNOWN")
    {
      if EqualFold(recentFailures[i], "UNKNOWN") {
        return true;
      }
    }
    return false;
  }

  lemma NothingPooled(m: Memory, now: int)
    ensures StrictPool(m, [], now) == [] && Map(Shown, []) == []
  {
  }

  lemma StrictSnoc(m: Memory, front: seq<Profile>, p: Profile, now: int)
    ensures StrictPool(m, front + [p], now) ==
            if Admitted(m, p, now) then StrictPool(m, front, now) + [Scored(m, p, now)] else StrictPool(m, front, now)
  {
    hide Admitted, Scored;
    assert (front + [p])[..|front|] == front;
  }

  lemma FallbackSnoc(m: Memory, front: seq<Profile>, p: Profile, now: int)
    ensures FallbackPool(m, front + [p], now) ==
            if Selectable(m, p, now) then FallbackPool(m, front, now) + [FallbackScored(p)] else FallbackPool(m, front, now)
  {
    hide Selectable;
    assert (front + [p])[..|front|] == front;
  }

  lemma ShownSnoc(pool: seq<Profile>, p: Profile)
    ensures Map(Shown, pool + [p]) == Map(Shown, pool) + [Shown(p)]
  {
  }
}
