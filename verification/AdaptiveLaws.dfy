/** What single steps of the adaptive policy leave behind, told by names, counts and fields: failure
    names, the newest event, the length of the window, who may be selected, and the decision. */
module AdaptiveLaws {
  import opened Text
  import opened Windows
  import opened Sorting
  import opened Profiles
  import opened AdaptiveMemory
  import opened AdaptiveRuns
  import opened AdaptiveScores
  import opened AdaptiveRanking
  import Engine
  import Folds

  // ---------- failure names ----------

  /** A reported name counts without the white space around it and in upper case; a blank one, and
      UNKNOWN, leave the question to the signal. */
  predicate Unnamed(name: string) {
    name == "" || name == "UNKNOWN"
  }

  const DNS_NAMES: set<string> := {"DNS_FAILURE", "DNS_BLOCKED", "DNS_POISON_SUSPECTED"}
  const UDP_NAMES: set<string> := {"UDP_BLOCK_SUSPECTED", "UDP_BLOCKED"}
  const TLS_NAMES: set<string> := {"TLS_BLOCKED", "TLS_FAILURE"}
  const ROUTE_NAMES: set<string> := {"NO_ROUTE", "NETWORK_BLOCKED"}
  const RESET_NAMES: set<string> := {"TCP_RESET", "ACTIVE_RESET_SUSPECTED"}

  /** Exactly which reports are recorded under which of the names the policy reacts to. */
  lemma FailureTable(signal: AttemptSignal, failure: string)
    ensures var name, recorded := ToUpper(Trim(failure)), NormalizeFailure(signal, failure);
            && (recorded == "DNS_BLOCKED" <==> name in DNS_NAMES || (Unnamed(name) && !signal.dnsOk))
            && (recorded == "TLS_BLOCKED" <==>
                 name in TLS_NAMES || (Unnamed(name) && signal.dnsOk && signal.tcpHandshake && !signal.tlsSuccess))
            && (recorded == "TCP_RESET" <==> name in RESET_NAMES || (Unnamed(name) && signal.dnsOk && !signal.tcpHandshake))
            && (recorded == "UNKNOWN" <==> Unnamed(name) && signal.dnsOk && signal.tcpHandshake && signal.tlsSuccess)
    ensures var name, recorded := ToUpper(Trim(failure)), NormalizeFailure(signal, failure);
            && (recorded == "UDP_BLOCKED" <==> name in UDP_NAMES)
            && (recorded == "NO_ROUTE" <==> name in ROUTE_NAMES)
            && (!Unnamed(name) && name !in DNS_NAMES + UDP_NAMES + TLS_NAMES + ROUTE_NAMES + RESET_NAMES ==> recorded == name)
  {
    hide ToUpper, Trim;
    NamesApart();
  }

  lemma NamesApart()
    ensures "DNS_BLOCKED" != "TLS_BLOCKED" && "DNS_BLOCKED" != "TCP_RESET" && "DNS_BLOCKED" != "UNKNOWN"
    ensures "DNS_BLOCKED" != "UDP_BLOCKED" && "DNS_BLOCKED" != "NO_ROUTE" && "DNS_BLOCKED" != "TIMEOUT"
    ensures "TLS_BLOCKED" != "TCP_RESET" && "TLS_BLOCKED" != "UNKNOWN" && "TLS_BLOCKED" != "UDP_BLOCKED"
    ensures "TLS_BLOCKED" != "NO_ROUTE" && "TLS_BLOCKED" != "TIMEOUT" && "TCP_RESET" != "UNKNOWN"
    ensures "TCP_RESET" != "UDP_BLOCKED" && "TCP_RESET" != "NO_ROUTE" && "TCP_RESET" != "TIMEOUT"
    ensures "UNKNOWN" != "UDP_BLOCKED" && "UNKNOWN" != "NO_ROUTE" && "UNKNOWN" != "TIMEOUT"
    ensures "UDP_BLOCKED" != "NO_ROUTE" && "UDP_BLOCKED" != "TIMEOUT" && "NO_ROUTE" != "TIMEOUT"
  {
    assert "DNS_BLOCKED"[0] == 'D' && "TLS_BLOCKED"[0] == 'T' && "TLS_BLOCKED"[1] == 'L' && "TCP_RESET"[1] == 'C';
    assert "UNKNOWN"[1] == 'N' && "UDP_BLOCKED"[1] == 'D' && "NO_ROUTE"[0] == 'N' && "TIMEOUT"[1] == 'I';
  }

  // ---------- what an attempt leaves behind ----------

  /** An accepted attempt is the newest event, as it was reported; a failure blocks its profile for
      sixty seconds, and nothing else changes but the oldest event. */
  lemma AttemptRemembered(m: Memory, id: string, signal: AttemptSignal, failure: string, now: int)
    requires m.enabled && !Blank(id) && 50 <= m.maxEvents <= 100 && |m.events| <= m.maxEvents
    ensures var after := Attempted(m, id, signal, failure, now);
            var ev := NetworkEvent(now, id, signal.connectOk, signal.latencyMs, NormalizeFailure(signal, failure));
            && after.events == (if |m.events| < m.maxEvents then m.events else m.events[1..]) + [ev]
            && after.enabled && after.maxEvents == m.maxEvents && after.history == m.history
            && CooldownOf(after, id) == (if signal.connectOk then CooldownOf(m, id) else now + 60)
            && forall other :: other != id ==> CooldownOf(after, other) == CooldownOf(m, other)
  {
    hide Blank, NormalizeFailure;
  }

  /** A selection lengthens its own streak, as far as the history of 32 shows it, and ends every other;
      a blank one is none. */
  lemma SelectionRemembered(m: Memory, id: string, other: string)
    requires |m.history| <= 32 && other != id
    ensures Blank(id) ==> Selected(m, id) == m
    ensures var n := Streak(m.history, id) + 1;
            !Blank(id) ==> Streak(Selected(m, id).history, id) == if n > 32 then 32 else n
    ensures !Blank(id) ==> Streak(Selected(m, id).history, other) == 0
    ensures Selected(m, id) == m.(history := Selected(m, id).history)
  {
    hide Blank;
    var longer := m.history + [id];
    assert longer[..|m.history|] == m.history;
    StreakInWindow(longer, id, 32);
    StreakInWindow(longer, other, 32);
    hide LastN;
  }

  /** The window is never longer than asked for, within fifty to a hundred, and never forgets an event
      that still fits. */
  lemma WindowLength(maxEvents: int, ops: seq<Op>)
    ensures var n := if maxEvents < 50 then 50 else if maxEvents > 100 then 100 else maxEvents;
            |After(NewMemory(maxEvents), ops).events| == if |Log(ops)| < n then |Log(ops)| else n
    ensures |After(NewMemory(maxEvents), ops).history| == if |Picks(ops)| < 32 then |Picks(ops)| else 32
  {
    BoundedMemory(maxEvents, ops);
    hide After, Log, Picks, On, CooldownsOf, NewMemory;
  }

  /** A stored window size that is out of range becomes eighty. */
  lemma WindowRepaired(m: Memory)
    ensures var r := WithDefaults(m);
            r == m.(maxEvents := if 50 <= m.maxEvents <= 100 then m.maxEvents else 80)
  {
  }

  // ---------- who may be selected ----------

  /** Switched on, and past both cooldowns. */
  predicate MaySelect(m: Memory, p: Profile, now: int) {
    && p.enabled && !p.manualDisabled && p.health.cooldownUntil <= now
    && (if p.id in m.cooldown then m.cooldown[p.id] <= now else 0 <= now)
  }

  lemma CopyMaySelect(m: Memory, profiles: seq<Profile>, now: int, q: Profile)
    requires CopyOf(m, profiles, now, q)
    ensures MaySelect(m, q, now)
  {
    hide DnsDependent, DirectTally, RecentFailures, Score;
  }

  /** Every entry of a ranking is switched on and past both cooldowns, and there is one as soon as some
      input is. */
  lemma RankedMaySelect(m: Memory, profiles: seq<Profile>, now: int, ranked: seq<Profile>, d: Decision)
    requires m.enabled && Decided(m, profiles, now, ranked, d)
    ensures forall q :: q in ranked ==> MaySelect(m, q, now)
    ensures ranked == [] <==> forall i :: 0 <= i < |profiles| ==> !MaySelect(m, profiles[i], now)
    ensures ranked == [] <==> d.selected == "" && d.reason == NoSelectableProfiles
  {
    NeverCollapses(m, profiles, now, ranked, d);
    assert DecisionFrom(m, ranked, d);
    hide Decided, RecentFailures, Streak, Score, CopyOf;
    forall q | q in ranked ensures MaySelect(m, q, now) {
      RankedAreCopies(m, profiles, now, ranked, d, q);
      hide *;
      CopyMaySelect(m, profiles, now, q);
    }
  }

  /** The engine finds a profile exactly if some input is switched on and past its health cooldown, and
      ranks only such profiles. */
  lemma EngineFinds(a: Engine.AdaptivePart, profiles: seq<Profile>, n1: int, n2: int, n3: int,
                    p: Profile, d: Decision, ranked: seq<Profile>)
    requires Engine.SelectAnswer(a, profiles, n1, n2, n3, p, d, ranked) && n1 <= n3 && n2 <= n3
    ensures ranked != [] <==>
            exists i :: 0 <= i < |profiles| && profiles[i].enabled && !profiles[i].manualDisabled && profiles[i].health.cooldownUntil <= n3
    ensures forall q :: q in ranked ==> q.enabled && !q.manualDisabled && q.health.cooldownUntil <= n3
  {
    Engine.NonEmptyIff(a, profiles, n1, n2, n3, p, d, ranked);
    hide Engine.SelectAnswer;
    forall q | q in ranked ensures q.enabled && !q.manualDisabled && q.health.cooldownUntil <= n3 {
      Engine.RankedFromInputs(a, profiles, n1, n2, n3, p, d, ranked, q);
    }
  }

  // ---------- the decision ----------

  /** The guard reports itself exactly when it moves, and the reason carries the score of the profile
      that is reported as selected. */
  lemma DecisionExplained(m: Memory, profiles: seq<Profile>, now: int, ranked: seq<Profile>, d: Decision)
    requires m.enabled && Decided(m, profiles, now, ranked, d) && ranked != []
    ensures d.reason.DiversityGuard? <==>
            |ranked| > 1 && Streak(m.history, ranked[0].id) >= 10 && ranked[0].health.score - ranked[1].health.score <= 5.0
    ensures d.reason.DiversityGuard? ==>
              d.selected == ranked[1].id && d.reason == DiversityGuard(ranked[0].id, Streak(m.history, ranked[0].id), ranked[1].health.score)
    ensures !d.reason.DiversityGuard? ==> d.selected == ranked[0].id && d.reason == BestScore(ranked[0].health.score)
  {
    assert DecisionFrom(m, ranked, d);
    hide Decided, RecentFailures, Streak, ShouldUseOrchestrator;
  }

  /** The advisor is asked when the two best displayed scores are at most three points apart, when two
      different failures are recent, or when one of them has no name. */
  lemma AdvisorAsked(m: Memory, profiles: seq<Profile>, now: int, ranked: seq<Profile>, d: Decision)
    requires m.enabled && Decided(m, profiles, now, ranked, d) && ranked != []
    ensures d.useOrchestrator <==>
            || (|d.scores| > 1 && d.scores[0].score <= d.scores[1].score + 3.0)
            || |RecentFailures(m.events)| >= 2
            || exists f :: f in RecentFailures(m.events) && ToUpper(f) == "UNKNOWN"
  {
    assert DecisionFrom(m, ranked, d) && Sorted(BetterScore, d.scores);
    hide Decided, RecentFailures, Streak, Guarded, Sorted;
    assert |d.scores| > 1 ==> d.scores[0].score >= d.scores[1].score by { FirstTwo(d.scores); }
    forall f ensures EqualFold(f, "UNKNOWN") <==> ToUpper(f) == "UNKNOWN" {
      FoldsToUpper(f);
    }
    hide EqualFold, ToUpper;
    var failures := RecentFailures(m.events);
    if f :| f in failures && ToUpper(f) == "UNKNOWN" {
      var i :| 0 <= i < |failures| && failures[i] == f;
      assert EqualFold(failures[i], "UNKNOWN");
    }
  }

  lemma FirstTwo(scores: seq<ScoredProfile>)
    requires Sorted(BetterScore, scores)
    ensures |scores| > 1 ==> scores[0].score >= scores[1].score
  {
    if |scores| > 1 {
      assert BetterScore(scores[0], scores[1]);
    }
  }

  lemma FoldsChar(c: char, d: char)
    requires 'A' <= d <= 'Z'
    ensures LowerChar(c) == LowerChar(d) <==> UpperChar(c) == d
  {
  }

  lemma FoldsToUpper(f: string)
    ensures EqualFold(f, "UNKNOWN") <==> ToUpper(f) == "UNKNOWN"
  {
    var u := "UNKNOWN";
    forall i | 0 <= i < |f| && i < |u| ensures LowerChar(f[i]) == LowerChar(u[i]) <==> UpperChar(f[i]) == u[i] {
      FoldsChar(f[i], u[i]);
    }
    hide LowerChar, UpperChar;
    if EqualFold(f, u) {
      assert |f| == |ToLower(f)| == |ToLower(u)| == |u|;
      assert forall i :: 0 <= i < |f| ==> ToLower(f)[i] == LowerChar(f[i]) && ToLower(u)[i] == LowerChar(u[i]);
    }
    if ToUpper(f) == u {
      assert |f| == |u|;
      assert forall i :: 0 <= i < |f| ==> ToUpper(f)[i] == UpperChar(f[i]);
    }
  }

  /** Without the adaptive state's answer the engine reports what it returns, asks no advisor, and
      displays the ranking as it is. */
  lemma FallbackExplained(a: Engine.AdaptivePart, profiles: seq<Profile>, n1: int, n2: int, n3: int,
                          p: Profile, d: Decision, ranked: seq<Profile>)
    requires Engine.SelectAnswer(a, profiles, n1, n2, n3, p, d, ranked) && ranked != []
    requires !Engine.AdaptiveServes(a, profiles, n1)
    ensures d.selected == p.id == ranked[0].id && d.reason == DeterministicFallback(p.health.score) && !d.useOrchestrator
    ensures |d.scores| == |ranked|
    ensures forall i :: 0 <= i < |ranked| ==> d.scores[i] == ScoredProfile(ranked[i].id, ranked[i].health.score)
  {
    Engine.WhoAnswers(a, profiles, n1, n2, n3, p, d, ranked);
    hide Engine.AdaptiveAnswer, Engine.Silent, Engine.RankAnswer, Engine.AdaptiveServes;
  }

  // ---------- displayed scores ----------

  /** Every displayed entry is that of a ranked profile, with its score rounded. */
  lemma DisplayedEntry(m: Memory, profiles: seq<Profile>, now: int, ranked: seq<Profile>, d: Decision, i: nat)
    requires m.enabled && Decided(m, profiles, now, ranked, d) && i < |d.scores|
    ensures exists q :: q in ranked && d.scores[i].profileId == q.id && d.scores[i].score == Rounded(q.health.score)
  {
    hide Pool, DecisionFrom, Rounded;
    var pool := Pool(m, profiles, now);
    SameElements(ranked, pool);
    SameElements(d.scores, Folds.Map(Shown, pool));
    assert d.scores[i] in d.scores;
    var k :| 0 <= k < |pool| && Folds.Map(Shown, pool)[k] == d.scores[i];
    assert pool[k] in pool;
  }

  lemma NearestBelow(x: real) returns (n: int)
    requires x >= 0.0
    ensures Rounded(x) == n as real / 10.0 && n as real <= x * 10.0 + 0.5 < n as real + 1.0
  {
    n := (x * 10.0 + 0.5).Floor;
  }

  lemma Mirrored(x: real)
    requires x > 0.0
    ensures Rounded(-x) == -Rounded(x)
  {
    assert -(-x) == x;
  }

  /** Displayed scores are the nearest tenths, halves away from zero. */
  lemma NearestTenth(x: real) returns (n: int)
    ensures Rounded(x) == n as real / 10.0
    ensures x >= 0.0 ==> x - 0.05 < Rounded(x) <= x + 0.05
    ensures x < 0.0 ==> x - 0.05 <= Rounded(x) < x + 0.05
  {
    if x >= 0.0 {
      n := NearestBelow(x);
    } else {
      var m := NearestBelow(-x);
      Mirrored(-x);
      n := -m;
    }
    hide Rounded;
  }
}
