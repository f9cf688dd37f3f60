/** What the three score formulas promise: which changes of a profile raise a score, by how much, and
    that a profile with better figures never scores lower. */
module ScoreLaws {
  import opened Text
  import opened Profiles
  import opened AdaptiveMemory
  import opened AdaptiveScores
  import opened AdaptiveRanking
  import opened Engine
  import opened Validate

  // ---------- decay ----------

  /** The weight falls evenly from one at no age to one tenth after four and a half minutes. */
  lemma DecayShape(now: int, age: nat)
    ensures age <= 270 ==> DecayWeight(now, now - age) == 1.0 - age as real / 300.0
    ensures age >= 270 ==> DecayWeight(now, now - age) == 0.1
    ensures DecayWeight(now, now + age) == 1.0
  {
  }

  // ---------- the adaptive score ----------

  function WithTrust(p: Profile, trust: int): Profile {
    p.(source := p.source.(trustLevel := trust))
  }

  /** At least as good in every figure that is kept with a profile. */
  predicate NoWorse(p: Profile, q: Profile) {
    && p.health.successEWMA >= q.health.successEWMA
    && p.health.medianHandshakeMs <= q.health.medianHandshakeMs
    && p.health.consecutiveFails <= q.health.consecutiveFails
    && TrustOf(p) >= TrustOf(q)
    && p.capabilities == q.capabilities && p.credentials == q.credentials
  }

  /** With the same tally and the same recent failures, better figures never score lower. */
  lemma AdaptiveMonotone(p: Profile, q: Profile, a: Tally, failures: seq<string>)
    requires NoWorse(p, q)
    ensures Score(p, a, failures) >= Score(q, a, failures)
  {
    hide TrustOf, UdpAdjustment, TlsAdjustment;
    assert UdpAdjustment(p, failures) == UdpAdjustment(q, failures) by { SameAdjustments(p, q, failures); }
    assert TlsAdjustment(p, failures) == TlsAdjustment(q, failures) by { SameAdjustments(p, q, failures); }
    TrustSteps(TrustOf(p), TrustOf(q));
  }

  lemma SameAdjustments(p: Profile, q: Profile, failures: seq<string>)
    requires p.capabilities == q.capabilities && p.credentials == q.credentials
    ensures UdpAdjustment(p, failures) == UdpAdjustment(q, failures) && TlsAdjustment(p, failures) == TlsAdjustment(q, failures)
  {
    hide EqualFold, Blank;
  }

  lemma TrustSteps(t: int, u: int)
    requires t >= u
    ensures t as real * 0.2 >= u as real * 0.2
  {
  }

  /** One point is one per cent of success, ten milliseconds, or five levels of trust; a consecutive
      failure costs five.  Measured figures count only until the window holds an attempt. */
  lemma AdaptiveSteps(p: Profile, a: Tally, failures: seq<string>)
    ensures var worse := p.(health := p.health.(consecutiveFails := p.health.consecutiveFails + 1));
            Score(worse, a, failures) == Score(p, a, failures) - 5.0
    ensures var better := p.(health := p.health.(successEWMA := p.health.successEWMA + 0.01));
            Score(better, a, failures) == Score(p, a, failures) + if a.totalW > 0.0 then 0.0 else 1.0
    ensures var slower := p.(health := p.health.(medianHandshakeMs := p.health.medianHandshakeMs + 10));
            Score(slower, a, failures) == Score(p, a, failures) - if a.latencyWW > 0.0 then 0.0 else 1.0
  {
    var worse := p.(health := p.health.(consecutiveFails := p.health.consecutiveFails + 1));
    var better := p.(health := p.health.(successEWMA := p.health.successEWMA + 0.01));
    var slower := p.(health := p.health.(medianHandshakeMs := p.health.medianHandshakeMs + 10));
    hide EqualFold, Blank;
    assert RateOf(worse, a) == RateOf(slower, a) == RateOf(p, a);
    assert RateOf(better, a) == RateOf(p, a) + if a.totalW > 0.0 then 0.0 else 0.01;
    assert LatencyOf(worse, a) == LatencyOf(better, a) == LatencyOf(p, a);
    assert LatencyOf(slower, a) == LatencyOf(p, a) + if a.latencyWW > 0.0 then 0.0 else 10.0;
    SameAdjustments(p, worse, failures);
    SameAdjustments(p, better, failures);
    SameAdjustments(p, slower, failures);
    assert TrustOf(worse) == TrustOf(better) == TrustOf(slower) == TrustOf(p);
    hide RateOf, LatencyOf, UdpAdjustment, TlsAdjustment, TrustOf;
  }

  lemma AdaptiveTrust(p: Profile, a: Tally, failures: seq<string>)
    ensures p.source.trustLevel > 0 ==>
              Score(WithTrust(p, p.source.trustLevel + 5), a, failures) == Score(p, a, failures) + 1.0
    ensures Score(WithTrust(p, 0), a, failures) == Score(WithTrust(p, 50), a, failures)
  {
    var q := WithTrust(p, p.source.trustLevel + 5);
    SameAdjustments(p, q, failures);
    SameAdjustments(p, WithTrust(p, 0), failures);
    SameAdjustments(p, WithTrust(p, 50), failures);
    hide UdpAdjustment, TlsAdjustment, EqualFold, Blank;
    assert RateOf(q, a) == RateOf(p, a) && LatencyOf(q, a) == LatencyOf(p, a);
  }

  /** One more success with the latency `ms` at a weight `w`: the rate rises to its new average, and
      the score of a profile without any attempt is that of a perfect one with that latency. */
  lemma FirstSuccess(p: Profile, failures: seq<string>, ev: NetworkEvent, now: int)
    requires ev.success && ev.latency > 0
    ensures Score(p, AddEvent(NO_TALLY, ev, now), failures)
         == 100.0 - ev.latency as real / 10.0 - p.health.consecutiveFails as real * 5.0
            + TrustOf(p) as real * 0.2 + UdpAdjustment(p, failures) + TlsAdjustment(p, failures)
  {
    hide DecayWeight, UdpAdjustment, TlsAdjustment, TrustOf;
    var w := DecayWeight(now, ev.timestamp);
    var a := AddEvent(NO_TALLY, ev, now);
    Cancels(ev.latency as real, w);
    Cancels(1.0, w);
    assert a.totalW == w && a.successW == w && a.failW == 0.0 && a.latencyW == ev.latency as real * w && a.latencyWW == w;
    assert RateOf(p, a) == 1.0 && LatencyOf(p, a) == ev.latency as real;
  }

  lemma Cancels(x: real, w: real)
    requires w > 0.0
    ensures (x * w) / w == x
  {
  }

  // ---------- the engine's score ----------

  /** Faster than `q`, where a handshake time of zero is none. */
  predicate Faster(p: Profile, q: Profile) {
    0 < p.health.medianHandshakeMs <= q.health.medianHandshakeMs || p.health.medianHandshakeMs == q.health.medianHandshakeMs
  }

  predicate EngineNoWorse(p: Profile, q: Profile) {
    && p.health.successEWMA >= q.health.successEWMA && Faster(p, q)
    && p.health.consecutiveFails <= q.health.consecutiveFails && p.health.failureCount <= q.health.failureCount
    && p.health.lastOkAt >= q.health.lastOkAt
    && TrustOf(p) >= TrustOf(q) && p.source.importedAt == q.source.importedAt
    && p.capabilities.transport == q.capabilities.transport
  }

  /** A profile that succeeds no less often, is no slower, fails no more, succeeded no earlier and is
      trusted no less never scores lower. */
  lemma EngineMonotone(p: Profile, q: Profile, now: int)
    requires EngineNoWorse(p, q)
    ensures EngineScore(p, now) >= EngineScore(q, now)
  {
    TrustSteps(TrustOf(p), TrustOf(q));
    hide TrustOf;
    assert LatencyBonus(p.health.medianHandshakeMs) >= LatencyBonus(q.health.medianHandshakeMs);
    hide LatencyBonus;
  }

  function WithLatency(p: Profile, ms: int): Profile {
    p.(health := p.health.(medianHandshakeMs := ms))
  }

  /** A consecutive failure costs fifteen points, a counted failure one, a per cent of success is one. */
  lemma EngineSteps(p: Profile, now: int)
    ensures var h := p.health;
            && EngineScore(p.(health := h.(consecutiveFails := h.consecutiveFails + 1)), now) == EngineScore(p, now) - 15.0
            && EngineScore(p.(health := h.(failureCount := h.failureCount + 1)), now) == EngineScore(p, now) - 1.0
            && EngineScore(p.(health := h.(successEWMA := h.successEWMA + 0.01)), now) == EngineScore(p, now) + 1.0
    ensures p.source.trustLevel > 0 ==> EngineScore(WithTrust(p, p.source.trustLevel + 5), now) == EngineScore(p, now) + 1.0
    ensures EngineScore(WithTrust(p, 0), now) == EngineScore(WithTrust(p, 50), now)
    ensures var c := p.capabilities;
            && EngineScore(p.(capabilities := c.(transport := "tcp")), now)
               == EngineScore(p.(capabilities := c.(transport := "udp")), now) + 1.0
  {
    hide LatencyBonus;
    assert "udp"[0] != "tcp"[0];
  }

  /** Handshakes below 300 ms gain ten points, those above a second cost ten, unknown ones neither. */
  lemma EngineLatency(p: Profile, now: int, fast: int, middle: int, slow: int)
    requires 0 < fast < 300 <= middle <= 1000 < slow
    ensures EngineScore(WithLatency(p, fast), now) == EngineScore(WithLatency(p, middle), now) + 10.0
    ensures EngineScore(WithLatency(p, slow), now) == EngineScore(WithLatency(p, middle), now) - 10.0
    ensures EngineScore(WithLatency(p, 0), now) == EngineScore(WithLatency(p, middle), now)
  {
  }

  /** A success is recent for an hour and worth five points; an import is fresh for a week and worth
      three. */
  lemma EngineFreshness(p: Profile, now: int, since: int)
    ensures var seen, unseen := p.(health := p.health.(lastOkAt := since)), p.(health := p.health.(lastOkAt := now - 3600));
            EngineScore(seen, now) == EngineScore(unseen, now) + if now - since < 3600 then 5.0 else 0.0
    ensures since > 0 ==>
              var imported, never := p.(source := p.source.(importedAt := since)), p.(source := p.source.(importedAt := 0));
              EngineScore(imported, now) == EngineScore(never, now) + if now - since < 604800 then 3.0 else 0.0
  {
    hide LatencyBonus;
  }

  // ---------- the bundle's score ----------

  /** A level of trust is worth one point and a priority ten. */
  lemma CandidateSteps(p: Profile, now: int, trust: int, priority: int)
    ensures ScoreCandidate(p.(source := p.source.(trustLevel := trust), priority := priority), now)
         == ScoreCandidate(p, now) + (trust - p.source.trustLevel) + 10 * (priority - p.priority)
  {
  }

  predicate NoWorseCandidate(p: Profile, q: Profile) {
    && p.source.trustLevel >= q.source.trustLevel && p.priority >= q.priority && p.createdAt >= q.createdAt
    && (p.expiresAt == 0 || (q.expiresAt != 0 && p.expiresAt >= q.expiresAt))
  }

  /** More trust, a higher priority, a later creation and a later expiry never score lower. */
  lemma CandidateMonotone(p: Profile, q: Profile, now: int)
    requires NoWorseCandidate(p, q)
    ensures ScoreCandidate(p, now) >= ScoreCandidate(q, now)
  {
  }

  /** Fifteen points in the first week, five in the first thirty days, and twenty less in the last two
      days before the expiry. */
  lemma CandidateAges(p: Profile, now: int, age: nat)
    requires p.source.trustLevel == 0 && p.priority == 0
    ensures var q := p.(createdAt := now - age, expiresAt := 0);
            ScoreCandidate(q, now) == if age < 7 * 86400 then 15 else if age < 30 * 86400 then 5 else 0
    ensures var q, r := p.(createdAt := now - age, expiresAt := 0), p.(createdAt := now - age);
            p.expiresAt != 0 ==> ScoreCandidate(r, now) == ScoreCandidate(q, now) - if p.expiresAt < now + 2 * 86400 then 20 else 0
    ensures ScoreCandidate(p.(createdAt := now + age, expiresAt := 0), now) == 15
  {
  }
}
