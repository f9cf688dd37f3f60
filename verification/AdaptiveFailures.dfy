/** What recording one more failure of a profile does to that profile's score.  The failure weighs
    on the tally, but its name may also bring a bonus, push another name off the list of recent
    failures, and its event may push an older one out of the window. */
module AdaptiveFailures {
  import opened Text
  import opened Counting
  import opened Windows
  import opened Profiles
  import opened AdaptiveMemory
  import opened AdaptiveScores
  import opened AdaptiveRanking

  // ---------- the list of recent failures ----------

  function Without(s: seq<string>, f: string): (r: seq<string>)
    ensures |r| <= |s|
    ensures forall x :: x in r <==> x in s && x != f
  {
    if s == [] then []
    else
      assert s == s[..|s| - 1] + [s[|s| - 1]];
      if s[|s| - 1] == f then Without(s[..|s| - 1], f) else Without(s[..|s| - 1], f) + [s[|s| - 1]]
  }

  function FirstSix(s: seq<string>): seq<string> {
    if |s| <= RECENT_LIMIT then s else s[..RECENT_LIMIT]
  }

  /** The list once `f` is the newest failure. */
  function Renewed(recent: seq<string>, f: string): seq<string> {
    FirstSix([f] + Without(recent, f))
  }

  lemma WithoutSnoc(s: seq<string>, x: string, f: string)
    ensures Without(s + [x], f) == if x == f then Without(s, f) else Without(s, f) + [x]
  {
    assert (s + [x])[..|s|] == s;
  }

  lemma {:induction false} WithoutAbsent(s: seq<string>, f: string)
    requires f !in s
    ensures Without(s, f) == s
  {
    if s != [] {
      WithoutAbsent(s[..|s| - 1], f);
      assert s == s[..|s| - 1] + [s[|s| - 1]];
    }
  }

  lemma WithoutOnce(s: seq<string>, f: string)
    requires Distinct(s) && f in s
    ensures |Without(s, f)| == |s| - 1
  {
    var front, x := s[..|s| - 1], s[|s| - 1];
    assert s == front + [x];
    if x == f {
      WithoutAbsent(front, f);
    } else {
      WithoutOnce(front, f);
    }
  }

  lemma RenewedLength(found: seq<string>, f: string)
    requires Distinct(found) && |found| <= RECENT_LIMIT
    ensures |Renewed(found, f)| == RECENT_LIMIT <==> |found| == RECENT_LIMIT || (|found| == RECENT_LIMIT - 1 && f !in found)
    ensures |Renewed(found, f)| <= RECENT_LIMIT
  {
    if f in found {
      WithoutOnce(found, f);
    } else {
      WithoutAbsent(found, f);
    }
  }

  lemma CutKeeps(s: seq<string>, x: string)
    ensures |s| >= RECENT_LIMIT ==> FirstSix(s + [x]) == FirstSix(s)
    ensures |s| < RECENT_LIMIT ==> FirstSix(s + [x]) == s + [x] && FirstSix(s) == s
  {
  }

  /** Finding one more failure shows in the renewed list exactly if that has room for it. */
  lemma RenewedSnoc(found: seq<string>, f: string, x: string)
    ensures x == f ==> Renewed(found + [x], f) == Renewed(found, f)
    ensures x != f && |Without(found, f)| < RECENT_LIMIT - 1 ==> Renewed(found + [x], f) == Renewed(found, f) + [x]
    ensures x != f && |Without(found, f)| >= RECENT_LIMIT - 1 ==> Renewed(found + [x], f) == Renewed(found, f)
  {
    WithoutSnoc(found, x, f);
    CutKeeps([f] + Without(found, f), x);
    assert [f] + (Without(found, f) + [x]) == [f] + Without(found, f) + [x];
  }

  lemma RenewedMember(found: seq<string>, f: string, x: string)
    requires |Without(found, f)| < RECENT_LIMIT
    ensures x in Renewed(found, f) <==> x == f || x in found
    ensures |Renewed(found, f)| == |Without(found, f)| + 1
  {
  }

  /** Noting an event and renewing commute, as long as the renewed list has room. */
  lemma RenewedNoted(found: seq<string>, f: string, ev: NetworkEvent)
    requires Distinct(found) && |found| < RECENT_LIMIT
    ensures |Renewed(found, f)| < RECENT_LIMIT ==> Renewed(Noted(found, ev), f) == Noted(Renewed(found, f), ev)
    ensures |Renewed(found, f)| == RECENT_LIMIT ==> Renewed(Noted(found, ev), f) == Renewed(found, f)
  {
    hide Fails, Renewed, Without, Distinct;
    RenewedMember(found, f, ev.failure);
    RenewedSnoc(found, f, ev.failure);
  }

  lemma NotedDistinct(found: seq<string>, ev: NetworkEvent)
    requires Distinct(found) && |found| < RECENT_LIMIT
    ensures Distinct(Noted(found, ev)) && |Noted(found, ev)| <= RECENT_LIMIT
  {
    hide Fails;
  }

  lemma {:induction false} CollectRenewed(events: seq<NetworkEvent>, found: seq<string>, f: string)
    requires Distinct(found) && |found| <= RECENT_LIMIT
    ensures NewestFailures(events, Renewed(found, f)) == Renewed(NewestFailures(events, found), f)
    decreases |events|
  {
    hide Renewed, Noted, Distinct;
    RenewedLength(found, f);
    if events != [] && |found| < RECENT_LIMIT {
      var front, ev := events[..|events| - 1], events[|events| - 1];
      RenewedNoted(found, f, ev);
      NotedDistinct(found, ev);
      CollectRenewed(front, Noted(found, ev), f);
    }
  }

  /** A new failure comes first on the list of recent failures, and the sixth other one drops off. */
  lemma RecentAfterFailure(events: seq<NetworkEvent>, ev: NetworkEvent)
    requires Fails(ev)
    ensures RecentFailures(events + [ev]) == Renewed(RecentFailures(events), ev.failure)
  {
    assert (events + [ev])[..|events|] == events;
    assert Noted([], ev) == Renewed([], ev.failure);
    CollectRenewed(events, [], ev.failure);
  }

  // ---------- bonus and cost ----------

  /** What the transport and fingerprint adjustments gain when the list changes. */
  function Gain(p: Profile, before: seq<string>, after: seq<string>): real {
    UdpGain(p, before, after) + TlsAdjustment(p, after) - TlsAdjustment(p, before)
  }

  function UdpGain(p: Profile, before: seq<string>, after: seq<string>): real {
    UdpAdjustment(p, after) - UdpAdjustment(p, before)
  }

  /** What the tallies cost: success rate, latency, failure weight. */
  function Cost(p: Profile, before: Tally, after: Tally): real {
    (RateOf(p, before) - RateOf(p, after)) * 100.0 + (LatencyOf(p, after) - LatencyOf(p, before)) / 10.0
    + (after.failW - before.failW) * 5.0
  }

  predicate Enters(name: string, before: seq<string>, after: seq<string>) {
    name in after && name !in before
  }

  predicate Leaves(name: string, before: seq<string>, after: seq<string>) {
    name in before && name !in after
  }

  /** Who gains by a change of the list: a TCP profile when UDP failures enter it, a UDP profile when
      they leave it, and one with a fingerprint when TLS failures enter it, unless UDP weighs more. */
  lemma GainPositive(p: Profile, before: seq<string>, after: seq<string>)
    ensures var tcp, udp := EqualFold(p.capabilities.transport, "tcp"), EqualFold(p.capabilities.transport, "udp");
            var enters, leaves := Enters("UDP_BLOCKED", before, after), Leaves("UDP_BLOCKED", before, after);
            && !(tcp && udp)
            && (Gain(p, before, after) > 0.0 <==>
                 (tcp && enters) || (udp && leaves)
                 || (!(tcp && leaves) && !(udp && enters) && Enters("TLS_BLOCKED", before, after)
                     && !Blank(p.credentials.utlsFingerprint)))
  {
    assert ToLower("tcp")[0] == 't' && ToLower("udp")[0] == 'u';
    hide ToLower, Trim;
  }

  // ---------- the effect of one attempt ----------

  /** What stays in the window when one more event comes in. */
  function Kept(m: Memory): seq<NetworkEvent> {
    LastN(m.events, WithDefaults(m).maxEvents - 1)
  }

  lemma WindowAfter(events: seq<NetworkEvent>, ev: NetworkEvent, n: nat)
    requires n > 0
    ensures LastN(events + [ev], n) == LastN(events, n - 1) + [ev]
  {
  }

  /** The recorded failure, and the lists and tallies of the profile before and after, as they follow
      from the memory before. */
  function NewEvent(p: Profile, signal: AttemptSignal, failure: string, now: int): NetworkEvent {
    EventOf(p.id, signal, failure, now)
  }

  function GainOf(m: Memory, p: Profile, signal: AttemptSignal, failure: string): real {
    Gain(p, RecentFailures(m.events), Renewed(RecentFailures(Kept(m)), NormalizeFailure(signal, failure)))
  }

  function CostOf(m: Memory, p: Profile, signal: AttemptSignal, failure: string, now: int, later: int): real {
    Cost(p, DirectTally(m.events, p.id, later),
         AddEvent(DirectTally(Kept(m), p.id, later), NewEvent(p, signal, failure, now), later))
  }

  lemma AttemptEvents(m: Memory, p: Profile, signal: AttemptSignal, failure: string, now: int)
    requires m.enabled && !Blank(p.id) && !signal.connectOk
    ensures Attempted(m, p.id, signal, failure, now).events == Kept(m) + [NewEvent(p, signal, failure, now)]
    ensures Fails(NewEvent(p, signal, failure, now))
  {
    FailureName(signal, failure);
    hide NormalizeFailure, LastN, Blank;
    WindowAfter(m.events, NewEvent(p, signal, failure, now), WithDefaults(m).maxEvents);
  }

  lemma ScoreDifference(p: Profile, a: Tally, b: Tally, before: seq<string>, after: seq<string>)
    ensures Score(p, b, after) == Score(p, a, before) + Gain(p, before, after) - Cost(p, a, b)
  {
    hide RateOf, LatencyOf, UdpAdjustment, TlsAdjustment;
  }

  /** The exact effect of an accepted failure on the score at any later time: it falls if and only
      if what the renewed list gains is less than what the tallies cost, and both follow from the
      memory before the call. */
  lemma FailureEffect(m: Memory, p: Profile, signal: AttemptSignal, failure: string, now: int, later: int)
    requires m.enabled && !Blank(p.id) && !signal.connectOk
    ensures var before, after := Scored(m, p, later).health.score,
                                 Scored(Attempted(m, p.id, signal, failure, now), p, later).health.score;
            && after == before + GainOf(m, p, signal, failure) - CostOf(m, p, signal, failure, now, later)
            && (after < before <==> GainOf(m, p, signal, failure) < CostOf(m, p, signal, failure, now, later))
  {
    var ev := NewEvent(p, signal, failure, now);
    AttemptEvents(m, p, signal, failure, now);
    DirectSnoc(Kept(m), ev, p.id, later);
    RecentAfterFailure(Kept(m), ev);
    hide Attempted, Kept, DirectTally, AddEvent, RecentFailures, Renewed, Score, Gain, Cost, NormalizeFailure, Blank;
    ScoreDifference(p, DirectTally(m.events, p.id, later), AddEvent(DirectTally(Kept(m), p.id, later), ev, later),
                    RecentFailures(m.events), Renewed(RecentFailures(Kept(m)), ev.failure));
  }

  /** A failure that is not accepted changes no score. */
  lemma IgnoredFailure(m: Memory, p: Profile, signal: AttemptSignal, failure: string, now: int, later: int)
    requires !m.enabled || Blank(p.id)
    ensures Scored(Attempted(m, p.id, signal, failure, now), p, later) == Scored(m, p, later)
  {
    hide Blank, Score, DirectTally, RecentFailures;
  }

  // ---------- how large the cost is ----------

  lemma FailureCost(p: Profile, a: Tally, w: real)
    requires 0.0 <= a.successW && a.successW <= a.totalW && 0.1 <= w && p.health.successEWMA >= 0.0
    ensures Cost(p, a, a.(totalW := a.totalW + w, failW := a.failW + w)) >= 0.5
  {
    if a.totalW > 0.0 {
      LargerTotal(a.successW, a.totalW, w);
    } else {
      assert a.successW == 0.0;
    }
  }

  /** With room in the window, the cost is that of one more untimed failure. */
  lemma CostWithRoom(m: Memory, p: Profile, signal: AttemptSignal, failure: string, now: int, later: int)
    requires !signal.connectOk && |m.events| < WithDefaults(m).maxEvents && signal.latencyMs <= 0
    ensures var a, w := DirectTally(m.events, p.id, later), DecayWeight(later, now);
            CostOf(m, p, signal, failure, now, later) == Cost(p, a, a.(totalW := a.totalW + w, failW := a.failW + w))
  {
    assert Kept(m) == m.events;
    hide DirectTally, Kept, NormalizeFailure, Cost, DecayWeight;
  }

  /** As long as nothing is pushed out of the window, a failure reported without a latency costs at
      least half a point, so that the score falls unless the renewed list gains. */
  lemma FailureLowers(m: Memory, p: Profile, signal: AttemptSignal, failure: string, now: int, later: int)
    requires m.enabled && !Blank(p.id) && !signal.connectOk
    requires |m.events| < WithDefaults(m).maxEvents && signal.latencyMs <= 0 && p.health.successEWMA >= 0.0
    ensures CostOf(m, p, signal, failure, now, later) >= 0.5
    ensures Scored(Attempted(m, p.id, signal, failure, now), p, later).health.score
         <= Scored(m, p, later).health.score + GainOf(m, p, signal, failure) - 0.5
  {
    hide *;
    FailureEffect(m, p, signal, failure, now, later);
    CostWithRoom(m, p, signal, failure, now, later);
    TallyInRange(m.events, p.id, later);
    FailureCost(p, DirectTally(m.events, p.id, later), DecayWeight(later, now));
  }

  lemma TallyInRange(events: seq<NetworkEvent>, id: string, now: int)
    ensures var a := DirectTally(events, id, now);
            0.0 <= a.successW <= a.totalW
  {
    TallySplits(events, id, now);
    hide DirectTally;
  }

  // ---------- pushing the oldest event out ----------

  lemma {:induction false} PartSumCons(part: Part, events: seq<NetworkEvent>, id: string, now: int)
    requires events != []
    ensures PartSum(part, events, id, now) == Share(part, events[0], id, now) + PartSum(part, events[1..], id, now)
  {
    hide Share;
    if |events| == 1 {
      assert events[..0] == [] && events[1..] == [];
    } else {
      var n := |events| - 1;
      PartSumCons(part, events[..n], id, now);
      assert events[..n][1..] == events[1..][..n - 1];
    }
  }

  /** The tally without the oldest event. */
  lemma TallyCons(events: seq<NetworkEvent>, id: string, now: int)
    requires events != [] && (events[0].profileId == id ==> events[0].latency <= 0)
    ensures var a, r, w := DirectTally(events, id, now), DirectTally(events[1..], id, now), DecayWeight(now, events[0].timestamp);
            && a.latencyW == r.latencyW && a.latencyWW == r.latencyWW
            && (events[0].profileId != id ==> a == r)
            && (events[0].profileId == id && events[0].success ==>
                 a.successW == r.successW + w && a.totalW == r.totalW + w && a.failW == r.failW)
            && (events[0].profileId == id && !events[0].success ==>
                 a.successW == r.successW && a.totalW == r.totalW + w && a.failW == r.failW + w)
  {
    hide PartSum, DecayWeight;
    PartSumCons(Successes, events, id, now);
    PartSumCons(Attempts, events, id, now);
    PartSumCons(Latencies, events, id, now);
    PartSumCons(Timed, events, id, now);
    PartSumCons(Failures, events, id, now);
  }

  lemma CrossMultiply(x: real, y: real, u: real, v: real)
    requires y > 0.0 && v > 0.0 && x * v <= u * y
    ensures x / y <= u / v
  {
    var q, r := x / y, u / v;
    assert q * y == x && r * v == u;
    assert r * (y * v) == u * y && q * (y * v) == x * v;
    if q > r {
      Cancel(r, q, y * v);
    }
  }

  /** Losing a success and gaining a failure does not raise the rate. */
  lemma RateEvicted(s: real, t: real, w0: real, w: real)
    requires 0.0 < w0 <= s <= t && w > 0.0
    ensures (s - w0) / (t - w0 + w) <= s / t
  {
    assert (s - w0) * t == s * t - w0 * t;
    assert s * (t - w0 + w) == s * t - s * w0 + s * w;
    assert w0 * t >= w0 * s by { Ordered(w0, s, t); }
    assert s * w0 == w0 * s;
    assert s * w >= 0.0;
    CrossMultiply(s - w0, t - w0 + w, s, t);
  }

  lemma Ordered(c: real, x: real, y: real)
    requires c >= 0.0 && x <= y
    ensures c * x <= c * y
  {
  }

  lemma EvictedCost(p: Profile, a: Tally, r: Tally, w0: real, w: real, wasSuccess: bool)
    requires 0.0 <= r.successW <= r.totalW && 0.0 < w0 <= w && 0.1 <= w && r.failW >= 0.0
    requires a.latencyW == r.latencyW && a.latencyWW == r.latencyWW
    requires wasSuccess ==> a.successW == r.successW + w0 && a.totalW == r.totalW + w0 && a.failW == r.failW
    requires !wasSuccess ==> a.successW == r.successW && a.totalW == r.totalW + w0 && a.failW == r.failW + w0
    ensures Cost(p, a, r.(totalW := r.totalW + w, failW := r.failW + w)) >= if wasSuccess then 0.5 else 0.0
  {
    if wasSuccess {
      RateEvicted(a.successW, a.totalW, w0, w);
    } else {
      LargerTotal(a.successW, a.totalW, w - w0);
    }
  }

  lemma CostWhenFull(m: Memory, p: Profile, signal: AttemptSignal, failure: string, now: int, later: int)
    requires !signal.connectOk && |m.events| == WithDefaults(m).maxEvents && signal.latencyMs <= 0
    ensures var a, r, w := DirectTally(m.events, p.id, later), DirectTally(m.events[1..], p.id, later), DecayWeight(later, now);
            CostOf(m, p, signal, failure, now, later) == Cost(p, a, r.(totalW := r.totalW + w, failW := r.failW + w))
  {
    assert Kept(m) == m.events[1..];
    hide DirectTally, Kept, NormalizeFailure, Cost, DecayWeight;
  }

  /** A full window is no way out: pushing out an older event that carries no latency of the profile
      never makes a failure pay, and costs half a point unless that event was a failure of its own. */
  lemma FullWindowCost(m: Memory, p: Profile, signal: AttemptSignal, failure: string, now: int, later: int)
    requires !signal.connectOk && |m.events| == WithDefaults(m).maxEvents && signal.latencyMs <= 0
    requires m.events[0].timestamp <= now && (m.events[0].profileId == p.id ==> m.events[0].latency <= 0)
    requires p.health.successEWMA >= 0.0
    ensures CostOf(m, p, signal, failure, now, later)
         >= if m.events[0].profileId == p.id && !m.events[0].success then 0.0 else 0.5
  {
    var oldest := m.events[0];
    var a, r := DirectTally(m.events, p.id, later), DirectTally(m.events[1..], p.id, later);
    var w0, w := DecayWeight(later, oldest.timestamp), DecayWeight(later, now);
    CostWhenFull(m, p, signal, failure, now, later);
    TallyCons(m.events, p.id, later);
    TallyInRange(m.events[1..], p.id, later);
    TallySplits(m.events[1..], p.id, later);
    DecayMonotone(later, oldest.timestamp, now);
    hide DirectTally, Cost, CostOf, DecayWeight, Mentioned, MentionedTimed;
    if oldest.profileId == p.id {
      EvictedCost(p, a, r, w0, w, oldest.success);
    } else {
      FailureCost(p, r, w);
    }
  }

  // ---------- a failure that pays ----------

  /** A failed attempt can raise the score of the profile that failed.  The first recorded event, a
      UDP block reported by a TCP profile without earlier successes, lifts that profile by three
      points at once and by four when its cooldown ends. */
  lemma RisingFailure(maxEvents: int, p: Profile, now: int)
    requires EqualFold(p.capabilities.transport, "tcp") && p.health.successEWMA == 0.0 && !Blank(p.id)
    ensures var m := NewMemory(maxEvents);
            var after := Attempted(m, p.id, AttemptSignal(0, false, true, true, true), "UDP_BLOCKED", now);
            && Scored(after, p, now).health.score == Scored(m, p, now).health.score + 3.0
            && Scored(after, p, now + 60).health.score == Scored(m, p, now + 60).health.score + 4.0
            && CooldownOf(after, p.id) <= now + 60
  {
    var m, signal := NewMemory(maxEvents), AttemptSignal(0, false, true, true, true);
    var after := Attempted(m, p.id, signal, "UDP_BLOCKED", now);
    UdpBlockedName(signal);
    FirstFailureGain(m, p, signal);
    FirstFailureCost(m, p, signal, now, now);
    FirstFailureCost(m, p, signal, now, now + 60);
    FailureEffect(m, p, signal, "UDP_BLOCKED", now, now);
    FailureEffect(m, p, signal, "UDP_BLOCKED", now, now + 60);
    assert CooldownOf(after, p.id) <= now + 60 by {
      hide Blank, NormalizeFailure, LastN;
    }
    hide NormalizeFailure, Attempted, Scored, GainOf, CostOf, EqualFold, Blank, CooldownOf;
  }

  lemma UdpBlockedName(signal: AttemptSignal)
    ensures NormalizeFailure(signal, "UDP_BLOCKED") == "UDP_BLOCKED"
  {
    PlainNames();
    PlainIsFixed("UDP_BLOCKED");
    hide Plain, ToUpper, Trim;
  }

  lemma FirstFailureGain(m: Memory, p: Profile, signal: AttemptSignal)
    requires EqualFold(p.capabilities.transport, "tcp") && m.events == []
    requires NormalizeFailure(signal, "UDP_BLOCKED") == "UDP_BLOCKED"
    ensures GainOf(m, p, signal, "UDP_BLOCKED") == 8.0
  {
    assert ToLower("tcp")[0] == 't' && ToLower("udp")[0] == 'u';
    hide NormalizeFailure, ToLower, Trim;
    assert Kept(m) == [] && RecentFailures([]) == [];
    assert Renewed([], "UDP_BLOCKED") == ["UDP_BLOCKED"];
  }

  lemma FirstFailureCost(m: Memory, p: Profile, signal: AttemptSignal, now: int, later: int)
    requires m.events == [] && !signal.connectOk && signal.latencyMs <= 0 && p.health.successEWMA == 0.0
    ensures CostOf(m, p, signal, "UDP_BLOCKED", now, later) == DecayWeight(later, now) * 5.0
  {
    CostWithRoom(m, p, signal, "UDP_BLOCKED", now, later);
    assert DirectTally([], p.id, later) == NO_TALLY;
    hide CostOf, DirectTally;
    assert 0.0 / DecayWeight(later, now) == 0.0;
  }
}
