/** The weighted tallies over the window and the score they give a profile (pkg/policy/adaptive.go). */
module AdaptiveScores {
  import opened Text
  import opened Counting
  import opened Profiles
  import opened AdaptiveMemory

  const RECENT_LIMIT := 6

  /** Linear decay over five minutes, down to one tenth. */
  function DecayWeight(now: int, eventTime: int): (w: real)
    ensures 0.1 <= w <= 1.0
  {
    var age := now - eventTime;
    if age <= 0 then 1.0
    else
      var w := 1.0 - (age as real) / 300.0;
      if w < 0.1 then 0.1 else w
  }

  /** Older events never weigh more. */
  lemma DecayMonotone(now: int, older: int, newer: int)
    requires older <= newer
    ensures DecayWeight(now, older) <= DecayWeight(now, newer)
  {
  }

  // ---------- tallies ----------

  datatype Tally = Tally(successW: real, totalW: real, latencyW: real, latencyWW: real, failW: real)

  const NO_TALLY := Tally(0.0, 0.0, 0.0, 0.0, 0.0)

  function Lookup(ag: map<string, Tally>, id: string): Tally {
    if id in ag then ag[id] else NO_TALLY
  }

  /** What the loop of SelectProfile does with one event. */
  function AddEvent(a: Tally, ev: NetworkEvent, now: int): Tally {
    var w := DecayWeight(now, ev.timestamp);
    var b := if ev.success then a.(successW := a.successW + w) else a.(failW := a.failW + w);
    var c := b.(totalW := b.totalW + w);
    if ev.latency > 0 then c.(latencyW := c.latencyW + (ev.latency as real) * w, latencyWW := c.latencyWW + w) else c
  }

  /** The sums a tally is about. */
  datatype Part = Successes | Attempts | Latencies | Timed | Failures

  /** What one event contributes to a sum of `id`. */
  function Share(part: Part, ev: NetworkEvent, id: string, now: int): real {
    if ev.profileId != id then 0.0
    else
      var w := DecayWeight(now, ev.timestamp);
      match part
      case Successes => if ev.success then w else 0.0
      case Attempts => w
      case Latencies => if ev.latency > 0 then (ev.latency as real) * w else 0.0
      case Timed => if ev.latency > 0 then w else 0.0
      case Failures => if ev.success then 0.0 else w
  }

  function PartSum(part: Part, events: seq<NetworkEvent>, id: string, now: int): real {
    if events == [] then 0.0
    else PartSum(part, events[..|events| - 1], id, now) + Share(part, events[|events| - 1], id, now)
  }

  /** The five sums, each taken on its own. */
  function DirectTally(events: seq<NetworkEvent>, id: string, now: int): Tally {
    Tally(PartSum(Successes, events, id, now), PartSum(Attempts, events, id, now), PartSum(Latencies, events, id, now),
          PartSum(Timed, events, id, now), PartSum(Failures, events, id, now))
  }

  ghost predicate TalliesOf(ag: map<string, Tally>, events: seq<NetworkEvent>, now: int) {
    forall id :: Lookup(ag, id) == DirectTally(events, id, now)
  }

  lemma PartSumSnoc(part: Part, events: seq<NetworkEvent>, ev: NetworkEvent, id: string, now: int)
    ensures PartSum(part, events + [ev], id, now) == PartSum(part, events, id, now) + Share(part, ev, id, now)
  {
    assert (events + [ev])[..|events|] == events;
  }

  lemma DirectSnoc(events: seq<NetworkEvent>, ev: NetworkEvent, id: string, now: int)
    ensures DirectTally(events + [ev], id, now) ==
            if ev.profileId == id then AddEvent(DirectTally(events, id, now), ev, now) else DirectTally(events, id, now)
  {
    hide PartSum, DecayWeight;
    PartSumSnoc(Successes, events, ev, id, now);
    PartSumSnoc(Attempts, events, ev, id, now);
    PartSumSnoc(Latencies, events, ev, id, now);
    PartSumSnoc(Timed, events, ev, id, now);
    PartSumSnoc(Failures, events, ev, id, now);
  }

  lemma TallyStep(ag: map<string, Tally>, events: seq<NetworkEvent>, ev: NetworkEvent, now: int)
    requires TalliesOf(ag, events, now)
    ensures TalliesOf(ag[ev.profileId := AddEvent(Lookup(ag, ev.profileId), ev, now)], events + [ev], now)
  {
    hide DirectTally, AddEvent;
    var after := ag[ev.profileId := AddEvent(Lookup(ag, ev.profileId), ev, now)];
    forall id ensures Lookup(after, id) == DirectTally(events + [ev], id, now) {
      DirectSnoc(events, ev, id, now);
      assert Lookup(ag, id) == DirectTally(events, id, now);
    }
  }

  lemma NoTallies(now: int)
    ensures TalliesOf(map[], [], now)
  {
  }

  // ---------- what the sums are good for ----------

  /** Every positive latency of `id` lies between `lo` and `hi`. */
  predicate TimedWithin(events: seq<NetworkEvent>, id: string, lo: int, hi: int) {
    forall i :: 0 <= i < |events| && events[i].profileId == id && events[i].latency > 0 ==> lo <= events[i].latency <= hi
  }

  lemma ShareSplit(ev: NetworkEvent, id: string, now: int)
    ensures Share(Successes, ev, id, now) + Share(Failures, ev, id, now) == Share(Attempts, ev, id, now)
    ensures Share(Successes, ev, id, now) >= 0.0 && Share(Failures, ev, id, now) >= 0.0 && Share(Timed, ev, id, now) >= 0.0
    ensures ev.profileId == id ==> Share(Attempts, ev, id, now) >= 0.1
    ensures ev.profileId == id && ev.latency > 0 ==> Share(Timed, ev, id, now) >= 0.1
  {
    hide DecayWeight;
  }

  predicate Mentioned(events: seq<NetworkEvent>, id: string) {
    exists i :: 0 <= i < |events| && events[i].profileId == id
  }

  predicate MentionedTimed(events: seq<NetworkEvent>, id: string) {
    exists i :: 0 <= i < |events| && events[i].profileId == id && events[i].latency > 0
  }

  /** Success and failure weight add up to the total, which is positive exactly for profiles that
      occur in the window. */
  lemma {:induction false} TallySplits(events: seq<NetworkEvent>, id: string, now: int)
    ensures var t := DirectTally(events, id, now);
            && t.successW + t.failW == t.totalW && t.successW >= 0.0 && t.failW >= 0.0 && t.latencyWW >= 0.0
            && (t.totalW > 0.0 <==> Mentioned(events, id))
            && (t.latencyWW > 0.0 <==> MentionedTimed(events, id))
  {
    if events != [] {
      var n := |events| - 1;
      TallySplits(events[..n], id, now);
      ShareSplit(events[n], id, now);
      hide Share, DecayWeight;
      MentionedSnoc(events, n, id);
      ShareElsewhere(events[n], id, now);
    }
  }

  lemma ShareElsewhere(ev: NetworkEvent, id: string, now: int)
    ensures ev.profileId != id ==> Share(Attempts, ev, id, now) == 0.0 && Share(Timed, ev, id, now) == 0.0
    ensures ev.latency <= 0 ==> Share(Timed, ev, id, now) == 0.0
  {
  }

  lemma MentionedSnoc(events: seq<NetworkEvent>, n: nat, id: string)
    requires |events| == n + 1
    ensures Mentioned(events, id) <==> Mentioned(events[..n], id) || events[n].profileId == id
    ensures MentionedTimed(events, id) <==> MentionedTimed(events[..n], id) || (events[n].profileId == id && events[n].latency > 0)
  {
    var front := events[..n];
    assert forall i :: 0 <= i < n ==> front[i] == events[i];
    if Mentioned(front, id) {
      var i :| 0 <= i < n && front[i].profileId == id;
      assert events[i].profileId == id;
    }
    if MentionedTimed(front, id) {
      var i :| 0 <= i < n && front[i].profileId == id && front[i].latency > 0;
      assert events[i].profileId == id && events[i].latency > 0;
    }
  }

  /** `x` lies between `lo` and `hi` times `w`. */
  predicate Between(lo: real, hi: real, w: real, x: real) {
    lo * w <= x <= hi * w
  }

  lemma Scaled(lo: real, hi: real, w: real, x: real)
    requires lo <= x <= hi && w >= 0.0
    ensures Between(lo, hi, w, x * w)
  {
  }

  lemma BetweenSum(lo: real, hi: real, w: real, x: real, w': real, x': real)
    requires Between(lo, hi, w, x) && Between(lo, hi, w', x')
    ensures Between(lo, hi, w + w', x + x')
  {
    AddScaled(lo, w, w');
    AddScaled(hi, w, w');
  }

  lemma AddScaled(c: real, a: real, w: real)
    ensures c * (a + w) == c * a + c * w
  {
  }

  lemma LatencyShare(ev: NetworkEvent, id: string, now: int, lo: int, hi: int)
    requires ev.profileId == id && ev.latency > 0 ==> lo <= ev.latency <= hi
    ensures Between(lo as real, hi as real, Share(Timed, ev, id, now), Share(Latencies, ev, id, now))
  {
    hide DecayWeight;
    if ev.profileId == id && ev.latency > 0 {
      Scaled(lo as real, hi as real, DecayWeight(now, ev.timestamp), ev.latency as real);
    }
  }

  lemma TimedFront(events: seq<NetworkEvent>, n: nat, id: string, lo: int, hi: int)
    requires |events| == n + 1 && TimedWithin(events, id, lo, hi)
    ensures TimedWithin(events[..n], id, lo, hi)
    ensures events[n].profileId == id && events[n].latency > 0 ==> lo <= events[n].latency <= hi
  {
  }

  lemma {:induction false} LatencySums(events: seq<NetworkEvent>, id: string, now: int, lo: int, hi: int)
    requires TimedWithin(events, id, lo, hi)
    ensures Between(lo as real, hi as real, PartSum(Timed, events, id, now), PartSum(Latencies, events, id, now))
  {
    if events != [] {
      hide Share, TimedWithin, Between;
      var n := |events| - 1;
      var ev, front := events[n], events[..n];
      TimedFront(events, n, id, lo, hi);
      LatencySums(front, id, now, lo, hi);
      LatencyShare(ev, id, now, lo, hi);
      BetweenSum(lo as real, hi as real, PartSum(Timed, front, id, now), PartSum(Latencies, front, id, now),
                 Share(Timed, ev, id, now), Share(Latencies, ev, id, now));
    }
  }

  // ---------- the score ----------

  function RateOf(p: Profile, a: Tally): real {
    if a.totalW > 0.0 then a.successW / a.totalW else p.health.successEWMA
  }

  function LatencyOf(p: Profile, a: Tally): real {
    if a.latencyWW > 0.0 then a.latencyW / a.latencyWW else p.health.medianHandshakeMs as real
  }

  function TrustOf(p: Profile): int {
    if p.source.trustLevel == 0 then 50 else p.source.trustLevel
  }

  function UdpAdjustment(p: Profile, failures: seq<string>): real {
    if "UDP_BLOCKED" in failures then
      (if EqualFold(p.capabilities.transport, "tcp") then 8.0 else 0.0)
      - (if EqualFold(p.capabilities.transport, "udp") then 12.0 else 0.0)
    else 0.0
  }

  function TlsAdjustment(p: Profile, failures: seq<string>): real {
    if "TLS_BLOCKED" in failures && !Blank(p.credentials.utlsFingerprint) then 3.0 else 0.0
  }

  function Score(p: Profile, a: Tally, failures: seq<string>): real {
    RateOf(p, a) * 100.0 - LatencyOf(p, a) / 10.0 - (a.failW + p.health.consecutiveFails as real) * 5.0
    + TrustOf(p) as real * 0.2 + UdpAdjustment(p, failures) + TlsAdjustment(p, failures)
  }

  lemma Fraction(x: real, y: real)
    requires 0.0 <= x <= y && y > 0.0
    ensures 0.0 <= x / y <= 1.0
  {
  }

  lemma Average(x: real, w: real, lo: real, hi: real)
    requires w > 0.0 && Between(lo, hi, w, x)
    ensures lo <= x / w <= hi
  {
    var q := x / w;
    assert q * w == x;
    if q < lo {
      Cancel(q, lo, w);
    }
    if q > hi {
      Cancel(hi, q, w);
    }
  }

  lemma Cancel(a: real, b: real, w: real)
    requires a < b && w > 0.0
    ensures a * w < b * w
  {
  }

  lemma NotNegative(x: real, w: real)
    requires x >= 0.0 && w > 0.0
    ensures x / w >= 0.0
  {
  }

  lemma RateBounds(p: Profile, events: seq<NetworkEvent>, id: string, now: int)
    requires 0.0 <= p.health.successEWMA <= 1.0
    ensures 0.0 <= RateOf(p, DirectTally(events, id, now)) <= 1.0
  {
    TallySplits(events, id, now);
    hide DirectTally;
    var a := DirectTally(events, id, now);
    if a.totalW > 0.0 {
      Fraction(a.successW, a.totalW);
    }
  }

  /** The averaged latency lies between the smallest and the largest positive latency observed. */
  lemma LatencyBetween(p: Profile, events: seq<NetworkEvent>, id: string, now: int, lo: int, hi: int)
    requires MentionedTimed(events, id) && TimedWithin(events, id, lo, hi)
    ensures lo as real <= LatencyOf(p, DirectTally(events, id, now)) <= hi as real
  {
    TallySplits(events, id, now);
    LatencySums(events, id, now, lo, hi);
    hide PartSum, TimedWithin, MentionedTimed, Between;
    var a := DirectTally(events, id, now);
    Average(a.latencyW, a.latencyWW, lo as real, hi as real);
  }

  lemma {:induction false} LatencySumPositive(events: seq<NetworkEvent>, id: string, now: int)
    ensures PartSum(Latencies, events, id, now) >= 0.0
  {
    if events != [] {
      LatencySumPositive(events[..|events| - 1], id, now);
      LatencySharePositive(events[|events| - 1], id, now);
      hide Share;
    }
  }

  lemma LatencySharePositive(ev: NetworkEvent, id: string, now: int)
    ensures Share(Latencies, ev, id, now) >= 0.0
  {
    hide DecayWeight;
    var w := DecayWeight(now, ev.timestamp);
    if ev.latency > 0 {
      Scaled(0.0, ev.latency as real, w, ev.latency as real);
    }
  }

  lemma LatencyPositive(p: Profile, events: seq<NetworkEvent>, id: string, now: int)
    requires p.health.medianHandshakeMs >= 0
    ensures LatencyOf(p, DirectTally(events, id, now)) >= 0.0
  {
    LatencySumPositive(events, id, now);
    hide PartSum;
    var a := DirectTally(events, id, now);
    if a.latencyWW > 0.0 {
      NotNegative(a.latencyW, a.latencyWW);
    }
  }

  /** The health and trust figures of a sane profile. */
  predicate SaneFigures(p: Profile) {
    && 0 <= p.source.trustLevel <= 100 && 0.0 <= p.health.successEWMA <= 1.0
    && p.health.medianHandshakeMs >= 0 && p.health.consecutiveFails >= 0
  }

  /** No score of a sane profile exceeds 131, whatever the window holds. */
  lemma ScoreBound(p: Profile, events: seq<NetworkEvent>, id: string, now: int, failures: seq<string>)
    requires SaneFigures(p)
    ensures Score(p, DirectTally(events, id, now), failures) <= 131.0
  {
    hide EqualFold, Blank, DirectTally, PartSum, RateOf, LatencyOf;
    var a := DirectTally(events, id, now);
    RateBounds(p, events, id, now);
    LatencyPositive(p, events, id, now);
    TallySplits(events, id, now);
    assert UdpAdjustment(p, failures) <= 8.0 && TlsAdjustment(p, failures) <= 3.0;
  }

  lemma LargerTotal(x: real, y: real, w: real)
    requires 0.0 <= x && 0.0 < y && 0.0 <= w
    ensures x / (y + w) <= x / y
  {
    var q := x / (y + w);
    assert q * (y + w) == x;
    NotNegative(x, y + w);
    assert q * y <= x by {
      AddScaled(q, y, w);
      Scaled(0.0, q, w, q);
    }
    if q > x / y {
      Cancel(x / y, q, y);
    }
  }

  // ---------- recent failures ----------

  /** Failures that are listed: a failed attempt with a name. */
  predicate Fails(ev: NetworkEvent) {
    !ev.success && !Blank(ev.failure)
  }

  function Noted(found: seq<string>, ev: NetworkEvent): seq<string> {
    if Fails(ev) && ev.failure !in found then found + [ev.failure] else found
  }

  /** The loop from the newest event on that collects up to six different failures. */
  function NewestFailures(events: seq<NetworkEvent>, found: seq<string>): seq<string>
    decreases |events|
  {
    if events == [] || |found| >= RECENT_LIMIT then found
    else NewestFailures(events[..|events| - 1], Noted(found, events[|events| - 1]))
  }

  function RecentFailures(events: seq<NetworkEvent>): seq<string> {
    NewestFailures(events, [])
  }

  /** The different failures in a stretch of the window. */
  ghost function Names(events: seq<NetworkEvent>): (s: set<string>)
    ensures forall f :: f in s <==> exists i :: 0 <= i < |events| && Fails(events[i]) && events[i].failure == f
  {
    set i | 0 <= i < |events| && Fails(events[i]) :: events[i].failure
  }

  ghost function Elements(s: seq<string>): (r: set<string>)
    ensures forall x :: x in r <==> x in s
  {
    set x | x in s
  }

  lemma {:induction false} DistinctSize(s: seq<string>)
    requires Distinct(s)
    ensures |Elements(s)| == |s|
  {
    if s == [] {
      assert Elements(s) == {};
    } else {
      var front, last := s[..|s| - 1], s[|s| - 1];
      DistinctSize(front);
      assert Elements(s) == Elements(front) + {last} by {
        assert s == front + [last];
      }
      assert last !in front;
    }
  }

  lemma NamesCons(events: seq<NetworkEvent>, k: nat)
    requires k < |events|
    ensures Names(events[k..]) == Names(events[k + 1..]) + if Fails(events[k]) then {events[k].failure} else {}
  {
    hide Fails;
    var longer, shorter, ev := events[k..], events[k + 1..], events[k];
    assert longer == [ev] + shorter;
    forall f ensures f in Names(longer) <==> f in Names(shorter) || (Fails(ev) && f == ev.failure) {
      if f in Names(shorter) {
        var i :| 0 <= i < |shorter| && Fails(shorter[i]) && shorter[i].failure == f;
        assert longer[i + 1] == shorter[i];
      }
      if Fails(ev) && f == ev.failure {
        assert longer[0] == ev;
      }
    }
  }

  lemma {:induction false} NamesShrink(events: seq<NetworkEvent>, k: nat, n: nat)
    requires k <= n <= |events|
    ensures Names(events[n..]) <= Names(events[k..])
    decreases n - k
  {
    if k < n {
      NamesShrink(events, k + 1, n);
      NamesCons(events, k);
    }
  }

  /** `f` failed at a position before `k` after which fewer than six different failures follow. */
  ghost predicate Listed(events: seq<NetworkEvent>, k: int, f: string) {
    exists i :: 0 <= i < k && ListedAt(events, i, f)
  }

  ghost predicate ListedAt(events: seq<NetworkEvent>, i: int, f: string) {
    && 0 <= i < |events| && Fails(events[i]) && events[i].failure == f
    && |Names(events[i + 1..])| < 6
  }

  lemma ListedSnoc(events: seq<NetworkEvent>, k: nat, f: string)
    ensures Listed(events, k + 1, f) <==> Listed(events, k, f) || ListedAt(events, k, f)
  {
    hide ListedAt;
  }

  lemma ListedFull(events: seq<NetworkEvent>, k: nat, f: string)
    requires k <= |events| && |Names(events[k..])| >= RECENT_LIMIT
    ensures !Listed(events, k, f)
  {
    forall i | 0 <= i < k ensures !ListedAt(events, i, f) {
      NamesShrink(events, i + 1, k);
      SubsetSize(Names(events[k..]), Names(events[i + 1..]));
    }
  }

  /** One turn of the loop: what was found stays exactly the set of names seen. */
  lemma FoundStep(events: seq<NetworkEvent>, k: nat, found: seq<string>)
    requires k < |events| && Distinct(found) && Elements(found) == Names(events[k + 1..])
    ensures Distinct(Noted(found, events[k])) && Elements(Noted(found, events[k])) == Names(events[k..])
  {
    NamesCons(events, k);
    hide Fails;
    var ev := events[k];
    if Fails(ev) && ev.failure !in found {
      assert Elements(found + [ev.failure]) == Elements(found) + {ev.failure};
    }
  }

  lemma NotedMember(events: seq<NetworkEvent>, k: nat, found: seq<string>, f: string)
    requires k < |events| && |found| < RECENT_LIMIT && Distinct(found) && Elements(found) == Names(events[k + 1..])
    ensures f in Noted(found, events[k]) <==> f in found || ListedAt(events, k, f)
  {
    DistinctSize(found);
    hide Distinct, Elements, Names, Fails;
  }

  lemma NewestUnfold(events: seq<NetworkEvent>, k: nat, found: seq<string>)
    requires 0 < k <= |events| && |found| < RECENT_LIMIT
    ensures NewestFailures(events[..k], found) == NewestFailures(events[..k - 1], Noted(found, events[k - 1]))
    ensures |Noted(found, events[k - 1])| <= RECENT_LIMIT
  {
    hide Fails;
    assert events[..k][..k - 1] == events[..k - 1];
  }

  lemma {:induction false} CollectExact(events: seq<NetworkEvent>, k: nat, found: seq<string>, f: string)
    requires k <= |events| && |found| <= RECENT_LIMIT && Distinct(found) && Elements(found) == Names(events[k..])
    ensures f in NewestFailures(events[..k], found) <==> f in found || Listed(events, k, f)
    ensures |NewestFailures(events[..k], found)| <= RECENT_LIMIT
    ensures Distinct(NewestFailures(events[..k], found))
    decreases k
  {
    hide ListedAt, Distinct, Elements, Names, Fails;
    DistinctSize(found);
    if |found| == RECENT_LIMIT {
      ListedFull(events, k, f);
    } else if k > 0 {
      NewestUnfold(events, k, found);
      FoundStep(events, k - 1, found);
      NotedMember(events, k - 1, found, f);
      ListedSnoc(events, k - 1, f);
      hide NewestFailures, Listed, Noted;
      CollectExact(events, k - 1, Noted(found, events[k - 1]), f);
    }
  }

  /** A failure is recent exactly when fewer than six different ones came after one of its
      occurrences; at most six are listed, none twice. */
  lemma RecentFailuresExact(events: seq<NetworkEvent>, f: string)
    ensures f in RecentFailures(events) <==> Listed(events, |events|, f)
    ensures |RecentFailures(events)| <= 6 && Distinct(RecentFailures(events))
  {
    assert events[|events|..] == [] && events[..|events|] == events;
    assert Elements([]) == {} && Names(events[|events|..]) == {};
    CollectExact(events, |events|, [], f);
  }

  // ---------- what the recent failures do to the score ----------

  /** The bound is reached: by a profile that is not in the window itself, while the failures of
      others give it both bonuses. */
  lemma ScoreBoundTight(p: Profile, events: seq<NetworkEvent>, now: int)
    requires p.source.trustLevel == 100 && p.health.successEWMA == 1.0
    requires p.health.medianHandshakeMs == 0 && p.health.consecutiveFails == 0
    requires EqualFold(p.capabilities.transport, "tcp") && !Blank(p.credentials.utlsFingerprint)
    requires !Mentioned(events, p.id)
    requires "UDP_BLOCKED" in RecentFailures(events) && "TLS_BLOCKED" in RecentFailures(events)
    ensures Score(p, DirectTally(events, p.id, now), RecentFailures(events)) == 131.0
  {
    TallySplits(events, p.id, now);
    NotMentionedTimed(events, p.id);
    assert ToLower("tcp")[0] == 't' && ToLower("udp")[0] == 'u';
    hide Trim, ToLower, RecentFailures, Mentioned, MentionedTimed, DirectTally;
  }

  lemma NotMentionedTimed(events: seq<NetworkEvent>, id: string)
    requires !Mentioned(events, id)
    ensures !MentionedTimed(events, id)
  {
  }

  /** Such a window exists: two failures of another profile. */
  lemma BothBonuses(other: string, id: string, now: int)
    requires other != id
    ensures var events := [NetworkEvent(now, other, false, 0, "UDP_BLOCKED"), NetworkEvent(now, other, false, 0, "TLS_BLOCKED")];
            && !Mentioned(events, id)
            && RecentFailures(events) == ["TLS_BLOCKED", "UDP_BLOCKED"]
  {
    var a, b := NetworkEvent(now, other, false, 0, "UDP_BLOCKED"), NetworkEvent(now, other, false, 0, "TLS_BLOCKED");
    PlainNames();
    PlainIsFixed("UDP_BLOCKED");
    PlainIsFixed("TLS_BLOCKED");
    hide Plain, Blank;
    assert [a, b][..1] == [a] && [a][..0] == [];
    assert Noted([], b) == ["TLS_BLOCKED"];
    assert NewestFailures([a, b], []) == NewestFailures([a], ["TLS_BLOCKED"]);
    assert Noted(["TLS_BLOCKED"], a) == ["TLS_BLOCKED", "UDP_BLOCKED"];
  }

  /** Of two profiles that differ in ID and transport only and have the same tally, the TCP one leads
      by twenty points while UDP failures are recent, and otherwise they tie. */
  lemma UdpGap(tcp: Profile, udp: Profile, events: seq<NetworkEvent>, now: int)
    requires EqualFold(tcp.capabilities.transport, "tcp") && EqualFold(udp.capabilities.transport, "udp")
    requires udp == tcp.(id := udp.id, capabilities := tcp.capabilities.(transport := udp.capabilities.transport))
    requires DirectTally(events, tcp.id, now) == DirectTally(events, udp.id, now)
    ensures Score(tcp, DirectTally(events, tcp.id, now), RecentFailures(events))
         == Score(udp, DirectTally(events, udp.id, now), RecentFailures(events))
            + if "UDP_BLOCKED" in RecentFailures(events) then 20.0 else 0.0
  {
    assert ToLower("tcp")[0] == 't' && ToLower("udp")[0] == 'u';
    hide ToLower, Trim, RateOf, LatencyOf, DirectTally, RecentFailures;
  }
}
