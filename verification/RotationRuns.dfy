/** The rotation loop over whole runs: what the blacklist and the anomaly window guarantee. */
module RotationRuns {
  import opened Profiles
  import opened Rotation

  function After(s: Loop, events: seq<Event>): Loop
    decreases |events|
  {
    if events == [] then s else After(Next(s, events[0]), events[1..])
  }

  // ---------- the clock ----------

  function Begin(e: Event): int {
    if e.Tick? then e.w.healthTime else e.now
  }

  predicate Ordered(e: Event) {
    e.w.healthTime <= e.w.failTime && (e.Report? ==> e.now <= e.penaltyTime <= e.w.healthTime)
  }

  /** The readings of the clock, from `since` on, never go back. */
  predicate Clocked(events: seq<Event>, since: int)
    decreases |events|
  {
    events == [] || (since <= Begin(events[0]) && Ordered(events[0]) && Clocked(events[1..], events[0].w.failTime))
  }

  // ---------- one rotation ----------

  predicate Picks(o: Outcome, id: string) {
    (o.NotGenerated? || o.NotReloaded? || o.Running?) && o.picked.id == id
  }

  predicate ReachesGeneration(o: Outcome) {
    o.NotGenerated? || o.NotReloaded? || o.Running?
  }

  lemma {:induction false} HealthyMember(profiles: seq<Profile>, blacklist: map<string, int>, now: int, p: Profile)
    ensures p in Healthy(profiles, blacklist, now) <==> p in profiles && !Blocked(blacklist, p.id, now)
  {
    if profiles != [] {
      HealthyMember(profiles[..|profiles| - 1], blacklist, now, p);
      assert profiles == profiles[..|profiles| - 1] + [profiles[|profiles| - 1]];
    }
  }

  /** `i` is the first position whose profile is not blocked. */
  predicate FirstHealthy(profiles: seq<Profile>, blacklist: map<string, int>, now: int, i: int) {
    && 0 <= i < |profiles| && !Blocked(blacklist, profiles[i].id, now)
    && forall j :: 0 <= j < i ==> Blocked(blacklist, profiles[j].id, now)
  }

  ghost predicate IsFirstHealthy(profiles: seq<Profile>, blacklist: map<string, int>, now: int, p: Profile) {
    exists i :: FirstHealthy(profiles, blacklist, now, i) && p == profiles[i]
  }

  predicate AllBlocked(profiles: seq<Profile>, blacklist: map<string, int>, now: int) {
    forall j :: 0 <= j < |profiles| ==> Blocked(blacklist, profiles[j].id, now)
  }

  lemma FirstLonger(front: seq<Profile>, p: Profile, blacklist: map<string, int>, now: int)
    ensures forall q :: IsFirstHealthy(front, blacklist, now, q) ==> IsFirstHealthy(front + [p], blacklist, now, q)
    ensures AllBlocked(front, blacklist, now) && !Blocked(blacklist, p.id, now) ==> IsFirstHealthy(front + [p], blacklist, now, p)
    ensures AllBlocked(front + [p], blacklist, now) <==> AllBlocked(front, blacklist, now) && Blocked(blacklist, p.id, now)
  {
    hide Blocked;
    var longer := front + [p];
    assert forall j :: 0 <= j < |front| ==> longer[j] == front[j];
    forall q | IsFirstHealthy(front, blacklist, now, q) ensures IsFirstHealthy(longer, blacklist, now, q) {
      var i :| FirstHealthy(front, blacklist, now, i) && q == front[i];
      assert FirstHealthy(longer, blacklist, now, i);
    }
    assert longer[|front|] == p;
    if AllBlocked(front, blacklist, now) && !Blocked(blacklist, p.id, now) {
      assert FirstHealthy(longer, blacklist, now, |front|);
    }
  }

  lemma {:induction false} HealthyFirst(profiles: seq<Profile>, blacklist: map<string, int>, now: int)
    ensures Healthy(profiles, blacklist, now) == [] <==> AllBlocked(profiles, blacklist, now)
    ensures Healthy(profiles, blacklist, now) != [] ==> IsFirstHealthy(profiles, blacklist, now, Healthy(profiles, blacklist, now)[0])
  {
    if profiles != [] {
      var front, p := profiles[..|profiles| - 1], profiles[|profiles| - 1];
      HealthyFirst(front, blacklist, now);
      FirstLonger(front, p, blacklist, now);
      assert profiles == front + [p];
      hide Blocked, AllBlocked, IsFirstHealthy;
    }
  }

  /** A rotation that reaches config generation picked the first stored profile without an unexpired
      entry, and it stops short of that only if the store fails or every stored profile is blocked. */
  lemma PickIsHealthy(m: Manager, w: World)
    ensures Rotated(m, w).1.NoStore? <==> w.loading.LoadFailed?
    ensures Rotated(m, w).1.NoCandidates? <==> w.loading.Loaded? && AllBlocked(w.loading.profiles, m.blacklist, w.healthTime)
    ensures ReachesGeneration(Rotated(m, w).1) ==>
              w.loading.Loaded? && IsFirstHealthy(w.loading.profiles, m.blacklist, w.healthTime, Rotated(m, w).1.picked)
  {
    if w.loading.Loaded? {
      HealthyFirst(w.loading.profiles, m.blacklist, w.healthTime);
      hide Blocked, Purged, AllBlocked, IsFirstHealthy;
    }
  }

  lemma BlockedNotPicked(m: Manager, w: World, id: string)
    requires Blocked(m.blacklist, id, w.healthTime)
    ensures !Picks(Rotated(m, w).1, id)
  {
    PickIsHealthy(m, w);
    hide Rotated, Blocked, AllBlocked;
  }

  /** An entry that was unexpired at `now` is still there and ends no earlier. */
  ghost predicate NeverShorter(before: map<string, int>, after: map<string, int>, now: int) {
    forall id :: id in before && now < before[id] ==> id in after && after[id] >= before[id]
  }

  lemma PurgeKeeps(blacklist: map<string, int>, profiles: seq<Profile>, now: int)
    ensures NeverShorter(blacklist, Purged(blacklist, profiles, now), now)
    ensures forall id :: id in Purged(blacklist, profiles, now) ==> id in blacklist && Purged(blacklist, profiles, now)[id] == blacklist[id]
  {
  }

  /** What a rotation writes: nothing, or the penalty of the profile it could not apply, which had no
      unexpired entry. */
  lemma RotateKeeps(m: Manager, w: World)
    ensures NeverShorter(m.blacklist, Rotated(m, w).0.blacklist, w.healthTime)
    ensures forall id :: id in Rotated(m, w).0.blacklist ==>
              (id in m.blacklist && Rotated(m, w).0.blacklist[id] == m.blacklist[id])
              || (Rotated(m, w).1.NotReloaded? && id == Rotated(m, w).1.picked.id
                  && Rotated(m, w).0.blacklist[id] == w.failTime + 30 * 60_000_000_000)
  {
    if w.loading.Loaded? {
      PurgeKeeps(m.blacklist, w.loading.profiles, w.healthTime);
      var healthy := Healthy(w.loading.profiles, m.blacklist, w.healthTime);
      if healthy != [] {
        HealthyMember(w.loading.profiles, m.blacklist, w.healthTime, healthy[0]);
      }
      hide Healthy, Purged;
    }
  }

  /** A rotation that reads the store leaves no expired entry of a stored profile behind. */
  lemma ExpiredGone(m: Manager, w: World, i: nat)
    requires w.loading.Loaded? && i < |w.loading.profiles| && w.failTime >= w.healthTime
    ensures var id, after := w.loading.profiles[i].id, Rotated(m, w).0.blacklist;
            id in after ==> w.healthTime < after[id]
  {
    assert Stored(w.loading.profiles, w.loading.profiles[i].id);
    hide Healthy, Stored;
  }

  /** A failing advisor leaves a configuration that names the family of the profile picked. */
  lemma FallbackNamesFamily(m: Manager, w: World)
    requires ReachesGeneration(Rotated(m, w).1)
    ensures Rotated(m, w).0.config ==
            if w.advisorOk then m.config else Config(Rotated(m, w).1.picked.family, "", "", 0, 600, false, "")
  {
    hide Healthy, Purged;
  }

  // ---------- one event ----------

  /** No entry ends later than the longest penalty from now. */
  ghost predicate Bounded(blacklist: map<string, int>, clock: int) {
    forall id :: id in blacklist ==> blacklist[id] <= clock + 60 * 60_000_000_000
  }

  lemma BanKeeps(m: Manager, id: string, time: int, clock: int, now: int)
    requires Bounded(m.blacklist, clock) && clock <= time
    ensures Bounded(Ban(m, id, time + EMERGENCY_PENALTY).blacklist, time)
    ensures NeverShorter(m.blacklist, Ban(m, id, time + EMERGENCY_PENALTY).blacklist, now)
  {
  }

  lemma NeverShorterTransitive(a: map<string, int>, b: map<string, int>, c: map<string, int>, now: int)
    requires NeverShorter(a, b, now) && NeverShorter(b, c, now)
    ensures NeverShorter(a, c, now)
  {
  }

  lemma RotateBounded(m: Manager, w: World, clock: int)
    requires Bounded(m.blacklist, clock) && clock <= w.failTime
    ensures Bounded(Rotated(m, w).0.blacklist, w.failTime)
  {
    RotateKeeps(m, w);
    hide Rotated, NeverShorter;
  }

  lemma BoundedLater(blacklist: map<string, int>, clock: int, later: int)
    requires Bounded(blacklist, clock) && clock <= later
    ensures Bounded(blacklist, later)
  {
  }

  lemma NeverShorterSelf(blacklist: map<string, int>, now: int)
    ensures NeverShorter(blacklist, blacklist, now)
  {
  }

  /** No write of any event shortens an unexpired entry. */
  lemma NextKeeps(s: Loop, e: Event, clock: int)
    requires Bounded(s.m.blacklist, clock) && clock <= Begin(e) && Ordered(e)
    ensures NeverShorter(s.m.blacklist, Next(s, e).m.blacklist, e.w.healthTime)
    ensures Bounded(Next(s, e).m.blacklist, e.w.failTime)
  {
    hide Rotated, NeverShorter, Bounded, Fires;
    var b := BeforeRotate(s, e);
    var time := if e.Report? then e.penaltyTime else clock;
    NeverShorterSelf(s.m.blacklist, e.w.healthTime);
    if e.Report? {
      BanKeeps(s.m, s.m.current.id, e.penaltyTime, clock, e.w.healthTime);
    }
    BoundedLater(s.m.blacklist, clock, e.w.failTime);
    RotateKeeps(b, e.w);
    RotateBounded(b, e.w, time);
    NeverShorterTransitive(s.m.blacklist, b.blacklist, Rotated(b, e.w).0.blacklist, e.w.healthTime);
  }

  // ---------- runs ----------

  /** No rotation of the run picks `id`. */
  predicate NeverPicked(s: Loop, events: seq<Event>, id: string)
    decreases |events|
  {
    events == [] ||
    (!(Rotates(s, events[0]) && Picks(Rotated(BeforeRotate(s, events[0]), events[0].w).1, id)) && NeverPicked(Next(s, events[0]), events[1..], id))
  }

  /** Every rotation of the run looks at the blacklist before `until`. */
  predicate AllBefore(events: seq<Event>, until: int) {
    forall i :: 0 <= i < |events| ==> events[i].w.healthTime < until
  }

  predicate BannedUntil(m: Manager, id: string, until: int) {
    id in m.blacklist && m.blacklist[id] >= until
  }

  lemma NextAvoids(s: Loop, e: Event, clock: int, id: string, until: int)
    requires Bounded(s.m.blacklist, clock) && clock <= Begin(e) && Ordered(e)
    requires BannedUntil(s.m, id, until) && e.w.healthTime < until
    ensures BannedUntil(Next(s, e).m, id, until)
    ensures !Picks(Rotated(BeforeRotate(s, e), e.w).1, id)
  {
    NextKeeps(s, e, clock);
    var b := BeforeRotate(s, e);
    if e.Report? {
      BanKeeps(s.m, s.m.current.id, e.penaltyTime, clock, e.w.healthTime);
      assert NeverShorter(s.m.blacklist, b.blacklist, e.w.healthTime);
    }
    hide Next, Rotated, Bounded, BeforeRotate;
    assert Blocked(b.blacklist, id, e.w.healthTime);
    BlockedNotPicked(b, e.w, id);
  }

  /** As long as an entry lasts, it stays and its profile is not picked, whatever the run does. */
  lemma {:induction false} BannedStaysOut(s: Loop, events: seq<Event>, clock: int, id: string, until: int)
    requires Bounded(s.m.blacklist, clock) && Clocked(events, clock)
    requires BannedUntil(s.m, id, until) && AllBefore(events, until)
    ensures NeverPicked(s, events, id)
    ensures BannedUntil(After(s, events).m, id, until)
    decreases |events|
  {
    hide Next, Rotates, BeforeRotate, Rotated, Picks, BannedUntil, Bounded, Begin, Ordered;
    if events != [] {
      var e := events[0];
      NextAvoids(s, e, clock, id, until);
      NextKeeps(s, e, clock);
      assert forall i :: 0 <= i < |events[1..]| ==> events[1..][i] == events[i + 1];
      BannedStaysOut(Next(s, e), events[1..], e.w.failTime, id, until);
    }
  }

  /** The loop as it starts. */
  function Start(none: Profile): Loop {
    Loop(Manager(none, NO_CONFIG, map[]), [])
  }

  lemma {:induction false} RunBounded(s: Loop, events: seq<Event>, clock: int) returns (end: int)
    requires Bounded(s.m.blacklist, clock) && Clocked(events, clock)
    ensures Bounded(After(s, events).m.blacklist, end)
    ensures end == if events == [] then clock else events[|events| - 1].w.failTime
    decreases |events|
  {
    hide Next, Bounded, Begin, Ordered;
    if events == [] {
      end := clock;
    } else {
      NextKeeps(s, events[0], clock);
      end := RunBounded(Next(s, events[0]), events[1..], events[0].w.failTime);
    }
  }

  lemma {:induction false} ClockedParts(a: seq<Event>, b: seq<Event>, since: int)
    requires Clocked(a + b, since)
    ensures Clocked(a, since) && Clocked(b, if a == [] then since else a[|a| - 1].w.failTime)
    decreases |a|
  {
    hide Begin, Ordered;
    if a == [] {
      assert a + b == b;
    } else {
      assert (a + b)[1..] == a[1..] + b;
      ClockedParts(a[1..], b, a[0].w.failTime);
    }
  }

  lemma {:induction false} AfterConcat(s: Loop, a: seq<Event>, b: seq<Event>)
    ensures After(s, a + b) == After(After(s, a), b)
    decreases |a|
  {
    hide Next;
    if a == [] {
      assert a + b == b;
    } else {
      assert (a + b)[1..] == a[1..] + b;
      AfterConcat(Next(s, a[0]), a[1..], b);
    }
  }

  /** The state a run reaches just before an event, its blacklist, and the clock of what follows. */
  lemma Reached(none: Profile, before: seq<Event>, e: Event, later: seq<Event>, since: int) returns (clock: int)
    requires Clocked(before + [e] + later, since)
    ensures Bounded(After(Start(none), before).m.blacklist, clock) && clock <= Begin(e) && Ordered(e)
    ensures Clocked(later, e.w.failTime)
  {
    ClockedParts(before + [e], later, since);
    ClockedParts(before, [e], since);
    hide Begin, Ordered;
    assert Bounded(Start(none).m.blacklist, since);
    clock := RunBounded(Start(none), before, since);
  }

  // ---------- the current profile ----------

  /** What the last rotation of a run picked that came that far, `earlier` if none did. */
  function LastPick(s: Loop, events: seq<Event>, earlier: Profile): Profile
    decreases |events|
  {
    if events == [] then earlier
    else
      var outcome := Rotated(BeforeRotate(s, events[0]), events[0].w).1;
      LastPick(Next(s, events[0]), events[1..],
               if Rotates(s, events[0]) && ReachesGeneration(outcome) then outcome.picked else earlier)
  }

  lemma RotateCurrent(m: Manager, w: World)
    ensures Rotated(m, w).0.current == if ReachesGeneration(Rotated(m, w).1) then Rotated(m, w).1.picked else m.current
  {
    hide Healthy, Purged;
  }

  /** The current profile is the one that the last rotation picked, also if its configuration could
      not be generated or applied. */
  lemma {:induction false} CurrentIsLastPick(s: Loop, events: seq<Event>)
    ensures After(s, events).m.current == LastPick(s, events, s.m.current)
    decreases |events|
  {
    hide Rotated, ReachesGeneration, Fires;
    if events != [] {
      RotateCurrent(BeforeRotate(s, events[0]), events[0].w);
      CurrentIsLastPick(Next(s, events[0]), events[1..]);
    }
  }

  /** The profile in use when an emergency is declared, which is the one the last rotation picked, is
      picked neither by that emergency's own rotation nor by any other before the sixty minutes are
      over. */
  lemma EmergencyBan(none: Profile, before: seq<Event>, e: Event, later: seq<Event>, since: int)
    requires Clocked(before + [e] + later, since) && Fires(After(Start(none), before), e)
    requires AllBefore([e] + later, e.penaltyTime + 60 * 60_000_000_000)
    ensures var s := After(Start(none), before);
            var id := LastPick(Start(none), before, none).id;
            && !Picks(Rotated(BeforeRotate(s, e), e.w).1, id)
            && NeverPicked(Next(s, e), later, id)
  {
    var s := After(Start(none), before);
    var id, until := s.m.current.id, e.penaltyTime + 60 * 60_000_000_000;
    CurrentIsLastPick(Start(none), before);
    var clock := Reached(none, before, e, later, since);
    NextKeeps(s, e, clock);
    BeforeParts(e, later, until);
    var b := BeforeRotate(s, e);
    assert BannedUntil(b, id, until) && Blocked(b.blacklist, id, e.w.healthTime);
    BlockedNotPicked(b, e.w, id);
    RotateKeeps(b, e.w);
    assert Next(s, e).m == Rotated(b, e.w).0;
    hide Rotated, Next, After, Bounded, Clocked, Fires, Picks, LastPick;
    assert BannedUntil(Next(s, e).m, id, until);
    BannedStaysOut(Next(s, e), later, e.w.failTime, id, until);
  }

  /** Bans end: a tick that looks at the blacklist an hour after the last event, or later, picks the
      first stored profile. */
  lemma BansEnd(none: Profile, before: seq<Event>, tick: Event, since: int)
    requires Clocked(before + [tick], since) && tick.Tick? && before != []
    requires tick.w.healthTime >= before[|before| - 1].w.failTime + 60 * 60_000_000_000
    requires tick.w.loading.Loaded? && tick.w.loading.profiles != []
    ensures var outcome := Rotated(After(Start(none), before).m, tick.w).1;
            ReachesGeneration(outcome) && outcome.picked == tick.w.loading.profiles[0]
  {
    var m, profiles := After(Start(none), before).m, tick.w.loading.profiles;
    ClockedParts(before, [tick], since);
    assert Bounded(Start(none).m.blacklist, since);
    var end := RunBounded(Start(none), before, since);
    assert !Blocked(m.blacklist, profiles[0].id, tick.w.healthTime);
    PickIsHealthy(m, tick.w);
    hide Rotated, After, Clocked, Bounded, Blocked, AllBlocked, IsFirstHealthy;
    FirstUnblocked(profiles, m.blacklist, tick.w.healthTime);
  }

  lemma FirstUnblocked(profiles: seq<Profile>, blacklist: map<string, int>, now: int)
    requires profiles != [] && !Blocked(blacklist, profiles[0].id, now)
    ensures !AllBlocked(profiles, blacklist, now)
    ensures forall p :: IsFirstHealthy(profiles, blacklist, now, p) ==> p == profiles[0]
  {
    hide Blocked;
  }

  lemma BeforeParts(e: Event, later: seq<Event>, until: int)
    requires AllBefore([e] + later, until)
    ensures e.w.healthTime < until && AllBefore(later, until)
  {
    assert ([e] + later)[0] == e;
    assert forall i :: 0 <= i < |later| ==> ([e] + later)[i + 1] == later[i];
  }

  /** A profile whose hot reload failed is not picked again before its thirty minutes are over. */
  lemma ReloadBan(none: Profile, before: seq<Event>, e: Event, later: seq<Event>, since: int)
    requires Clocked(before + [e] + later, since) && Rotates(After(Start(none), before), e)
    requires Rotated(BeforeRotate(After(Start(none), before), e), e.w).1.NotReloaded?
    requires AllBefore(later, e.w.failTime + 30 * 60_000_000_000)
    ensures NeverPicked(Next(After(Start(none), before), e), later,
                        Rotated(BeforeRotate(After(Start(none), before), e), e.w).1.picked.id)
  {
    var s := After(Start(none), before);
    var clock := Reached(none, before, e, later, since);
    NextKeeps(s, e, clock);
    var b := BeforeRotate(s, e);
    var id, until := Rotated(b, e.w).1.picked.id, e.w.failTime + RELOAD_PENALTY;
    ReloadWrites(b, e.w);
    assert Next(s, e).m == Rotated(b, e.w).0;
    hide Rotated, Next, After, Bounded, Clocked, Rotates, BeforeRotate;
    BannedStaysOut(Next(s, e), later, e.w.failTime, id, until);
  }

  lemma ReloadWrites(m: Manager, w: World)
    requires Rotated(m, w).1.NotReloaded?
    ensures BannedUntil(Rotated(m, w).0, Rotated(m, w).1.picked.id, w.failTime + RELOAD_PENALTY)
  {
    hide Healthy, Purged;
  }

  // ---------- the configuration ----------

  /** Did the advisor fail in some rotation of the run that asked it? */
  predicate AdvisorFailed(s: Loop, events: seq<Event>)
    decreases |events|
  {
    events != [] &&
    ((Rotates(s, events[0]) && !events[0].w.advisorOk && ReachesGeneration(Rotated(BeforeRotate(s, events[0]), events[0].w).1))
     || AdvisorFailed(Next(s, events[0]), events[1..]))
  }

  lemma RotateConfig(m: Manager, w: World)
    ensures Rotated(m, w).0.config.rotationIntervalSec ==
            if !w.advisorOk && ReachesGeneration(Rotated(m, w).1) then 600 else m.config.rotationIntervalSec
  {
    hide Healthy, Purged;
  }

  lemma NextConfig(s: Loop, e: Event)
    ensures Next(s, e).m.config.rotationIntervalSec ==
            if Rotates(s, e) && !e.w.advisorOk && ReachesGeneration(Rotated(BeforeRotate(s, e), e.w).1) then 600
            else s.m.config.rotationIntervalSec
  {
    RotateConfig(BeforeRotate(s, e), e.w);
    hide Rotated, Fires, ReachesGeneration;
  }

  /** The rotation interval, which the loop hands to its ticker, is set by nothing but a failing
      advisor: it is 600 seconds after the first such failure and unset before. */
  lemma {:induction false} IntervalSetByFailure(s: Loop, events: seq<Event>)
    ensures After(s, events).m.config.rotationIntervalSec ==
            if AdvisorFailed(s, events) then 600 else s.m.config.rotationIntervalSec
    decreases |events|
  {
    hide Next, Rotates, Rotated, BeforeRotate, ReachesGeneration;
    if events != [] {
      NextConfig(s, events[0]);
      IntervalSetByFailure(Next(s, events[0]), events[1..]);
    }
  }

  // ---------- the anomaly window ----------

  lemma {:induction false} WithinRecent(s: seq<Anomaly>, now: int)
    ensures |Within(s, now)| <= |s|
    ensures forall i :: 0 <= i < |Within(s, now)| ==> Within(s, now)[i].timestamp > now - ANOMALY_WINDOW
  {
    if s != [] {
      WithinRecent(s[..|s| - 1], now);
    }
  }

  /** After every anomaly fewer than three are held, all of them from the last sixty seconds. */
  lemma FewHeld(s: Loop, e: Event)
    requires e.Report?
    ensures |Next(s, e).recent| < 3
    ensures forall i :: 0 <= i < |Next(s, e).recent| ==> Next(s, e).recent[i].timestamp > e.now - 60_000_000_000
  {
    WithinRecent(s.recent + [e.a], e.now);
    hide Within, Rotated;
  }

  /** Filtering again at a later time is filtering once at the later time. */
  lemma {:induction false} WithinTwice(s: seq<Anomaly>, now: int, later: int)
    requires now <= later
    ensures Within(Within(s, now), later) == Within(s, later)
  {
    if s != [] {
      var front, a := s[..|s| - 1], s[|s| - 1];
      WithinTwice(front, now, later);
      WithinSnoc(Within(front, now), a, later);
    }
  }

  /** Every anomaly that arrived since the last emergency, on top of `all`. */
  function Unserved(all: seq<Anomaly>, s: Loop, events: seq<Event>): seq<Anomaly>
    decreases |events|
  {
    if events == [] then all
    else
      var e := events[0];
      Unserved(if e.Tick? then all else if Fires(s, e) then [] else all + [e.a], Next(s, e), events[1..])
  }

  function LastReport(last: int, events: seq<Event>): int
    decreases |events|
  {
    if events == [] then last
    else LastReport(if events[0].Report? then events[0].now else last, events[1..])
  }

  lemma HeldStep(recent: seq<Anomaly>, all: seq<Anomaly>, last: int, a: Anomaly, now: int)
    requires recent == Within(all, last) && last <= now
    ensures Within(recent + [a], now) == Within(all + [a], now)
  {
    WithinTwice(all, last, now);
    WithinSnoc(recent, a, now);
    WithinSnoc(all, a, now);
    hide Within;
  }

  lemma EmptyWithin(now: int)
    ensures Within([], now) == []
  {
  }

  /** Dropping old anomalies at every report loses nothing: what is held is what a filter of
      everything since the last emergency would give. */
  lemma {:induction false} HeldExact(s: Loop, all: seq<Anomaly>, last: int, events: seq<Event>, clock: int)
    requires s.recent == Within(all, last) && last <= clock && Clocked(events, clock)
    ensures After(s, events).recent == Within(Unserved(all, s, events), LastReport(last, events))
    decreases |events|
  {
    hide Within, Rotated, Fires;
    if events != [] {
      var e := events[0];
      EmptyWithin(LastReport(last, [e]));
      if e.Report? {
        HeldStep(s.recent, all, last, e.a, e.now);
        EmptyWithin(e.now);
      }
      var more := if e.Tick? then all else if Fires(s, e) then [] else all + [e.a];
      HeldExact(Next(s, e), more, if e.Report? then e.now else last, events[1..], e.w.failTime);
    }
  }

  lemma {:induction false} LastReportBound(last: int, events: seq<Event>, clock: int, e: Event)
    requires last <= clock && Clocked(events + [e], clock)
    ensures LastReport(last, events) <= Begin(e)
    decreases |events|
  {
    if events == [] {
      assert (events + [e])[0] == e;
    } else {
      assert (events + [e])[0] == events[0] && (events + [e])[1..] == events[1..] + [e];
      LastReportBound(if events[0].Report? then events[0].now else last, events[1..], events[0].w.failTime, e);
    }
  }

  /** How many anomalies are newer than `cutoff`. */
  function Newer(s: seq<Anomaly>, cutoff: int): nat {
    if s == [] then 0
    else Newer(s[..|s| - 1], cutoff) + if s[|s| - 1].timestamp > cutoff then 1 else 0
  }

  lemma {:induction false} WithinCount(s: seq<Anomaly>, now: int)
    ensures |Within(s, now)| == Newer(s, now - 60_000_000_000)
  {
    if s != [] {
      WithinCount(s[..|s| - 1], now);
    }
  }

  /** An emergency is declared exactly when at least three of all the anomalies since the previous
      one, the new one included, are from the last sixty seconds. */
  lemma EmergencyExact(none: Profile, before: seq<Event>, e: Event, since: int)
    requires Clocked(before + [e], since) && e.Report?
    ensures Fires(After(Start(none), before), e) <==>
            Newer(Unserved([], Start(none), before) + [e.a], e.now - 60_000_000_000) >= 3
  {
    var s := After(Start(none), before);
    var all := Unserved([], Start(none), before);
    ClockedParts(before, [e], since);
    EmptyWithin(since);
    HeldExact(Start(none), [], since, before, since);
    LastReportBound(since, before, since, e);
    BeginsAtReport(e);
    hide *;
    HeldStep(s.recent, all, LastReport(since, before), e.a, e.now);
    WithinCount(all + [e.a], e.now);
    FiresMeans(s, e);
  }

  lemma BeginsAtReport(e: Event)
    requires e.Report?
    ensures Begin(e) == e.now
  {
  }

  lemma FiresMeans(s: Loop, e: Event)
    requires e.Report?
    ensures Fires(s, e) <==> |Within(s.recent + [e.a], e.now)| >= 3
  {
    hide Within;
  }
}
