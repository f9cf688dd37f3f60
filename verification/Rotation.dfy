/** The rotation manager (pkg/policy/rotation.go).  The store, the advisor, the config generator, the
    hot reload and the readings of the clock are parameters; times are in nanoseconds. */
module Rotation {
  import opened Profiles

  const SECOND := 1_000_000_000
  const MINUTE := 60 * SECOND
  const ANOMALY_WINDOW := 60 * SECOND
  const ANOMALY_THRESHOLD := 3
  const EMERGENCY_PENALTY := 60 * MINUTE
  const RELOAD_PENALTY := 30 * MINUTE

  /** sbctl.LLMDecision */
  datatype Config = Config(
    protocol: string, sni: string, utls: string, port: int,
    rotationIntervalSec: int, enableBtMesh: bool, explanation: string)

  const NO_CONFIG := Config("", "", "", 0, 0, false, "")

  datatype Anomaly = Anomaly(kind: string, timestamp: int)

  datatype Manager = Manager(current: Profile, config: Config, blacklist: map<string, int>)

  datatype Loading = LoadFailed | Loaded(profiles: seq<Profile>)

  /** What one Rotate meets: the store, two readings of the clock, and what its three helpers do. */
  datatype World = World(
    loading: Loading, healthTime: int, advisorOk: bool, generateOk: bool, reloadOk: bool, failTime: int)

  datatype Outcome =
    | NoStore | NoCandidates
    | NotGenerated(picked: Profile) | NotReloaded(picked: Profile) | Running(picked: Profile)

  // ---------- candidates ----------

  predicate Blocked(blacklist: map<string, int>, id: string, now: int) {
    id in blacklist && now < blacklist[id]
  }

  function Healthy(profiles: seq<Profile>, blacklist: map<string, int>, now: int): seq<Profile> {
    if profiles == [] then []
    else
      var front, p := Healthy(profiles[..|profiles| - 1], blacklist, now), profiles[|profiles| - 1];
      if Blocked(blacklist, p.id, now) then front else front + [p]
  }

  predicate Stored(profiles: seq<Profile>, id: string) {
    exists i :: 0 <= i < |profiles| && profiles[i].id == id
  }

  /** The blacklist without the expired entries of stored profiles. */
  function Purged(blacklist: map<string, int>, profiles: seq<Profile>, now: int): map<string, int> {
    map id | id in blacklist && (now < blacklist[id] || !Stored(profiles, id)) :: blacklist[id]
  }

  // ---------- one rotation ----------

  function FallbackConfig(p: Profile): Config {
    NO_CONFIG.(protocol := p.family, rotationIntervalSec := 600)
  }

  function Ban(m: Manager, id: string, until: int): Manager {
    m.(blacklist := m.blacklist[id := until])
  }

  function Switched(m: Manager, p: Profile, advisorOk: bool): Manager {
    m.(current := p, config := if advisorOk then m.config else FallbackConfig(p))
  }

  function Applied(m: Manager, w: World): (Manager, Outcome) {
    if !w.generateOk then (m, NotGenerated(m.current))
    else if !w.reloadOk then (Ban(m, m.current.id, w.failTime + RELOAD_PENALTY), NotReloaded(m.current))
    else (m, Running(m.current))
  }

  function Rotated(m: Manager, w: World): (Manager, Outcome) {
    match w.loading
    case LoadFailed => (m, NoStore)
    case Loaded(profiles) =>
      var healthy := Healthy(profiles, m.blacklist, w.healthTime);
      var purged := m.(blacklist := Purged(m.blacklist, profiles, w.healthTime));
      if healthy == [] then (purged, NoCandidates)
      else Applied(Switched(purged, healthy[0], w.advisorOk), w)
  }

  // ---------- anomalies ----------

  /** The anomalies of the last sixty seconds. */
  function Within(s: seq<Anomaly>, now: int): seq<Anomaly> {
    if s == [] then []
    else
      var front, a := Within(s[..|s| - 1], now), s[|s| - 1];
      if a.timestamp > now - ANOMALY_WINDOW then front + [a] else front
  }

  predicate Emergency(recent: seq<Anomaly>, a: Anomaly, now: int) {
    |Within(recent + [a], now)| >= ANOMALY_THRESHOLD
  }

  // ---------- the loop ----------

  /** What happens in the loop of Start.  A tick, like the start itself, only rotates; an anomaly
      reads the clock for its window and, in an emergency, once more for the penalty. */
  datatype Event = Tick(w: World) | Report(a: Anomaly, now: int, penaltyTime: int, w: World)

  datatype Loop = Loop(m: Manager, recent: seq<Anomaly>)

  predicate Fires(s: Loop, e: Event) {
    e.Report? && Emergency(s.recent, e.a, e.now)
  }

  /** The manager at the moment an event makes it rotate. */
  function BeforeRotate(s: Loop, e: Event): Manager {
    if e.Report? then Ban(s.m, s.m.current.id, e.penaltyTime + EMERGENCY_PENALTY) else s.m
  }

  predicate Rotates(s: Loop, e: Event) {
    e.Tick? || Fires(s, e)
  }

  function Next(s: Loop, e: Event): Loop {
    if Rotates(s, e) then Loop(Rotated(BeforeRotate(s, e), e.w).0, if e.Tick? then s.recent else [])
    else Loop(s.m, Within(s.recent + [e.a], e.now))
  }

  // ---------- the manager ----------

  lemma HealthySnoc(front: seq<Profile>, p: Profile, blacklist: map<string, int>, now: int)
    ensures Healthy(front + [p], blacklist, now) ==
            if Blocked(blacklist, p.id, now) then Healthy(front, blacklist, now) else Healthy(front, blacklist, now) + [p]
  {
    assert (front + [p])[..|front|] == front;
  }

  lemma PurgedSnoc(front: seq<Profile>, p: Profile, blacklist: map<string, int>, now: int)
    ensures var before, after := Purged(blacklist, front, now), Purged(blacklist, front + [p], now);
            && (Blocked(before, p.id, now) <==> Blocked(blacklist, p.id, now))
            && after == if Blocked(blacklist, p.id, now) then before else before - {p.id}
  {
    var longer := front + [p];
    forall id ensures Stored(longer, id) <==> Stored(front, id) || id == p.id {
      assert longer[|front|] == p;
      if Stored(front, id) {
        var i :| 0 <= i < |front| && front[i].id == id;
        assert longer[i].id == id;
      }
    }
    hide Stored;
  }

  lemma NothingPurged(blacklist: map<string, int>, now: int)
    ensures Purged(blacklist, [], now) == blacklist
  {
  }

  lemma WithinSnoc(s: seq<Anomaly>, a: Anomaly, now: int)
    ensures Within(s + [a], now) == if a.timestamp > now - ANOMALY_WINDOW then Within(s, now) + [a] else Within(s, now)
  {
    assert (s + [a])[..|s|] == s;
  }

  class RotationManager {
    var currentProfile: Profile
    var currentConfig: Config
    var blacklist: map<string, int>

    ghost function Value(): Manager
      reads this
    {
      Manager(currentProfile, currentConfig, blacklist)
    }

    /** NewRotationManager; no profile has been chosen yet. */
    constructor (none: Profile)
      ensures Value() == Manager(none, NO_CONFIG, map[])
    {
      currentProfile, currentConfig, blacklist := none, NO_CONFIG, map[];
    }

    /** The loop deletes the expired entries it meets. */
    method GetHealthyCandidates(profiles: seq<Profile>, now: int) returns (healthy: seq<Profile>)
      modifies this`blacklist
      ensures healthy == Healthy(profiles, old(blacklist), now)
      ensures blacklist == Purged(old(blacklist), profiles, now)
    {
      healthy := [];
      NothingPurged(blacklist, now);
      for i := 0 to |profiles|
        invariant healthy == Healthy(profiles[..i], old(blacklist), now)
        invariant blacklist == Purged(old(blacklist), profiles[..i], now)
      {
        hide Healthy, Purged;
        var p := profiles[i];
        HealthySnoc(profiles[..i], p, old(blacklist), now);
        PurgedSnoc(profiles[..i], p, old(blacklist), now);
        assert profiles[..i + 1] == profiles[..i] + [p];
        if p.id in blacklist {
          if now < blacklist[p.id] {
            continue;
          }
          blacklist := blacklist - {p.id};
        } else {
          assert blacklist - {p.id} == blacklist;
        }
        healthy := healthy + [p];
      }
      assert profiles[..|profiles|] == profiles;
    }

    method Rotate(w: World) returns (outcome: Outcome)
      modifies this
      ensures (Value(), outcome) == Rotated(old(Value()), w)
    {
      hide Healthy, Purged;
      if w.loading.LoadFailed? {
        return NoStore;
      }
      var candidates := GetHealthyCandidates(w.loading.profiles, w.healthTime);
      if |candidates| == 0 {
        return NoCandidates;
      }
      currentProfile := candidates[0];
      if !w.advisorOk {
        currentConfig := FallbackConfig(currentProfile);
      }
      if !w.generateOk {
        return NotGenerated(currentProfile);
      }
      if !w.reloadOk {
        blacklist := blacklist[currentProfile.id := w.failTime + RELOAD_PENALTY];
        return NotReloaded(currentProfile);
      }
      return Running(currentProfile);
    }

    /** The branch of the loop of Start that receives an anomaly. */
    method HandleAnomaly(recent: seq<Anomaly>, event: Anomaly, now: int, penaltyTime: int, w: World)
      returns (held: seq<Anomaly>)
      modifies this
      ensures Loop(Value(), held) == Next(Loop(old(Value()), recent), Report(event, now, penaltyTime, w))
    {
      hide Rotated;
      var anomalies := recent + [event];
      held := [];
      for i := 0 to |anomalies|
        invariant Value() == old(Value()) && held == Within(anomalies[..i], now)
      {
        hide Within;
        WithinSnoc(anomalies[..i], anomalies[i], now);
        assert anomalies[..i + 1] == anomalies[..i] + [anomalies[i]];
        if anomalies[i].timestamp > now - ANOMALY_WINDOW {
          held := held + [anomalies[i]];
        }
      }
      assert anomalies[..|anomalies|] == anomalies;
      assert Emergency(recent, event, now) <==> |held| >= ANOMALY_THRESHOLD;
      assert Value() == old(Value());
      if |held| >= ANOMALY_THRESHOLD {
        ghost var banned := Ban(Value(), currentProfile.id, penaltyTime + EMERGENCY_PENALTY);
        blacklist := blacklist[currentProfile.id := penaltyTime + EMERGENCY_PENALTY];
        assert Value() == banned;
        var outcome := Rotate(w);
        assert (Value(), outcome).0 == Rotated(banned, w).0;
        held := [];
      }
    }
  }
}
