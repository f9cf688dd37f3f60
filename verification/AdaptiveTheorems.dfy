/** What the adaptive policy guarantees over whole runs: memory and ranking taken together. */
module AdaptiveTheorems {
  import opened Text
  import opened Profiles
  import opened AdaptiveMemory
  import opened AdaptiveScores
  import opened AdaptiveRanking
  import opened AdaptiveRuns
  import opened Sorting
  import Engine

  /** A profile whose failed attempt was accepted at some time is in no ranking for 60 seconds:
      whatever was recorded since, even if the attempt was evicted from the window, after restarts,
      and in the fallback branch as well. */
  lemma FailedStaysOut(maxEvents: int, before: seq<Op>, op: Op, later: seq<Op>,
                       profiles: seq<Profile>, now: int, ranked: seq<Profile>, d: Decision)
    requires On(before) && op.act.Attempt? && !Blank(op.act.id) && !op.act.signal.connectOk
    requires Clocked(before + [op] + later) && NoReset(later)
    requires now < op.at + 60
    requires Decided(After(NewMemory(maxEvents), before + [op] + later), profiles, now, ranked, d)
    ensures forall q :: q in ranked ==> q.id != op.act.id
  {
    hide On, Clocked, NoReset, Decided, After;
    FailureCools(maxEvents, before, op, later);
    var m := After(NewMemory(maxEvents), before + [op] + later);
    forall q | q in ranked ensures q.id != op.act.id {
      RankedAreCopies(m, profiles, now, q := q, ranked := ranked, d := d);
      CopyCooled(m, profiles, now, q);
    }
  }

  /** The same at the engine, as long as the adaptive state may select anything at all. */
  lemma FailedStaysOutOfEngine(maxEvents: int, before: seq<Op>, op: Op, later: seq<Op>, profiles: seq<Profile>,
                               n1: int, n2: int, n3: int, p: Profile, d: Decision, ranked: seq<Profile>)
    requires On(before) && op.act.Attempt? && !Blank(op.act.id) && !op.act.signal.connectOk
    requires Clocked(before + [op] + later) && NoReset(later)
    requires n1 < op.at + 60
    requires var a := Engine.Some(After(NewMemory(maxEvents), before + [op] + later));
             Engine.AdaptiveServes(a, profiles, n1) && Engine.SelectAnswer(a, profiles, n1, n2, n3, p, d, ranked)
    ensures forall q :: q in ranked ==> q.id != op.act.id
  {
    hide On, Clocked, NoReset, After, Engine.AdaptiveServes, Engine.SelectAnswer;
    FailureCools(maxEvents, before, op, later);
    var m := After(NewMemory(maxEvents), before + [op] + later);
    Engine.CoolingStaysOut(Engine.Some(m), profiles, n1, n2, n3, p, d, ranked, op.act.id);
  }

  /** Sixty seconds after the last failure the adaptive cooldown is over. */
  lemma CooldownEnds(maxEvents: int, ops: seq<Op>, id: string, now: int)
    requires forall i :: LastFailure(Log(ops), id, i) ==> Log(ops)[i].timestamp + 60 <= now
    requires now >= 0
    ensures CooldownOf(After(NewMemory(maxEvents), ops), id) <= now
  {
    BoundedMemory(maxEvents, ops);
    var m, log := After(NewMemory(maxEvents), ops), Log(ops);
    assert CooldownsOf(log, m.cooldown);
    hide On, Log, Picks, After, NewMemory, View, LastFailure;
    if id in m.cooldown {
      var i :| LastFailure(log, id, i) && m.cooldown[id] == log[i].timestamp + 60;
    }
  }

  /** In both branches the scores of sane profiles are at most 131. */
  lemma RankedScoreBound(m: Memory, profiles: seq<Profile>, now: int, ranked: seq<Profile>, d: Decision, q: Profile)
    requires Decided(m, profiles, now, ranked, d) && q in ranked
    requires forall i :: 0 <= i < |profiles| ==> SaneFigures(profiles[i])
    ensures q.health.score <= 131.0
  {
    RankedAreCopies(m, profiles, now, ranked, d, q);
    hide Decided, Selectable, Admitted, Scored, FallbackScored, SaneFigures;
    var i :| 0 <= i < |profiles| && (q == FallbackScored(profiles[i]) || q == Scored(m, profiles[i], now));
    CopyBound(m, profiles[i], now);
  }

  lemma CopyBound(m: Memory, p: Profile, now: int)
    requires SaneFigures(p)
    ensures Scored(m, p, now).health.score <= 131.0 && FallbackScored(p).health.score <= 131.0
  {
    hide Score, DirectTally, RecentFailures;
    ScoreBound(p, m.events, p.id, now, RecentFailures(m.events));
  }

  /** While UDP failures are recent, a TCP profile stands before its UDP twin in every ranking. */
  lemma TcpBeforeUdp(m: Memory, profiles: seq<Profile>, now: int, ranked: seq<Profile>, d: Decision,
                     tcp: Profile, udp: Profile, i: nat, j: nat)
    requires Decided(m, profiles, now, ranked, d) && i < |ranked| && j < |ranked|
    requires ranked[i] == Scored(m, tcp, now) && ranked[j] == Scored(m, udp, now)
    requires EqualFold(tcp.capabilities.transport, "tcp") && EqualFold(udp.capabilities.transport, "udp")
    requires udp == tcp.(id := udp.id, capabilities := tcp.capabilities.(transport := udp.capabilities.transport))
    requires DirectTally(m.events, tcp.id, now) == DirectTally(m.events, udp.id, now)
    requires "UDP_BLOCKED" in RecentFailures(m.events)
    ensures i < j
  {
    Engine.DecidedSorted(m, profiles, now, ranked, d);
    UdpGap(tcp, udp, m.events, now);
    hide Decided, Score, DirectTally, RecentFailures, EqualFold;
    assert j < i ==> BetterProfile(ranked[j], ranked[i]);
  }

  /** The diversity guard judges the whole history although only 32 selections are kept: it moves to
      the second of the ranking exactly when the first one made the last ten selections and the two
      are at most five points apart. */
  lemma GuardJudgesWholeRun(maxEvents: int, ops: seq<Op>, ranked: seq<Profile>)
    requires |ranked| > 1
    ensures Guarded(After(NewMemory(maxEvents), ops), ranked) <==>
            (ranked[0].health.score - ranked[1].health.score <= 5.0 && |Picks(ops)| >= 10
             && forall i :: |Picks(ops)| - 10 <= i < |Picks(ops)| ==> Picks(ops)[i] == ranked[0].id)
  {
    StreakExact(maxEvents, ops, ranked[0].id);
    hide After, NewMemory;
    var picks, n := Picks(ops), Streak(Picks(ops), ranked[0].id);
    hide Picks;
    if n < 10 && n < |picks| {
      assert picks[|picks| - n - 1] != ranked[0].id;
    }
  }
}
