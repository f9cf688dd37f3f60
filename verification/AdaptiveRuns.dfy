/** Runs of the adaptive state: however long a run is, the bounded memory is an exact view of its
    whole history. */
module AdaptiveRuns {
  import opened Text
  import opened Windows
  import opened AdaptiveMemory

  /** The calls that reach an AdaptiveState.  Restart is SnapshotDisk followed by ReplaceDisk into
      a new state; Select is the effect of SelectProfile on the memory. */
  datatype Act =
    | Attempt(id: string, signal: AttemptSignal, failure: string)
    | Selection(id: string)
    | SetEnabled(enabled: bool)
    | Reset
    | Restart
    | Select

  datatype Op = Op(at: int, act: Act)

  function Apply(m: Memory, op: Op): Memory {
    match op.act
    case Attempt(id, signal, failure) => Attempted(m, id, signal, failure, op.at)
    case Selection(id) => Selected(m, id)
    case SetEnabled(b) => m.(enabled := b)
    case Reset => Cleared(m)
    case Restart => WithDefaults(WithDefaults(m))
    case Select => WithDefaults(m)
  }

  function After(m: Memory, ops: seq<Op>): Memory
    decreases |ops|
  {
    if ops == [] then m else Apply(After(m, ops[..|ops| - 1]), ops[|ops| - 1])
  }

  // ---------- the whole history ----------

  function OnNext(on: bool, op: Op): bool {
    if op.act.SetEnabled? then op.act.enabled else on
  }

  function LogNext(on: bool, log: seq<NetworkEvent>, op: Op): seq<NetworkEvent> {
    match op.act
    case Attempt(id, signal, failure) => if on && !Blank(id) then log + [EventOf(id, signal, failure, op.at)] else log
    case Reset => []
    case _ => log
  }

  function PicksNext(picks: seq<string>, op: Op): seq<string> {
    match op.act
    case Selection(id) => if Blank(id) then picks else picks + [id]
    case Reset => []
    case _ => picks
  }

  /** Is recording on after these calls? */
  predicate On(ops: seq<Op>) {
    if ops == [] then true else OnNext(On(ops[..|ops| - 1]), ops[|ops| - 1])
  }

  /** Every attempt accepted since the last reset. */
  function Log(ops: seq<Op>): seq<NetworkEvent> {
    if ops == [] then []
    else LogNext(On(ops[..|ops| - 1]), Log(ops[..|ops| - 1]), ops[|ops| - 1])
  }

  /** Every selection since the last reset that was not blank. */
  function Picks(ops: seq<Op>): seq<string> {
    if ops == [] then [] else PicksNext(Picks(ops[..|ops| - 1]), ops[|ops| - 1])
  }

  /** `i` is the last failed attempt with `id`. */
  ghost predicate LastFailure(log: seq<NetworkEvent>, id: string, i: int) {
    && 0 <= i < |log| && log[i].profileId == id && !log[i].success
    && forall j :: i < j < |log| ==> log[j].success || log[j].profileId != id
  }

  /** A cooldown is kept for exactly the profiles that failed, counted from their last failure. */
  ghost predicate CooldownsOf(log: seq<NetworkEvent>, cooldown: map<string, int>) {
    && (forall id :: id in cooldown ==> exists i :: LastFailure(log, id, i) && cooldown[id] == log[i].timestamp + 60)
    && (forall i :: 0 <= i < |log| && !log[i].success ==> log[i].profileId in cooldown)
  }

  /** `m` is the bounded view of what was recorded. */
  ghost predicate View(m: Memory, maxEvents: nat, on: bool, log: seq<NetworkEvent>, picks: seq<string>) {
    && m.enabled == on && m.maxEvents == maxEvents
    && m.events == LastN(log, maxEvents)
    && CooldownsOf(log, m.cooldown)
    && m.history == LastN(picks, 32)
  }

  lemma CooldownsAppend(log: seq<NetworkEvent>, cooldown: map<string, int>, ev: NetworkEvent)
    requires CooldownsOf(log, cooldown)
    ensures CooldownsOf(log + [ev], if ev.success then cooldown else cooldown[ev.profileId := ev.timestamp + COOLDOWN_SECONDS])
  {
    var longer := log + [ev];
    var after := if ev.success then cooldown else cooldown[ev.profileId := ev.timestamp + COOLDOWN_SECONDS];
    forall id | id in after
      ensures exists i :: LastFailure(longer, id, i) && after[id] == longer[i].timestamp + COOLDOWN_SECONDS
    {
      if !ev.success && id == ev.profileId {
        assert LastFailure(longer, id, |log|);
      } else {
        var i :| LastFailure(log, id, i) && cooldown[id] == log[i].timestamp + COOLDOWN_SECONDS;
        assert LastFailure(longer, id, i);
      }
    }
  }

  lemma RememberAttempt(m: Memory, log: seq<NetworkEvent>, ev: NetworkEvent)
    requires m.maxEvents >= 0 && m.events == LastN(log, m.maxEvents) && CooldownsOf(log, m.cooldown)
    ensures Recorded(m, ev).events == LastN(log + [ev], m.maxEvents)
    ensures CooldownsOf(log + [ev], Recorded(m, ev).cooldown)
  {
    hide CooldownsOf, LastN;
    LastNAppend(log, ev, m.maxEvents);
    CooldownsAppend(log, m.cooldown, ev);
  }

  lemma ViewAttempt(m: Memory, maxEvents: nat, on: bool, log: seq<NetworkEvent>, picks: seq<string>, op: Op)
    requires 50 <= maxEvents <= 100 && View(m, maxEvents, on, log, picks) && op.act.Attempt?
    ensures View(Apply(m, op), maxEvents, on, LogNext(on, log, op), picks)
  {
    hide Blank, EventOf, CooldownsOf, LastN;
    if on && !Blank(op.act.id) {
      RememberAttempt(m, log, EventOf(op.act.id, op.act.signal, op.act.failure, op.at));
    }
  }

  lemma ViewStep(m: Memory, maxEvents: nat, on: bool, log: seq<NetworkEvent>, picks: seq<string>, op: Op)
    requires 50 <= maxEvents <= 100 && View(m, maxEvents, on, log, picks)
    ensures View(Apply(m, op), maxEvents, OnNext(on, op), LogNext(on, log, op), PicksNext(picks, op))
  {
    if op.act.Attempt? {
      ViewAttempt(m, maxEvents, on, log, picks, op);
      hide View, Apply;
    } else {
      hide Blank, CooldownsOf, LastN;
      if op.act.Selection? {
        LastNAppend(picks, op.act.id, HISTORY_SIZE);
      }
      NothingToRemember(maxEvents);
    }
  }

  lemma NothingToRemember(n: nat)
    ensures CooldownsOf([], map[]) && LastN<NetworkEvent>([], n) == [] && LastN<string>([], HISTORY_SIZE) == []
  {
  }

  lemma FreshView(maxEvents: int)
    ensures View(NewMemory(maxEvents), WindowSize(maxEvents), true, [], [])
  {
    NothingToRemember(WindowSize(maxEvents));
  }

  /** The refinement theorem: the window holds exactly the last accepted attempts, the cooldowns are
      exactly those of the whole log, evicted attempts included, and the history is exactly the last
      32 selections that were not blank. */
  lemma {:induction false} BoundedMemory(maxEvents: int, ops: seq<Op>)
    ensures View(After(NewMemory(maxEvents), ops), WindowSize(maxEvents), On(ops), Log(ops), Picks(ops))
    decreases |ops|
  {
    hide Apply, NewMemory, View, OnNext, LogNext, PicksNext;
    FreshView(maxEvents);
    if ops != [] {
      var front, op := ops[..|ops| - 1], ops[|ops| - 1];
      BoundedMemory(maxEvents, front);
      ViewStep(After(NewMemory(maxEvents), front), WindowSize(maxEvents), On(front), Log(front), Picks(front), op);
    }
  }

  /** Cutting the history to 32 never changes whether the diversity limit is reached. */
  lemma StreakExact(maxEvents: int, ops: seq<Op>, id: string)
    ensures Streak(After(NewMemory(maxEvents), ops).history, id) >= 10 <==> Streak(Picks(ops), id) >= 10
  {
    BoundedMemory(maxEvents, ops);
    hide After, On, Log, Picks, CooldownsOf, LastN, Streak, NewMemory, WindowSize;
    StreakInWindow(Picks(ops), id, HISTORY_SIZE);
  }

  // ---------- cooldowns along a run ----------

  predicate Clocked(ops: seq<Op>) {
    forall i, j :: 0 <= i < j < |ops| ==> ops[i].at <= ops[j].at
  }

  predicate NoReset(ops: seq<Op>) {
    forall i :: 0 <= i < |ops| ==> !ops[i].act.Reset?
  }

  predicate CoolsUntil(m: Memory, id: string, until: int) {
    id in m.cooldown && m.cooldown[id] >= until
  }

  lemma CooldownStep(m: Memory, op: Op, id: string, since: int)
    requires CoolsUntil(m, id, since + COOLDOWN_SECONDS) && op.at >= since && !op.act.Reset?
    ensures CoolsUntil(Apply(m, op), id, since + COOLDOWN_SECONDS)
  {
    hide Blank, NormalizeFailure, LastN;
  }

  lemma {:induction false} CooldownKept(m: Memory, ops: seq<Op>, id: string, since: int)
    requires CoolsUntil(m, id, since + COOLDOWN_SECONDS) && NoReset(ops)
    requires forall i :: 0 <= i < |ops| ==> ops[i].at >= since
    ensures CoolsUntil(After(m, ops), id, since + COOLDOWN_SECONDS)
    decreases |ops|
  {
    hide Apply, CoolsUntil;
    if ops != [] {
      var front, op := ops[..|ops| - 1], ops[|ops| - 1];
      assert forall i :: 0 <= i < |front| ==> front[i] == ops[i];
      CooldownKept(m, front, id, since);
      CooldownStep(After(m, front), op, id, since);
    }
  }

  lemma {:induction false} AfterConcat(m: Memory, ops: seq<Op>, more: seq<Op>)
    ensures After(m, ops + more) == After(After(m, ops), more)
    decreases |more|
  {
    hide Apply;
    if more == [] {
      assert ops + more == ops;
    } else {
      var n := |more| - 1;
      assert (ops + more)[..|ops| + n] == ops + more[..n];
      AfterConcat(m, ops, more[..n]);
    }
  }

  /** A failed attempt that was accepted at some time keeps its cooldown for 60 seconds through
      everything but a reset: other attempts, evictions, restarts, switching off. */
  lemma FailureCools(maxEvents: int, before: seq<Op>, op: Op, ops: seq<Op>)
    requires On(before) && op.act.Attempt? && !Blank(op.act.id) && !op.act.signal.connectOk
    requires Clocked(before + [op] + ops) && NoReset(ops)
    ensures CoolsUntil(After(NewMemory(maxEvents), before + [op] + ops), op.act.id, op.at + 60)
  {
    LaterThan(before, op, ops);
    BoundedMemory(maxEvents, before);
    hide On, Clocked, NoReset, LastN, CooldownsOf, NewMemory;
    var m := After(NewMemory(maxEvents), before);
    AfterConcat(NewMemory(maxEvents), before + [op], ops);
    AfterConcat(NewMemory(maxEvents), before, [op]);
    assert After(m, [op]) == Apply(m, op) by {
      assert [op][..0] == [];
      hide Apply;
    }
    hide After;
    AttemptCools(m, op);
    hide Apply, CoolsUntil, View;
    CooldownKept(Apply(m, op), ops, op.act.id, op.at);
  }

  lemma AttemptCools(m: Memory, op: Op)
    requires m.enabled && op.act.Attempt? && !Blank(op.act.id) && !op.act.signal.connectOk
    ensures CoolsUntil(Apply(m, op), op.act.id, op.at + COOLDOWN_SECONDS)
  {
    hide Blank, NormalizeFailure, LastN;
  }

  lemma LaterThan(before: seq<Op>, op: Op, ops: seq<Op>)
    requires Clocked(before + [op] + ops)
    ensures forall i :: 0 <= i < |ops| ==> ops[i].at >= op.at
  {
    var all := before + [op] + ops;
    forall i | 0 <= i < |ops| ensures ops[i].at >= op.at {
      assert all[|before| + 1 + i] == ops[i] && all[|before|] == op;
    }
  }
}
