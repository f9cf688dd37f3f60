/** The event bus as a step system.  publish holds the mutex from its first to its last step, but
    its three selects per subscriber interleave with receives of the consumers and with the close
    of a channel that was cancelled before.  `log` is the history of everything published. */
module EventBusSteps {
  import opened EventBus
  import opened Windows

  type Event = RuntimeEvent

  /** A subscriber's channel.  The first two fields are the channel itself, the rest is history:
      the length of the log when it was made, how much of the log it has been offered since, what
      the consumer took out and at which positions of the log. */
  datatype Chan = Chan(buf: seq<Event>, closed: bool, first: nat, offered: nat, got: seq<Event>, at: seq<int>)

  /** Which select of sendDropOldest comes next. */
  datatype Select = SendFirst | DropOldest | SendAgain

  datatype Current = NoChannel | Sending(ch: nat, select: Select)

  datatype Publisher = Idle | Publishing(ev: Event, todo: set<nat>, current: Current)

  datatype State = State(
    maxRing: nat, capacity: nat, log: seq<Event>, ring: seq<Event>, subs: set<nat>,
    chans: map<nat, Chan>, cancelled: set<nat>, closing: set<nat>, publisher: Publisher, panicked: bool)

  datatype Step =
    | Publish(ev: Event) | Pick(ch: nat) | RunSelect | Unlock
    | Subscribe(ch: nat) | CancelDelete(ch: nat) | CancelClose(ch: nat) | Receive(ch: nat)

  function Start(maxRing: int, subBufLen: int): State {
    State(if maxRing < 1 then 1 else maxRing, if subBufLen < 1 then 1 else subBufLen, [], [], {}, map[], {}, {}, Idle, false)
  }

  // ---------- one step ----------

  predicate Enabled(s: State, step: Step) {
    match step
    case Publish(_) => s.publisher.Idle?
    case Pick(c) => s.publisher.Publishing? && s.publisher.current.NoChannel? && c in s.publisher.todo
    case RunSelect => s.publisher.Publishing? && s.publisher.current.Sending? && s.publisher.current.ch in s.chans
    case Unlock => s.publisher.Publishing? && s.publisher.current.NoChannel? && s.publisher.todo == {}
    case Subscribe(c) => s.publisher.Idle? && c !in s.chans
    case CancelDelete(c) => s.publisher.Idle? && c in s.chans && c !in s.cancelled  // each subscriber cancels once
    case CancelClose(c) => c in s.closing && c in s.chans
    case Receive(c) => c in s.chans && s.chans[c].buf != []
  }

  function NewChan(n: nat): Chan {
    Chan([], false, n, n, [], [])
  }

  function Push(chan: Chan, ev: Event): Chan {
    chan.(buf := chan.buf + [ev], offered := chan.offered + 1)
  }

  function Drop(chan: Chan): Chan {
    if chan.buf == [] then chan else chan.(buf := chan.buf[1..])
  }

  function Take(chan: Chan): Chan
    requires chan.buf != []
  {
    chan.(buf := chan.buf[1..], got := chan.got + [chan.buf[0]], at := chan.at + [chan.offered - |chan.buf|])
  }

  function SetChan(s: State, c: nat, chan: Chan): State {
    s.(chans := s.chans[c := chan])
  }

  /** sendDropOldest returns; on to the next subscriber. */
  function Finish(s: State, c: nat, chan: Chan): State
    requires s.publisher.Publishing?
  {
    SetChan(s, c, chan).(publisher := Publishing(s.publisher.ev, s.publisher.todo - {c}, NoChannel))
  }

  function Goto(s: State, c: nat, select: Select): State
    requires s.publisher.Publishing?
  {
    s.(publisher := s.publisher.(current := Sending(c, select)))
  }

  function RunSelectOn(s: State, c: nat, select: Select): State
    requires s.publisher.Publishing? && c in s.chans
  {
    var chan := s.chans[c];
    match select
    case SendFirst =>
      if chan.closed then s.(panicked := true)
      else if |chan.buf| < s.capacity then Finish(s, c, Push(chan, s.publisher.ev))
      else Goto(s, c, DropOldest)
    case DropOldest => Goto(SetChan(s, c, Drop(chan)), c, SendAgain)
    case SendAgain =>
      if chan.closed then s.(panicked := true)
      else if |chan.buf| < s.capacity then Finish(s, c, Push(chan, s.publisher.ev))
      else Finish(s, c, chan)  // the event is lost for this subscriber
  }

  function Apply(s: State, step: Step): State
    requires Enabled(s, step)
  {
    match step
    case Publish(ev) =>
      s.(log := s.log + [ev], ring := LastN(s.ring + [ev], s.maxRing), publisher := Publishing(ev, s.subs, NoChannel))
    case Pick(c) => Goto(s, c, SendFirst)
    case RunSelect => RunSelectOn(s, s.publisher.current.ch, s.publisher.current.select)
    case Unlock => s.(publisher := Idle)
    case Subscribe(c) => SetChan(s, c, NewChan(|s.log|)).(subs := s.subs + {c})
    case CancelDelete(c) => s.(subs := s.subs - {c}, cancelled := s.cancelled + {c}, closing := s.closing + {c})
    case CancelClose(c) =>
      if s.chans[c].closed then s.(panicked := true)
      else SetChan(s, c, s.chans[c].(closed := true)).(closing := s.closing - {c})
    case Receive(c) => SetChan(s, c, Take(s.chans[c]))
  }

  // ---------- the invariant ----------

  /** A channel holds a contiguous run of the log, and its consumer took earlier events in order. */
  ghost predicate ChanOk(log: seq<Event>, capacity: nat, ch: Chan) {
    && |ch.buf| <= capacity
    && ch.first + |ch.buf| <= ch.offered <= |log|
    && ch.buf == log[ch.offered - |ch.buf|..ch.offered]
    && TakenOk(log, ch)
  }

  ghost predicate TakenOk(log: seq<Event>, ch: Chan) {
    && |ch.got| == |ch.at|
    && (forall i :: 0 <= i < |ch.at| ==> ch.first <= ch.at[i] < ch.offered - |ch.buf| && ch.at[i] < |log| && ch.got[i] == log[ch.at[i]])
    && (forall i, j :: 0 <= i < j < |ch.at| ==> ch.at[i] < ch.at[j])
  }

  ghost predicate ChansOk(log: seq<Event>, capacity: nat, chans: map<nat, Chan>) {
    forall c :: c in chans ==> ChanOk(log, capacity, chans[c])
  }

  /** Subscribers are open and not cancelled; a channel is closed at most once, after its cancel. */
  ghost predicate LifecycleOk(chans: map<nat, Chan>, subs: set<nat>, cancelled: set<nat>, closing: set<nat>) {
    && subs <= chans.Keys && cancelled <= chans.Keys && closing <= cancelled && subs !! cancelled
    && forall c :: c in chans && chans[c].closed ==> c in cancelled && c !in closing
  }

  /** Subscribers still to do have been offered all but the newest of `n` events, the others all. */
  ghost predicate Served(chans: map<nat, Chan>, subs: set<nat>, todo: set<nat>, n: int) {
    forall c :: c in subs && c in chans ==> chans[c].offered == if c in todo then n - 1 else n
  }

  ghost predicate PublisherOk(s: State) {
    match s.publisher
    case Idle => Served(s.chans, s.subs, {}, |s.log|)
    case Publishing(ev, todo, current) =>
      && s.log != [] && ev == s.log[|s.log| - 1] && todo <= s.subs
      && Served(s.chans, s.subs, todo, |s.log|)
      && (current.Sending? ==> current.ch in todo && current.ch in s.chans)
      && (current.Sending? && current.select == SendAgain ==> |s.chans[current.ch].buf| < s.capacity)
  }

  ghost predicate Inv(s: State) {
    && !s.panicked && s.capacity > 0
    && s.ring == LastN(s.log, s.maxRing)
    && ChansOk(s.log, s.capacity, s.chans)
    && LifecycleOk(s.chans, s.subs, s.cancelled, s.closing)
    && PublisherOk(s)
  }

  lemma StartInv(maxRing: int, subBufLen: int)
    ensures Inv(Start(maxRing, subBufLen))
  {
  }

  // ---------- one channel ----------

  lemma LongerLog(log: seq<Event>, ev: Event, capacity: nat, ch: Chan)
    requires ChanOk(log, capacity, ch)
    ensures ChanOk(log + [ev], capacity, ch)
  {
    var longer := log + [ev];
    assert longer[ch.offered - |ch.buf|..ch.offered] == log[ch.offered - |ch.buf|..ch.offered];
  }

  lemma PushOk(log: seq<Event>, capacity: nat, ch: Chan, ev: Event)
    requires ChanOk(log, capacity, ch) && |ch.buf| < capacity
    requires ch.offered == |log| - 1 && ev == log[|log| - 1]
    ensures ChanOk(log, capacity, Push(ch, ev))
  {
    var after := Push(ch, ev);
    assert after.buf == log[after.offered - |after.buf|..after.offered];
  }

  lemma DropOk(log: seq<Event>, capacity: nat, ch: Chan)
    requires ChanOk(log, capacity, ch) && capacity > 0
    ensures ChanOk(log, capacity, Drop(ch)) && |Drop(ch).buf| < capacity
  {
  }

  lemma TakeOk(log: seq<Event>, capacity: nat, ch: Chan)
    requires ChanOk(log, capacity, ch) && ch.buf != []
    ensures ChanOk(log, capacity, Take(ch))
  {
    var after, from := Take(ch), ch.offered - |ch.buf|;
    assert ch.buf[0] == log[from];
    assert after.buf == log[from + 1..ch.offered];
  }

  lemma CloseOk(log: seq<Event>, capacity: nat, ch: Chan)
    requires ChanOk(log, capacity, ch)
    ensures ChanOk(log, capacity, ch.(closed := true))
  {
  }

  lemma NewOk(log: seq<Event>, capacity: nat)
    ensures ChanOk(log, capacity, NewChan(|log|))
  {
  }

  // ---------- replacing one channel in the state ----------

  lemma SetChansOk(log: seq<Event>, capacity: nat, chans: map<nat, Chan>, c: nat, chan: Chan)
    requires ChansOk(log, capacity, chans) && ChanOk(log, capacity, chan)
    ensures ChansOk(log, capacity, chans[c := chan])
  {
    hide ChanOk;
  }

  lemma SetLifecycle(chans: map<nat, Chan>, subs: set<nat>, cancelled: set<nat>, closing: set<nat>, c: nat, chan: Chan)
    requires LifecycleOk(chans, subs, cancelled, closing) && c in chans && chan.closed == chans[c].closed
    ensures LifecycleOk(chans[c := chan], subs, cancelled, closing)
  {
  }

  lemma SetServed(chans: map<nat, Chan>, subs: set<nat>, todo: set<nat>, n: int, c: nat, chan: Chan)
    requires Served(chans, subs, todo, n) && c in chans && chan.offered == chans[c].offered
    ensures Served(chans[c := chan], subs, todo, n)
  {
  }

  lemma DoneServed(chans: map<nat, Chan>, subs: set<nat>, todo: set<nat>, n: int, c: nat, chan: Chan)
    requires Served(chans, subs, todo, n) && c in chans && chan.offered == n
    ensures Served(chans[c := chan], subs, todo - {c}, n)
  {
  }

  /** A subscriber is open, and has not been offered the event that is being sent to it. */
  lemma TargetOpen(s: State)
    requires Inv(s) && s.publisher.Publishing? && s.publisher.current.Sending?
    ensures (var c := s.publisher.current.ch;
             c in s.chans && c in s.subs && c in s.publisher.todo && !s.chans[c].closed && s.chans[c].offered == |s.log| - 1)
  {
    hide LastN, ChansOk;
    var c := s.publisher.current.ch;
    assert c in s.subs && c in s.chans;
  }

  // ---------- every step keeps the invariant ----------

  lemma StepPublish(s: State, ev: Event)
    requires Inv(s) && Enabled(s, Publish(ev))
    ensures Inv(Apply(s, Publish(ev)))
  {
    var t := Apply(s, Publish(ev));
    LastNAppend(s.log, ev, s.maxRing);
    assert ChansOk(t.log, t.capacity, t.chans) by {
      forall c | c in t.chans ensures ChanOk(t.log, t.capacity, t.chans[c]) {
        LongerLog(s.log, ev, s.capacity, s.chans[c]);
      }
    }
  }

  lemma TargetPush(s: State)
    requires Inv(s) && s.publisher.Publishing? && s.publisher.current.Sending?
    requires s.publisher.current.ch in s.chans && |s.chans[s.publisher.current.ch].buf| < s.capacity
    ensures ChanOk(s.log, s.capacity, Push(s.chans[s.publisher.current.ch], s.publisher.ev))
  {
    TargetOpen(s);
    hide LastN, LifecycleOk, Served;
    assert ChanOk(s.log, s.capacity, s.chans[s.publisher.current.ch]);
    hide ChanOk, ChansOk;
    PushOk(s.log, s.capacity, s.chans[s.publisher.current.ch], s.publisher.ev);
  }

  lemma TargetDrop(s: State)
    requires Inv(s) && s.publisher.Publishing? && s.publisher.current.Sending? && s.publisher.current.ch in s.chans
    ensures ChanOk(s.log, s.capacity, Drop(s.chans[s.publisher.current.ch]))
    ensures |Drop(s.chans[s.publisher.current.ch]).buf| < s.capacity
  {
    hide LastN, LifecycleOk, Served;
    assert ChanOk(s.log, s.capacity, s.chans[s.publisher.current.ch]);
    hide ChanOk, ChansOk;
    DropOk(s.log, s.capacity, s.chans[s.publisher.current.ch]);
  }

  /** The last step of sendDropOldest when the event goes into the channel. */
  lemma FinishInv(s: State)
    requires Inv(s) && s.publisher.Publishing? && s.publisher.current.Sending?
    requires s.publisher.current.ch in s.chans && |s.chans[s.publisher.current.ch].buf| < s.capacity
    ensures Inv(Finish(s, s.publisher.current.ch, Push(s.chans[s.publisher.current.ch], s.publisher.ev)))
  {
    hide LastN, ChansOk, ChanOk, LifecycleOk, Served;
    TargetOpen(s);
    TargetPush(s);
    var c := s.publisher.current.ch;
    var chan := Push(s.chans[c], s.publisher.ev);
    SetChansOk(s.log, s.capacity, s.chans, c, chan);
    SetLifecycle(s.chans, s.subs, s.cancelled, s.closing, c, chan);
    DoneServed(s.chans, s.subs, s.publisher.todo, |s.log|, c, chan);
  }

  lemma DropInv(s: State)
    requires Inv(s) && s.publisher.Publishing? && s.publisher.current.Sending? && s.publisher.current.ch in s.chans
    ensures Inv(RunSelectOn(s, s.publisher.current.ch, DropOldest))
  {
    hide LastN, ChansOk, ChanOk, LifecycleOk, Served;
    TargetDrop(s);
    var c := s.publisher.current.ch;
    var chan := Drop(s.chans[c]);
    SetChansOk(s.log, s.capacity, s.chans, c, chan);
    SetLifecycle(s.chans, s.subs, s.cancelled, s.closing, c, chan);
    SetServed(s.chans, s.subs, s.publisher.todo, |s.log|, c, chan);
  }

  lemma FirstInv(s: State)
    requires Inv(s) && s.publisher.Publishing? && s.publisher.current.Sending? && s.publisher.current.ch in s.chans
    ensures Inv(RunSelectOn(s, s.publisher.current.ch, SendFirst))
  {
    hide LastN, ChansOk, ChanOk, LifecycleOk, Served, Push, Finish;
    TargetOpen(s);
    if |s.chans[s.publisher.current.ch].buf| < s.capacity {
      FinishInv(s);
      hide Inv;
    }
  }

  lemma AgainInv(s: State)
    requires Inv(s) && s.publisher.Publishing? && s.publisher.current.Sending? && s.publisher.current.select == SendAgain
    ensures s.publisher.current.ch in s.chans && |s.chans[s.publisher.current.ch].buf| < s.capacity
    ensures Inv(RunSelectOn(s, s.publisher.current.ch, SendAgain))
  {
    hide LastN, ChansOk, ChanOk, LifecycleOk, Served, Push, Finish;
    TargetOpen(s);
    assert |s.chans[s.publisher.current.ch].buf| < s.capacity;
    FinishInv(s);
    hide Inv;
  }

  lemma StepSelect(s: State)
    requires Inv(s) && Enabled(s, RunSelect)
    ensures Inv(Apply(s, RunSelect))
  {
    hide Inv, RunSelectOn;
    match s.publisher.current.select {
      case SendFirst => FirstInv(s);
      case DropOldest => DropInv(s);
      case SendAgain => AgainInv(s);
    }
  }

  lemma StepSubscribe(s: State, c: nat)
    requires Inv(s) && Enabled(s, Subscribe(c))
    ensures Inv(Apply(s, Subscribe(c)))
  {
    NewOk(s.log, s.capacity);
    hide LastN, ChansOk, ChanOk;
    SetChansOk(s.log, s.capacity, s.chans, c, NewChan(|s.log|));
    assert Served(s.chans[c := NewChan(|s.log|)], s.subs + {c}, {}, |s.log|);
  }

  lemma SetPublisherOk(s: State, c: nat, chan: Chan)
    requires PublisherOk(s) && c in s.chans && chan.offered == s.chans[c].offered && |chan.buf| <= |s.chans[c].buf|
    ensures PublisherOk(SetChan(s, c, chan))
  {
    hide Served;
    if s.publisher.Publishing? {
      SetServed(s.chans, s.subs, s.publisher.todo, |s.log|, c, chan);
    } else {
      SetServed(s.chans, s.subs, {}, |s.log|, c, chan);
    }
  }

  lemma CloseLifecycle(chans: map<nat, Chan>, subs: set<nat>, cancelled: set<nat>, closing: set<nat>, c: nat)
    requires LifecycleOk(chans, subs, cancelled, closing) && c in chans && c in closing
    ensures !chans[c].closed
    ensures LifecycleOk(chans[c := chans[c].(closed := true)], subs, cancelled, closing - {c})
  {
  }

  lemma StepClose(s: State, c: nat)
    requires Inv(s) && Enabled(s, CancelClose(c))
    ensures Inv(Apply(s, CancelClose(c)))
  {
    hide LastN, ChanOk, LifecycleOk, PublisherOk;
    assert ChanOk(s.log, s.capacity, s.chans[c]);
    hide ChansOk;
    var chan := s.chans[c].(closed := true);
    CloseOk(s.log, s.capacity, s.chans[c]);
    SetChansOk(s.log, s.capacity, s.chans, c, chan);
    CloseLifecycle(s.chans, s.subs, s.cancelled, s.closing, c);
    SetPublisherOk(s, c, chan);
    SamePublisherOk(SetChan(s, c, chan), Apply(s, CancelClose(c)));
  }

  lemma SamePublisherOk(s: State, t: State)
    requires PublisherOk(s) && t == s.(closing := t.closing)
    ensures PublisherOk(t)
  {
    hide Served;
  }

  lemma StepReceive(s: State, c: nat)
    requires Inv(s) && Enabled(s, Receive(c))
    ensures Inv(Apply(s, Receive(c)))
  {
    hide LastN, ChanOk, LifecycleOk, PublisherOk;
    assert ChanOk(s.log, s.capacity, s.chans[c]);
    hide ChansOk;
    var chan := Take(s.chans[c]);
    TakeOk(s.log, s.capacity, s.chans[c]);
    SetChansOk(s.log, s.capacity, s.chans, c, chan);
    SetLifecycle(s.chans, s.subs, s.cancelled, s.closing, c, chan);
    SetPublisherOk(s, c, chan);
  }

  lemma StepLock(s: State, step: Step)
    requires Inv(s) && Enabled(s, step) && (step.Pick? || step.Unlock? || step.CancelDelete?)
    ensures Inv(Apply(s, step))
  {
    hide LastN, ChanOk;
  }

  lemma StepInv(s: State, step: Step)
    requires Inv(s) && Enabled(s, step)
    ensures Inv(Apply(s, step))
  {
    hide Inv, Apply;
    match step {
      case Publish(ev) => StepPublish(s, ev);
      case RunSelect => StepSelect(s);
      case Subscribe(c) => StepSubscribe(s, c);
      case CancelClose(c) => StepClose(s, c);
      case Receive(c) => StepReceive(s, c);
      case _ => StepLock(s, step);
    }
  }

  // ---------- runs ----------

  /** `t` is reached from `s` by the given steps. */
  ghost predicate Run(s: State, steps: seq<Step>, t: State)
    decreases |steps|
  {
    if steps == [] then s == t
    else Enabled(s, steps[0]) && Run(Apply(s, steps[0]), steps[1..], t)
  }

  lemma {:induction false} RunInv(s: State, steps: seq<Step>, t: State)
    requires Inv(s) && Run(s, steps, t)
    ensures Inv(t)
    decreases |steps|
  {
    hide Inv, Apply;
    if steps != [] {
      StepInv(s, steps[0]);
      RunInv(Apply(s, steps[0]), steps[1..], t);
    }
  }

  /** What a subscriber sees: the buffer is the end of the log, and what was taken out is in log order. */
  ghost predicate InOrder(log: seq<Event>, ch: Chan) {
    && |ch.got| == |ch.at|
    && (forall i :: 0 <= i < |ch.at| ==> 0 <= ch.at[i] < |log| - |ch.buf| && ch.got[i] == log[ch.at[i]])
    && (forall i, j :: 0 <= i < j < |ch.at| ==> ch.at[i] < ch.at[j])
  }

  /** What came out of a channel and what is still in it is the log since it was made. */
  ghost predicate Gapless(log: seq<Event>, ch: Chan) {
    ch.first <= ch.offered <= |log| && ch.got + ch.buf == log[ch.first..ch.offered]
  }

  /** How many of the events offered to a channel are neither in it nor were taken out. */
  function Lost(ch: Chan): int {
    ch.offered - ch.first - |ch.buf| - |ch.got|
  }

  /** Increasing positions in a range lie at least as far in as they are many. */
  lemma {:induction false} PositionsSpread(at: seq<int>, from: int, until: int, i: nat)
    requires forall k :: 0 <= k < |at| ==> from <= at[k] < until
    requires forall j, k :: 0 <= j < k < |at| ==> at[j] < at[k]
    requires i < |at|
    ensures from + i <= at[i]
  {
    if i > 0 {
      PositionsSpread(at, from, until, i - 1);
    }
  }

  lemma {:induction false} PositionsLeft(at: seq<int>, from: int, until: int, i: nat)
    requires forall k :: 0 <= k < |at| ==> from <= at[k] < until
    requires forall j, k :: 0 <= j < k < |at| ==> at[j] < at[k]
    requires i < |at|
    ensures at[i] <= until - (|at| - i)
    decreases |at| - i
  {
    if i + 1 < |at| {
      PositionsLeft(at, from, until, i + 1);
    }
  }

  lemma TakenInARow(log: seq<Event>, ch: Chan, mid: int)
    requires TakenOk(log, ch) && mid == ch.offered - |ch.buf| == ch.first + |ch.got| && 0 <= ch.first <= mid <= |log|
    ensures ch.got == log[ch.first..mid]
  {
    forall i: nat | i < |ch.at| ensures ch.got[i] == log[ch.first..mid][i] {
      PositionsSpread(ch.at, ch.first, mid, i);
      PositionsLeft(ch.at, ch.first, mid, i);
    }
  }

  /** The number lost is never negative, and a channel that lost nothing holds what its consumer has
      not taken yet. */
  lemma NothingLost(log: seq<Event>, capacity: nat, ch: Chan)
    requires ChanOk(log, capacity, ch)
    ensures Lost(ch) >= 0
    ensures Lost(ch) == 0 ==> Gapless(log, ch)
  {
    var mid := ch.offered - |ch.buf|;
    if |ch.at| > 0 {
      PositionsSpread(ch.at, ch.first, mid, |ch.at| - 1);
    }
    if Lost(ch) == 0 {
      TakenInARow(log, ch, mid);
      hide TakenOk;
      assert log[ch.first..mid] + log[mid..ch.offered] == log[ch.first..ch.offered];
    }
  }

  lemma ChanInOrder(log: seq<Event>, capacity: nat, ch: Chan)
    requires ChanOk(log, capacity, ch)
    ensures InOrder(log, ch)
    ensures ch.offered == |log| ==> IsTail(ch.buf, log)
  {
  }

  lemma ChannelFacts(s: State, c: nat)
    requires Inv(s) && c in s.chans
    ensures InOrder(s.log, s.chans[c])
    ensures s.publisher.Idle? && c in s.subs ==> s.chans[c].offered == |s.log| && IsTail(s.chans[c].buf, s.log)
    ensures Lost(s.chans[c]) >= 0 && (Lost(s.chans[c]) == 0 ==> Gapless(s.log, s.chans[c]))
  {
    hide LastN, ChanOk, LifecycleOk;
    assert ChanOk(s.log, s.capacity, s.chans[c]);
    ChanInOrder(s.log, s.capacity, s.chans[c]);
    NothingLost(s.log, s.capacity, s.chans[c]);
  }

  lemma SubscribersHaveChannels(s: State)
    requires Inv(s)
    ensures s.subs <= s.chans.Keys
  {
    hide LastN, ChansOk, PublisherOk;
  }

  /** The safety theorem, for every interleaving from the start: nobody sends on a closed channel
      or closes one twice, the ring is the end of the log, between two publishes every live buffer
      is a contiguous run of the log that ends at the newest event, and every consumer got events
      of the log in log order. */
  lemma Safety(maxRing: int, subBufLen: int, steps: seq<Step>, t: State)
    requires Run(Start(maxRing, subBufLen), steps, t)
    ensures !t.panicked
    ensures t.ring == LastN(t.log, t.maxRing)
    ensures t.publisher.Idle? ==> forall c :: c in t.subs ==> c in t.chans && IsTail(t.chans[c].buf, t.log)
    ensures forall c :: c in t.chans ==> InOrder(t.log, t.chans[c])
  {
    hide *;
    StartInv(maxRing, subBufLen);
    RunInv(Start(maxRing, subBufLen), steps, t);
    SubscribersHaveChannels(t);
    RingIsTail(t);
    forall c | c in t.chans
      ensures InOrder(t.log, t.chans[c]) && (t.publisher.Idle? && c in t.subs ==> IsTail(t.chans[c].buf, t.log))
    {
      ChannelFacts(t, c);
    }
  }

  lemma RingIsTail(s: State)
    requires Inv(s)
    ensures !s.panicked && s.ring == LastN(s.log, s.maxRing)
  {
    hide LastN, ChansOk, LifecycleOk, PublisherOk;
  }

  /** The third select always finds room, so no event is lost on its way into a channel. */
  lemma ThirdSelectSends(s: State)
    requires Inv(s) && Enabled(s, RunSelect) && s.publisher.current.select == SendAgain
    ensures (var c := s.publisher.current.ch;
             Apply(s, RunSelect).chans == s.chans[c := Push(s.chans[c], s.publisher.ev)])
  {
    TargetOpen(s);
    hide LastN, ChansOk, ChanOk, LifecycleOk, Served;
  }

  // ---------- publish never blocks ----------

  predicate PublisherStep(step: Step) {
    step.Pick? || step.RunSelect? || step.Unlock?
  }

  /** How many steps publish has left at most. */
  function Work(p: Publisher): nat {
    match p
    case Idle => 0
    case Publishing(_, todo, NoChannel) => 4 * |todo| + 1
    case Publishing(_, todo, Sending(c, select)) =>
      4 * |todo - {c}| + (match select case SendFirst => 4 case DropOldest => 3 case SendAgain => 2)
  }

  /** Whatever the consumers did, publish has an enabled step. */
  lemma PublisherReady(s: State)
    requires Inv(s) && s.publisher.Publishing?
    ensures exists step :: PublisherStep(step) && Enabled(s, step)
  {
    hide LastN, ChansOk, LifecycleOk, Served;
    match s.publisher.current {
      case Sending(c, select) => assert Enabled(s, RunSelect);
      case NoChannel =>
        if s.publisher.todo == {} {
          assert Enabled(s, Unlock);
        } else {
          var c :| c in s.publisher.todo;
          assert Enabled(s, Pick(c));
        }
    }
  }

  lemma SizeWithout(todo: set<nat>, c: nat)
    requires c in todo
    ensures |todo| == |todo - {c}| + 1
  {
  }

  lemma SelectWork(s: State)
    requires Inv(s) && Enabled(s, RunSelect)
    ensures Work(Apply(s, RunSelect).publisher) < Work(s.publisher)
  {
    hide LastN, ChansOk, LifecycleOk, Served, Push, Drop;
    assert !RunSelectOn(s, s.publisher.current.ch, s.publisher.current.select).panicked by {
      StepSelect(s);
    }
  }

  lemma WorkStep(s: State, step: Step)
    requires Inv(s) && Enabled(s, step) && !step.Publish?
    ensures Work(Apply(s, step).publisher) + (if PublisherStep(step) then 1 else 0) <= Work(s.publisher)
  {
    hide Inv;
    if step.RunSelect? {
      SelectWork(s);
      hide Apply;
    } else if step.Pick? {
      SizeWithout(s.publisher.todo, step.ch);
    }
  }

  function PublisherSteps(steps: seq<Step>): nat {
    if steps == [] then 0
    else (if PublisherStep(steps[0]) then 1 else 0) + PublisherSteps(steps[1..])
  }

  /** Until the next call of publish, its steps use up its work: at most 4 per subscriber and 1. */
  lemma {:induction false} PublishFinishes(s: State, steps: seq<Step>, t: State)
    requires Inv(s) && Run(s, steps, t) && forall step :: step in steps ==> !step.Publish?
    ensures PublisherSteps(steps) + Work(t.publisher) <= Work(s.publisher)
    decreases |steps|
  {
    hide Inv, Apply, Work, PublisherStep;
    if steps != [] {
      assert steps[0] in steps && forall step :: step in steps[1..] ==> step in steps;
      StepInv(s, steps[0]);
      WorkStep(s, steps[0]);
      PublishFinishes(Apply(s, steps[0]), steps[1..], t);
    }
  }

  // ---------- what one publish costs a subscriber ----------

  /** Steps of one call of publish and of everybody else meanwhile. */
  predicate WithinPublish(steps: seq<Step>) {
    forall step :: step in steps ==> !step.Publish? && !step.Unlock?
  }

  predicate AtSelect(s: State, c: nat, select: Select) {
    s.publisher.Publishing? && s.publisher.current == Sending(c, select)
  }

  /** Somewhere in the run the first select for `c` finds the buffer full. */
  ghost predicate MeetsFull(s: State, steps: seq<Step>, c: nat)
    decreases |steps|
  {
    steps != [] && Enabled(s, steps[0])
    && ((steps[0].RunSelect? && AtSelect(s, c, SendFirst) && c in s.chans && |s.chans[c].buf| >= s.capacity)
        || MeetsFull(Apply(s, steps[0]), steps[1..], c))
  }

  /** Whether publish may still drop an event of `c`. */
  predicate MayDrop(s: State, c: nat) {
    s.publisher.Publishing? && c in s.publisher.todo && !AtSelect(s, c, SendAgain)
  }

  function Allowance(s: State, c: nat): nat {
    if MayDrop(s, c) then 1 else 0
  }

  ghost predicate LosesAtMost(s: State, t: State, c: nat)
    requires c in s.chans
  {
    c in t.chans && Lost(s.chans[c]) <= Lost(t.chans[c])
    && Lost(t.chans[c]) + Allowance(t, c) <= Lost(s.chans[c]) + Allowance(s, c)
    && (Lost(t.chans[c]) > Lost(s.chans[c]) ==> AtSelect(s, c, DropOldest))
  }

  lemma OtherLoses(s: State, c: nat)
    requires Enabled(s, RunSelect) && c in s.chans && s.publisher.current.ch != c
    ensures LosesAtMost(s, RunSelectOn(s, s.publisher.current.ch, s.publisher.current.select), c)
  {
    hide Push, Drop, Lost;
  }

  lemma OwnLoses(s: State, c: nat)
    requires Enabled(s, RunSelect) && c in s.chans && s.publisher.current.ch == c && c in s.publisher.todo
    requires !s.chans[c].closed
    requires s.publisher.current.select == SendAgain ==> |s.chans[c].buf| < s.capacity
    ensures LosesAtMost(s, RunSelectOn(s, c, s.publisher.current.select), c)
  {
  }

  lemma SelectLoses(s: State, c: nat)
    requires Inv(s) && Enabled(s, RunSelect) && c in s.chans
    ensures LosesAtMost(s, Apply(s, RunSelect), c)
  {
    TargetOpen(s);
    if s.publisher.current.ch == c {
      assert s.publisher.current.select == SendAgain ==> |s.chans[c].buf| < s.capacity by { hide LastN, ChansOk, LifecycleOk, Served; }
      hide LosesAtMost, RunSelectOn, Inv;
      OwnLoses(s, c);
    } else {
      hide LosesAtMost, RunSelectOn, Inv;
      OtherLoses(s, c);
    }
  }

  lemma StepLoses(s: State, step: Step, c: nat)
    requires Inv(s) && Enabled(s, step) && c in s.chans && !step.Publish?
    ensures LosesAtMost(s, Apply(s, step), c)
  {
    if step.RunSelect? {
      SelectLoses(s, c);
      hide Apply, Inv, LosesAtMost;
    } else {
      hide Inv;
    }
  }

  /** The second select for `c` comes only after its first one found the buffer full. */
  lemma ReachesDrop(s: State, step: Step, c: nat)
    requires Enabled(s, step) && AtSelect(Apply(s, step), c, DropOldest) && !AtSelect(s, c, DropOldest)
    ensures step.RunSelect? && AtSelect(s, c, SendFirst) && c in s.chans && |s.chans[c].buf| >= s.capacity
  {
    hide LastN, Push, Drop;
  }

  lemma {:induction false} RunLoses(s: State, steps: seq<Step>, t: State, c: nat)
    requires Inv(s) && Run(s, steps, t) && c in s.chans && forall step :: step in steps ==> !step.Publish?
    ensures c in t.chans && Lost(s.chans[c]) <= Lost(t.chans[c])
    ensures Lost(t.chans[c]) + Allowance(t, c) <= Lost(s.chans[c]) + Allowance(s, c)
    ensures !AtSelect(s, c, DropOldest) && !MeetsFull(s, steps, c) ==> Lost(t.chans[c]) == Lost(s.chans[c])
    decreases |steps|
  {
    hide Inv, Apply, Lost, Allowance, Enabled;
    if steps != [] {
      assert steps[0] in steps && forall step :: step in steps[1..] ==> step in steps;
      var u := Apply(s, steps[0]);
      StepInv(s, steps[0]);
      StepLoses(s, steps[0], c);
      RunLoses(u, steps[1..], t, c);
      if AtSelect(u, c, DropOldest) && !AtSelect(s, c, DropOldest) {
        ReachesDrop(s, steps[0], c);
      }
    }
  }

  /** From the call of publish to its return, a channel loses at most one event, and none unless the
      first select for it found its buffer full. */
  lemma PublishLosesAtMostOne(s: State, ev: Event, steps: seq<Step>, t: State, c: nat)
    requires Inv(s) && Run(s, [Publish(ev)] + steps + [Unlock], t) && WithinPublish(steps) && c in s.chans
    ensures c in t.chans && Lost(s.chans[c]) <= Lost(t.chans[c]) <= Lost(s.chans[c]) + 1
    ensures Lost(t.chans[c]) > Lost(s.chans[c]) ==> MeetsFull(Apply(s, Publish(ev)), steps + [Unlock], c)
    ensures c !in s.subs ==> Lost(t.chans[c]) == Lost(s.chans[c])
  {
    var u, rest := Apply(s, Publish(ev)), steps + [Unlock];
    PublishFirst(s, ev, steps, t);
    StepInv(s, Publish(ev));
    assert u.chans == s.chans && Allowance(u, c) == if c in s.subs then 1 else 0;
    hide Apply, Inv, Lost, Allowance, MeetsFull, Run;
    RunLoses(u, rest, t, c);
    assert !AtSelect(u, c, DropOldest);
  }

  lemma PublishFirst(s: State, ev: Event, steps: seq<Step>, t: State)
    requires Run(s, [Publish(ev)] + steps + [Unlock], t)
    ensures Enabled(s, Publish(ev)) && Run(Apply(s, Publish(ev)), steps + [Unlock], t)
  {
    hide Enabled, Apply;
    assert ([Publish(ev)] + steps + [Unlock])[1..] == steps + [Unlock];
  }

  // ---------- with a consumer that does not take anything meanwhile ----------

  /** Where the channel stands that held `before` when `ev` was published. */
  ghost predicate Waiting(s: State, c: nat, before: seq<Event>, ev: Event) {
    c in s.chans && (s.publisher.Publishing? ==> s.publisher.ev == ev)
    && var buf := s.chans[c].buf;
       if !s.publisher.Publishing? || c !in s.publisher.todo then buf == LastN(before + [ev], s.capacity)
       else if AtSelect(s, c, DropOldest) then buf == before && |before| == s.capacity
       else if AtSelect(s, c, SendAgain) then before != [] && |before| == s.capacity && buf == before[1..]
       else buf == before
  }

  lemma LastOfFull(before: seq<Event>, ev: Event, n: nat)
    requires |before| <= n && n > 0
    ensures |before| == n ==> before[1..] + [ev] == LastN(before + [ev], n)
    ensures |before| < n ==> before + [ev] == LastN(before + [ev], n)
  {
  }

  /** A select for another channel. */
  lemma OtherFrame(s: State, c: nat)
    requires Enabled(s, RunSelect) && s.publisher.current.ch != c && c in s.chans
    ensures (var t := RunSelectOn(s, s.publisher.current.ch, s.publisher.current.select);
             c in t.chans && t.chans[c] == s.chans[c] && t.capacity == s.capacity && t.publisher.Publishing?
             && t.publisher.ev == s.publisher.ev && (c in t.publisher.todo <==> c in s.publisher.todo)
             && (forall select :: !AtSelect(s, c, select) && !AtSelect(t, c, select)))
  {
    hide LastN, Push, Drop;
  }

  lemma OtherSelect(s: State, c: nat, before: seq<Event>, ev: Event)
    requires Enabled(s, RunSelect) && s.publisher.current.ch != c && Waiting(s, c, before, ev)
    ensures Waiting(RunSelectOn(s, s.publisher.current.ch, s.publisher.current.select), c, before, ev)
  {
    OtherFrame(s, c);
    hide LastN, RunSelectOn, AtSelect;
  }

  lemma OwnSelect(s: State, c: nat, before: seq<Event>, ev: Event)
    requires s.publisher.Publishing? && s.publisher.current.Sending? && s.publisher.current.ch == c && c in s.publisher.todo
    requires Waiting(s, c, before, ev) && !s.chans[c].closed && 0 < s.capacity && |before| <= s.capacity
    ensures Waiting(RunSelectOn(s, c, s.publisher.current.select), c, before, ev)
  {
    LastOfFull(before, ev, s.capacity);
    hide LastN;
    var t := RunSelectOn(s, c, s.publisher.current.select);
    match s.publisher.current.select {
      case SendFirst =>
        assert s.chans[c].buf == before;
      case DropOldest =>
        assert t.chans[c].buf == before[1..];
      case SendAgain =>
        assert s.chans[c].buf == before[1..];
    }
  }

  lemma SelectWaiting(s: State, c: nat, before: seq<Event>, ev: Event)
    requires Inv(s) && Enabled(s, RunSelect) && Waiting(s, c, before, ev) && |before| <= s.capacity
    ensures Waiting(Apply(s, RunSelect), c, before, ev)
  {
    TargetOpen(s);
    assert s.capacity > 0;
    hide Waiting, Inv, RunSelectOn;
    if s.publisher.current.ch == c {
      assert c in s.chans;
      OwnSelect(s, c, before, ev);
    } else {
      OtherSelect(s, c, before, ev);
    }
  }

  lemma LockWaiting(s: State, step: Step, c: nat, before: seq<Event>, ev: Event)
    requires Enabled(s, step) && Waiting(s, c, before, ev)
    requires step.Pick? || step.Unlock? || step.CancelDelete?
    ensures Waiting(Apply(s, step), c, before, ev)
  {
    hide LastN;
  }

  lemma ChanFrame(s: State, step: Step, c: nat)
    requires Enabled(s, step) && c in s.chans && step != Receive(c)
    requires step.Subscribe? || step.CancelClose? || step.Receive?
    ensures (var t := Apply(s, step);
             c in t.chans && t.chans[c].buf == s.chans[c].buf && t.publisher == s.publisher && t.capacity == s.capacity)
  {
  }

  lemma ChanWaiting(s: State, step: Step, c: nat, before: seq<Event>, ev: Event)
    requires Enabled(s, step) && Waiting(s, c, before, ev) && step != Receive(c)
    requires step.Subscribe? || step.CancelClose? || step.Receive?
    ensures Waiting(Apply(s, step), c, before, ev)
  {
    ChanFrame(s, step, c);
    hide LastN, Apply, Enabled;
  }

  lemma SameCapacity(s: State, step: Step)
    requires Enabled(s, step)
    ensures Apply(s, step).capacity == s.capacity
  {
    hide LastN, Push, Drop, Take;
  }

  lemma StepWaiting(s: State, step: Step, c: nat, before: seq<Event>, ev: Event)
    requires Inv(s) && Enabled(s, step) && Waiting(s, c, before, ev) && |before| <= s.capacity
    requires !step.Publish? && step != Receive(c)
    ensures Waiting(Apply(s, step), c, before, ev) && Apply(s, step).capacity == s.capacity
  {
    hide Inv, Waiting, Apply, Enabled;
    SameCapacity(s, step);
    match step {
      case RunSelect => SelectWaiting(s, c, before, ev);
      case Pick(_) => LockWaiting(s, step, c, before, ev);
      case Unlock => LockWaiting(s, step, c, before, ev);
      case CancelDelete(_) => LockWaiting(s, step, c, before, ev);
      case _ => ChanWaiting(s, step, c, before, ev);
    }
  }

  lemma {:induction false} RunWaiting(s: State, steps: seq<Step>, t: State, c: nat, before: seq<Event>, ev: Event)
    requires Inv(s) && Run(s, steps, t) && Waiting(s, c, before, ev) && |before| <= s.capacity
    requires forall step :: step in steps ==> !step.Publish? && step != Receive(c)
    ensures Waiting(t, c, before, ev) && t.capacity == s.capacity
    decreases |steps|
  {
    hide Inv, Apply, Enabled, Waiting;
    if steps != [] {
      assert steps[0] in steps && forall step :: step in steps[1..] ==> step in steps;
      StepInv(s, steps[0]);
      StepWaiting(s, steps[0], c, before, ev);
      RunWaiting(Apply(s, steps[0]), steps[1..], t, c, before, ev);
    }
  }

  /** A subscriber that takes nothing during a publish finds the event at the end of its buffer, and
      lost the oldest one if and only if the buffer was full. */
  lemma QuietConsumer(s: State, ev: Event, steps: seq<Step>, t: State, c: nat)
    requires Inv(s) && Run(s, [Publish(ev)] + steps + [Unlock], t) && WithinPublish(steps) && c in s.subs
    requires forall step :: step in steps ==> step != Receive(c)
    ensures c in s.chans && c in t.chans
    ensures t.chans[c].buf == if |s.chans[c].buf| < s.capacity then s.chans[c].buf + [ev] else s.chans[c].buf[1..] + [ev]
  {
    var u, rest := Apply(s, Publish(ev)), steps + [Unlock];
    SubscribersHaveChannels(s);
    BufferFits(s, c);
    PublishFirst(s, ev, steps, t);
    StepInv(s, Publish(ev));
    var before := s.chans[c].buf;
    assert Waiting(u, c, before, ev);
    hide Apply, Inv, Run, Waiting;
    RunWaiting(u, rest, t, c, before, ev);
    LastOfFull(before, ev, s.capacity);
    UnlockLast(u, steps, t);
    WaitingIdle(t, c, before, ev);
  }

  lemma WaitingIdle(t: State, c: nat, before: seq<Event>, ev: Event)
    requires Waiting(t, c, before, ev) && t.publisher.Idle?
    ensures c in t.chans && t.chans[c].buf == LastN(before + [ev], t.capacity)
  {
  }

  lemma BufferFits(s: State, c: nat)
    requires Inv(s) && c in s.chans
    ensures |s.chans[c].buf| <= s.capacity && s.capacity > 0
  {
    hide LastN, LifecycleOk, PublisherOk;
    assert ChanOk(s.log, s.capacity, s.chans[c]);
  }

  lemma {:induction false} UnlockLast(s: State, steps: seq<Step>, t: State)
    requires Run(s, steps + [Unlock], t)
    ensures t.publisher.Idle?
    decreases |steps|
  {
    if steps == [] {
      assert [] + [Unlock] == [Unlock] && [Unlock][1..] == [];
    } else {
      hide Apply, Enabled;
      assert (steps + [Unlock])[1..] == steps[1..] + [Unlock];
      UnlockLast(Apply(s, steps[0]), steps[1..], t);
    }
  }

  // ---------- the handoff from backlog to channel ----------

  /** A channel keeps its start and is offered more and more. */
  predicate ChanGrows(a: Chan, b: Chan) {
    a.first == b.first && a.offered <= b.offered
  }

  ghost predicate Grows(s: State, t: State) {
    && s.log <= t.log && s.maxRing == t.maxRing
    && forall c :: c in s.chans ==> c in t.chans && ChanGrows(s.chans[c], t.chans[c])
  }

  lemma SetGrows(s: State, c: nat, chan: Chan, t: State)
    requires t.log == s.log && t.maxRing == s.maxRing && t.chans == s.chans[c := chan]
    requires c in s.chans ==> ChanGrows(s.chans[c], chan)
    ensures Grows(s, t)
  {
    hide ChanGrows;
    forall d | d in s.chans ensures d in t.chans && ChanGrows(s.chans[d], t.chans[d]) {
      if d != c {
        assert t.chans[d] == s.chans[d];
        assert ChanGrows(s.chans[d], s.chans[d]) by { SelfGrows(s.chans[d]); }
      }
    }
  }

  lemma SelfGrows(chan: Chan)
    ensures ChanGrows(chan, chan)
  {
  }

  lemma SelectGrows(s: State)
    requires Enabled(s, RunSelect)
    ensures Grows(s, Apply(s, RunSelect))
  {
    var t, c := Apply(s, RunSelect), s.publisher.current.ch;
    if t.chans == s.chans {
      assert t.chans == s.chans[c := s.chans[c]];
      SetGrows(s, c, s.chans[c], t);
    } else {
      SetGrows(s, c, t.chans[c], t);
    }
  }

  lemma StepGrows(s: State, step: Step)
    requires Enabled(s, step)
    ensures Grows(s, Apply(s, step))
  {
    var t := Apply(s, step);
    match step {
      case RunSelect => SelectGrows(s);
      case Subscribe(c) => SetGrows(s, c, NewChan(|s.log|), t);
      case Receive(c) => SetGrows(s, c, Take(s.chans[c]), t);
      case CancelClose(c) => SetGrows(s, c, t.chans[c], t);
      case _ =>
    }
  }

  lemma GrowsTransitive(a: State, b: State, c: State)
    requires Grows(a, b) && Grows(b, c)
    ensures Grows(a, c)
  {
  }

  lemma {:induction false} RunGrows(s: State, steps: seq<Step>, t: State)
    requires Run(s, steps, t)
    ensures Grows(s, t)
    decreases |steps|
  {
    hide Apply;
    if steps != [] {
      hide Grows;
      StepGrows(s, steps[0]);
      RunGrows(Apply(s, steps[0]), steps[1..], t);
      GrowsTransitive(s, Apply(s, steps[0]), t);
    }
  }

  /** With the log `n0` long at the subscription and `n1` long when the backlog was read: the
      first `n1 - n0` events of the channel are the ones published between the two calls.  The
      backlog followed by the rest of the channel is the log without a gap, and the last `twice`
      of those first events are the ones the backlog still holds. */
  ghost predicate Seamless(log: seq<Event>, n0: nat, n1: nat, ch: Chan, backlog: seq<Event>) {
    var channel := ch.got + ch.buf;
    && n0 <= n1 <= ch.offered <= |log| && |backlog| <= n1 && n1 - n0 <= |channel|
    && channel[..n1 - n0] == log[n0..n1]
    && backlog + channel[n1 - n0..] == log[n1 - |backlog|..ch.offered]
    && var twice := if |backlog| < n1 - n0 then |backlog| else n1 - n0;
       backlog[|backlog| - twice..] == channel[n1 - n0 - twice..n1 - n0] == log[n1 - twice..n1]
  }

  /** The stream handler subscribes in state `a`, reads its backlog in state `b`, and is observed in
      state `t`.  As long as its channel lost nothing, backlog and channel cover the log from the
      first backlog event on, and the events delivered twice are those published between the two
      calls that the backlog still holds. */
  lemma StreamHandoff(maxRing: int, subBufLen: int, before: seq<Step>, a: State, c: nat, during: seq<Step>, b: State,
                      after: seq<Step>, t: State)
    requires Run(Start(maxRing, subBufLen), before, a) && Enabled(a, Subscribe(c))
    requires Run(Apply(a, Subscribe(c)), during, b) && b.publisher.Idle? && c in b.subs
    requires Run(b, after, t) && c in t.chans && Lost(t.chans[c]) == 0
    ensures b.log <= t.log && Seamless(t.log, |a.log|, |b.log|, t.chans[c], Recent(b.ring, 100))
    ensures t.publisher.Idle? && c in t.subs ==> t.chans[c].offered == |t.log|
  {
    hide *;
    var a1 := Apply(a, Subscribe(c));
    StartInv(maxRing, subBufLen);
    RunInv(Start(maxRing, subBufLen), before, a);
    StepInv(a, Subscribe(c));
    RunInv(a1, during, b);
    RunInv(b, after, t);
    RunGrows(a1, during, b);
    RunGrows(b, after, t);
    FreshChannel(a, c);
    HandoffAt(a, a1, b, t, c);
  }

  lemma HandoffAt(a: State, a1: State, b: State, t: State, c: nat)
    requires a1.log == a.log && c in a1.chans && a1.chans[c] == NewChan(|a.log|)
    requires Inv(b) && b.publisher.Idle? && c in b.subs && Inv(t) && c in t.chans && Lost(t.chans[c]) == 0
    requires Grows(a1, b) && Grows(b, t)
    ensures b.log <= t.log && Seamless(t.log, |a.log|, |b.log|, t.chans[c], Recent(b.ring, 100))
    ensures t.publisher.Idle? && c in t.subs ==> t.chans[c].offered == |t.log|
  {
    hide *;
    SubscribersHaveChannels(b);
    ChannelFacts(b, c);
    ChannelFacts(t, c);
    RingIsTail(b);
    HandoffBounds(a, a1, b, t, c);
    BacklogIsTail(b.log, b.maxRing, b.ring);
    assert t.log[..|b.log|] == b.log;
    Handoff(t.log, |a.log|, |b.log|, t.chans[c], Recent(b.ring, 100));
  }

  lemma FreshChannel(a: State, c: nat)
    requires Enabled(a, Subscribe(c))
    ensures (var a1 := Apply(a, Subscribe(c));
             a1.log == a.log && c in a1.chans && a1.chans[c] == NewChan(|a.log|))
  {
  }

  lemma HandoffBounds(a: State, a1: State, b: State, t: State, c: nat)
    requires a1.log == a.log && c in a1.chans && a1.chans[c] == NewChan(|a.log|)
    requires Grows(a1, b) && Grows(b, t) && c in b.chans && c in t.chans && b.chans[c].offered == |b.log|
    ensures |a.log| <= |b.log| <= t.chans[c].offered && b.log <= t.log && t.chans[c].first == |a.log|
  {
  }

  lemma BacklogIsTail(log: seq<Event>, maxRing: nat, ring: seq<Event>)
    requires ring == LastN(log, maxRing)
    ensures IsTail(Recent(ring, 100), log)
  {
  }

  lemma Handoff(log: seq<Event>, n0: nat, n1: nat, ch: Chan, backlog: seq<Event>)
    requires Gapless(log, ch) && ch.first == n0 <= n1 <= ch.offered && n1 <= |log|
    requires IsTail(backlog, log[..n1])
    ensures Seamless(log, n0, n1, ch, backlog)
  {
    hide *;
    var channel, twice := ch.got + ch.buf, if |backlog| < n1 - n0 then |backlog| else n1 - n0;
    GaplessText(log, ch);
    TailText(log, n1, backlog);
    HandoffJoins(log, n0, n1, ch.offered, channel, backlog);
    HandoffTwice(log, n0, n1, ch.offered, channel, backlog, twice);
    SeamlessParts(log, n0, n1, ch, backlog, channel, twice);
  }

  lemma SeamlessParts(log: seq<Event>, n0: nat, n1: nat, ch: Chan, backlog: seq<Event>, channel: seq<Event>, twice: nat)
    requires n0 <= n1 <= ch.offered <= |log| && |backlog| <= n1 && n1 - n0 <= |channel|
    requires channel == ch.got + ch.buf && twice == (if |backlog| < n1 - n0 then |backlog| else n1 - n0)
    requires channel[..n1 - n0] == log[n0..n1] && backlog + channel[n1 - n0..] == log[n1 - |backlog|..ch.offered]
    requires backlog[|backlog| - twice..] == channel[n1 - n0 - twice..n1 - n0] == log[n1 - twice..n1]
    ensures Seamless(log, n0, n1, ch, backlog)
  {
  }

  lemma GaplessText(log: seq<Event>, ch: Chan)
    requires Gapless(log, ch) && ch.first <= ch.offered
    ensures ch.offered <= |log| && ch.got + ch.buf == log[ch.first..ch.offered]
  {
  }

  lemma TailText(log: seq<Event>, n1: nat, backlog: seq<Event>)
    requires n1 <= |log| && IsTail(backlog, log[..n1])
    ensures |backlog| <= n1 && backlog == log[n1 - |backlog|..n1]
  {
  }

  lemma HandoffJoins(log: seq<Event>, n0: nat, n1: nat, end: nat, channel: seq<Event>, backlog: seq<Event>)
    requires n0 <= n1 <= end <= |log| && channel == log[n0..end]
    requires |backlog| <= n1 && backlog == log[n1 - |backlog|..n1]
    ensures channel[..n1 - n0] == log[n0..n1]
    ensures backlog + channel[n1 - n0..] == log[n1 - |backlog|..end]
  {
  }

  lemma HandoffTwice(log: seq<Event>, n0: nat, n1: nat, end: nat, channel: seq<Event>, backlog: seq<Event>, twice: nat)
    requires n0 <= n1 <= end <= |log| && channel == log[n0..end]
    requires |backlog| <= n1 && backlog == log[n1 - |backlog|..n1]
    requires twice <= |backlog| && twice <= n1 - n0
    ensures backlog[|backlog| - twice..] == channel[n1 - n0 - twice..n1 - n0] == log[n1 - twice..n1]
  {
    SliceOfSlice(log, n1 - |backlog|, n1, |backlog| - twice, |backlog|);
    SliceOfSlice(log, n0, end, n1 - n0 - twice, n1 - n0);
  }

  lemma SliceOfSlice(log: seq<Event>, i: nat, j: nat, x: nat, y: nat)
    requires i <= j <= |log| && x <= y <= j - i
    ensures log[i..j][x..y] == log[i + x..i + y]
  {
    var s, t := log[i..j][x..y], log[i + x..i + y];
    assert |s| == |t|;
    assert forall k :: 0 <= k < |s| ==> s[k] == log[i..j][x + k] == t[k];
  }

  /** The other order would lose events: one published after the backlog was read and before the
      subscription is neither in the backlog nor ever in the channel. */
  lemma BacklogFirstLosesEvents(maxRing: int, subBufLen: int, ev: Event) returns (t: State)
    ensures Run(Start(maxRing, subBufLen), [Publish(ev), Unlock, Subscribe(0)], t)
    ensures 0 in t.subs && 0 in t.chans && t.log == [ev]
    ensures Recent(Start(maxRing, subBufLen).ring, 100) + t.chans[0].got + t.chans[0].buf == []
  {
    var a := Start(maxRing, subBufLen);
    assert a.ring == [];
    NoSubscribers(a, ev);
    hide *;
    t := Apply(Apply(Apply(a, Publish(ev)), Unlock), Subscribe(0));
    RunThree(a, Publish(ev), Unlock, Subscribe(0));
  }

  lemma NoSubscribers(a: State, ev: Event)
    requires a.publisher.Idle? && a.subs == {} && a.chans == map[] && a.log == []
    ensures Enabled(a, Publish(ev)) && Enabled(Apply(a, Publish(ev)), Unlock)
    ensures Enabled(Apply(Apply(a, Publish(ev)), Unlock), Subscribe(0))
    ensures (var t := Apply(Apply(Apply(a, Publish(ev)), Unlock), Subscribe(0));
             t.log == [ev] && 0 in t.chans && t.chans[0].buf == [] && t.chans[0].got == [] && t.subs == {0})
  {
    hide LastN;
  }

  lemma RunThree(s: State, x: Step, y: Step, z: Step)
    requires Enabled(s, x) && Enabled(Apply(s, x), y) && Enabled(Apply(Apply(s, x), y), z)
    ensures Run(s, [x, y, z], Apply(Apply(Apply(s, x), y), z))
  {
    hide Enabled, Apply;
    var u := Apply(Apply(s, x), y);
    assert Run(Apply(u, z), [], Apply(u, z));
    assert [z][1..] == [];
    assert Run(u, [z], Apply(u, z));
    assert [y, z][1..] == [z];
    assert Run(Apply(s, x), [y, z], Apply(u, z));
    assert [x, y, z][1..] == [y, z];
  }
}
