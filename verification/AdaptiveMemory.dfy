/** What the adaptive policy remembers (pkg/policy/adaptive.go): the window of attempts, the
    cooldowns and the selection history, as a value and as functions on that value. */
module AdaptiveMemory {
  import opened Text
  import opened Windows

  const WINDOW_DEFAULT := 80
  const COOLDOWN_SECONDS := 60
  const HISTORY_SIZE := 32
  const STREAK_LIMIT := 10

  datatype AttemptSignal = AttemptSignal(latencyMs: int, connectOk: bool, dnsOk: bool, tcpHandshake: bool, tlsSuccess: bool)

  datatype NetworkEvent = NetworkEvent(timestamp: int, profileId: string, success: bool, latency: int, failure: string)

  /** AdaptiveStateDisk, and at the same time the contents of an AdaptiveState. */
  datatype Memory = Memory(
    enabled: bool, maxEvents: int, events: seq<NetworkEvent>, cooldown: map<string, int>, history: seq<string>)

  function NormalizeFailure(signal: AttemptSignal, failure: string): string {
    var nf := ToUpper(Trim(failure));
    if nf == "" || nf == "UNKNOWN" then
      if !signal.dnsOk then "DNS_BLOCKED"
      else if signal.tcpHandshake && !signal.tlsSuccess then "TLS_BLOCKED"
      else if !signal.tcpHandshake then "TCP_RESET"
      else "UNKNOWN"
    else if nf == "DNS_FAILURE" || nf == "DNS_BLOCKED" || nf == "DNS_POISON_SUSPECTED" then "DNS_BLOCKED"
    else if nf == "UDP_BLOCK_SUSPECTED" || nf == "UDP_BLOCKED" then "UDP_BLOCKED"
    else if nf == "TLS_BLOCKED" || nf == "TLS_FAILURE" then "TLS_BLOCKED"
    else if nf == "TIMEOUT" then "TIMEOUT"
    else if nf == "NO_ROUTE" || nf == "NETWORK_BLOCKED" then "NO_ROUTE"
    else if nf == "TCP_RESET" || nf == "ACTIVE_RESET_SUSPECTED" then "TCP_RESET"
    else nf
  }

  // ---------- what the operations do to the memory ----------

  /** A window holds between 50 and 100 attempts. */
  function WindowSize(maxEvents: int): (n: nat)
    ensures 50 <= n <= 100
  {
    if maxEvents < 50 then 50 else if maxEvents > 100 then 100 else maxEvents
  }

  function NewMemory(maxEvents: int): Memory {
    Memory(true, WindowSize(maxEvents), [], map[], [])
  }

  /** ensureDefaultsLocked */
  function WithDefaults(m: Memory): (r: Memory)
    ensures 50 <= r.maxEvents <= 100
    ensures 50 <= m.maxEvents <= 100 ==> r == m
  {
    if m.maxEvents < 50 || m.maxEvents > 100 then m.(maxEvents := WINDOW_DEFAULT) else m
  }

  function EventOf(id: string, signal: AttemptSignal, failure: string, now: int): NetworkEvent {
    NetworkEvent(now, id, signal.connectOk, signal.latencyMs, NormalizeFailure(signal, failure))
  }

  /** RecordAttempt, for an attempt that counts. */
  function Recorded(m: Memory, ev: NetworkEvent): Memory
    requires m.maxEvents >= 0
  {
    m.(events := LastN(m.events + [ev], m.maxEvents),
       cooldown := if ev.success then m.cooldown else m.cooldown[ev.profileId := ev.timestamp + COOLDOWN_SECONDS])
  }

  function Attempted(m: Memory, id: string, signal: AttemptSignal, failure: string, now: int): Memory {
    var d := WithDefaults(m);
    if !d.enabled || Blank(id) then d else Recorded(d, EventOf(id, signal, failure, now))
  }

  /** RecordSelection */
  function Selected(m: Memory, id: string): Memory {
    if Blank(id) then m else m.(history := LastN(m.history + [id], HISTORY_SIZE))
  }

  function Cleared(m: Memory): Memory {
    WithDefaults(m).(events := [], cooldown := map[], history := [])
  }

  /** `s.Cooldown[id]`; a missing entry reads as 0. */
  function CooldownOf(m: Memory, id: string): int {
    if id in m.cooldown then m.cooldown[id] else 0
  }

  /** recentSelectionStreak: how often in a row, up to now, `id` was selected. */
  function Streak(history: seq<string>, id: string): (n: nat)
    ensures n <= |history|
    ensures forall i :: |history| - n <= i < |history| ==> history[i] == id
    ensures n < |history| ==> history[|history| - n - 1] != id
  {
    if history == [] || history[|history| - 1] != id then 0 else Streak(history[..|history| - 1], id) + 1
  }

  /** A bounded history shortens streaks only down to its own length. */
  lemma {:induction false} StreakInWindow(history: seq<string>, id: string, n: nat)
    ensures Streak(LastN(history, n), id) == if Streak(history, id) < n then Streak(history, id) else n
  {
    if history != [] && history[|history| - 1] == id && n > 0 {
      var front, window := history[..|history| - 1], LastN(history, n);
      assert window[..|window| - 1] == LastN(front, n - 1);
      StreakInWindow(front, id, n - 1);
    }
  }

  // ---------- failure names ----------

  lemma UpperKeepsSpaces(s: string)
    requires Trimmed(s)
    ensures Trimmed(ToUpper(s)) && (s != "" ==> ToUpper(s) != "")
  {
    if s != "" {
      UpperSpace(s[0]);
      UpperSpace(s[|s| - 1]);
    }
  }

  lemma UpperSpace(c: char)
    ensures IsSpace(UpperChar(c)) == IsSpace(c) && UpperChar(UpperChar(c)) == UpperChar(c)
  {
  }

  lemma ToUpperIdempotent(s: string)
    ensures ToUpper(ToUpper(s)) == ToUpper(s)
  {
    forall i | 0 <= i < |s| ensures UpperChar(UpperChar(s[i])) == UpperChar(s[i]) {
      UpperSpace(s[i]);
    }
  }

  /** A name that normalisation leaves alone. */
  predicate Plain(s: string) {
    s != "" && Trimmed(s) && ToUpper(s) == s
  }

  lemma PlainNames()
    ensures Plain("DNS_BLOCKED") && Plain("TLS_BLOCKED") && Plain("TCP_RESET") && Plain("UNKNOWN")
    ensures Plain("UDP_BLOCKED") && Plain("TIMEOUT") && Plain("NO_ROUTE")
  {
  }

  lemma PlainInput(failure: string)
    requires Trim(failure) != ""
    ensures Plain(ToUpper(Trim(failure)))
  {
    UpperKeepsSpaces(Trim(failure));
    ToUpperIdempotent(Trim(failure));
  }

  lemma PlainIsFixed(s: string)
    requires Plain(s)
    ensures ToUpper(Trim(s)) == s && !Blank(s)
  {
    TrimFixpoint(s);
  }

  /** No failure is ever recorded under a blank name, and normalising twice changes nothing. */
  lemma FailureName(signal: AttemptSignal, failure: string)
    ensures var name := NormalizeFailure(signal, failure);
            !Blank(name) && NormalizeFailure(signal, name) == name
  {
    var name := NormalizeFailure(signal, failure);
    assert Plain(name) by {
      hide Plain, ToUpper, Trim;
      PlainNames();
      if Trim(failure) != "" {
        PlainInput(failure);
      }
      UpperNothing();
    }
    hide Plain, ToUpper, Trim;
    PlainIsFixed(name);
  }

  lemma UpperNothing()
    ensures ToUpper("") == ""
  {
  }
}
