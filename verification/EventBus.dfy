/** The runtime event bus (cmd/inside/runtime_api.go) as it runs: a ring of recent events and one
    buffered channel per subscriber.  Consumers may take events out of a channel at any moment; the
    calls of `Consume` mark where that can happen between the three selects of sendDropOldest. */
module EventBus {
  import opened Windows

  datatype RuntimeEvent = RuntimeEvent(timestamp: int, kind: string, message: string, metadata: map<string, string>)

  /** What eventBus.recent returns. */
  function Recent<T>(ring: seq<T>, limit: int): (r: seq<T>)
    ensures r == if limit <= 0 then ring else LastN(ring, limit)
  {
    var n := if limit <= 0 || limit > |ring| then |ring| else limit;
    ring[|ring| - n..]
  }

  /** `t` is what is left of `s` after removing some elements at the front. */
  predicate IsTail<T(==)>(t: seq<T>, s: seq<T>) {
    |t| <= |s| && t == s[|s| - |t|..]
  }

  class Channel {
    const capacity: nat
    var buf: seq<RuntimeEvent>
    var closed: bool
    ghost var received: seq<RuntimeEvent>  // what the consumer took out

    constructor (capacity: nat)
      ensures this.capacity == capacity && buf == [] && !closed && received == []
    {
      this.capacity := capacity;
      buf, closed, received := [], false, [];
    }

    /** `select { case ch <- ev: ... default: }`; sending on a closed channel panics. */
    method TrySend(ev: RuntimeEvent) returns (sent: bool)
      requires !closed
      modifies this
      ensures !closed && received == old(received)
      ensures sent == (|old(buf)| < capacity)
      ensures buf == if sent then old(buf) + [ev] else old(buf)
    {
      sent := |buf| < capacity;
      if sent {
        buf := buf + [ev];
      }
    }

    /** `select { case <-ch: default: }` in the publisher: the event is thrown away. */
    method TryReceive()
      modifies this
      ensures closed == old(closed) && received == old(received)
      ensures buf == if old(buf) == [] then [] else old(buf)[1..]
    {
      if buf != [] {
        buf := buf[1..];
      }
    }

    /** Any number of receives by the consumer. */
    method Consume()
      modifies this
      ensures closed == old(closed)
      ensures old(received) <= received && received[|old(received)|..] + buf == old(buf)
    {
      var k :| 0 <= k <= |buf|;
      received := received + buf[..k];
      buf := buf[k..];
    }

    method Close()
      requires !closed
      modifies this
      ensures closed && buf == old(buf) && received == old(received)
    {
      closed := true;
    }
  }

  /** A channel of this capacity held `before` and now holds `after`, while the consumer took `taken`:
      nothing else is gone but at most one event, and that only from a full channel; the new event
      is last. */
  ghost predicate Delivered(before: seq<RuntimeEvent>, taken: seq<RuntimeEvent>, after: seq<RuntimeEvent>, ev: RuntimeEvent, capacity: nat) {
    || taken + after == before + [ev]
    || (|before| == capacity && exists i :: 0 <= i < |before| && taken + after == before[..i] + before[i + 1..] + [ev])
  }

  /** What the consumer took since it had taken `earlier`. */
  ghost function Since(earlier: seq<RuntimeEvent>, now: seq<RuntimeEvent>): seq<RuntimeEvent>
    requires earlier <= now
  {
    now[|earlier|..]
  }

  /** What a subscriber that held `before` and had taken `earlier` finds after a publish. */
  ghost predicate FoundAfter(before: seq<RuntimeEvent>, earlier: seq<RuntimeEvent>, after: seq<RuntimeEvent>, received: seq<RuntimeEvent>,
                             ev: RuntimeEvent, capacity: nat) {
    && after != [] && |after| <= capacity && after[|after| - 1] == ev && earlier <= received
    && Delivered(before, Since(earlier, received), after, ev, capacity)
    && (received == earlier ==> after == if |before| < capacity || before == [] then before + [ev] else before[1..] + [ev])
  }

  /** The newest event always ends up in the channel: the third select cannot fall through.  With an
      idle consumer a full channel loses its oldest event and nothing else. */
  method SendDropOldest(ch: Channel, ev: RuntimeEvent)
    requires !ch.closed && |ch.buf| <= ch.capacity && ch.capacity > 0
    modifies ch
    ensures !ch.closed
    ensures FoundAfter(old(ch.buf), old(ch.received), ch.buf, ch.received, ev, ch.capacity)
    ensures |old(ch.buf)| < ch.capacity ==> ch.buf == old(ch.buf) + [ev] && ch.received == old(ch.received)
  {
    hide FoundAfter;
    ghost var before, earlier := ch.buf, ch.received;
    var sent := ch.TrySend(ev);
    if sent {
      SentAtOnce(before, earlier, ev, ch.capacity);
      return;
    }
    ch.Consume();
    ghost var first, took := ch.buf, ch.received;
    ch.TryReceive();
    ghost var second := ch.buf;
    ch.Consume();
    ghost var third := ch.buf;
    sent := ch.TrySend(ev);
    assert sent;
    SentAfterDrop(before, earlier, took, first, second, ch.received, third, ev, ch.capacity);
  }

  lemma SentAtOnce(before: seq<RuntimeEvent>, earlier: seq<RuntimeEvent>, ev: RuntimeEvent, capacity: nat)
    requires |before| < capacity
    ensures FoundAfter(before, earlier, before + [ev], earlier, ev, capacity)
  {
  }

  /** The consumer takes, the publisher drops one event if there is one, the consumer takes again. */
  lemma SentAfterDrop(before: seq<RuntimeEvent>, earlier: seq<RuntimeEvent>, took: seq<RuntimeEvent>, first: seq<RuntimeEvent>,
                      second: seq<RuntimeEvent>, received: seq<RuntimeEvent>, third: seq<RuntimeEvent>, ev: RuntimeEvent, capacity: nat)
    requires earlier <= took <= received && took[|earlier|..] + first == before && received[|took|..] + third == second
    requires second == (if first == [] then [] else first[1..]) && |before| == capacity > 0
    ensures FoundAfter(before, earlier, third + [ev], received, ev, capacity)
  {
    SinceInParts(earlier, took, received);
    hide Since;
    TwoTakes(before, took[|earlier|..], first, second, received[|took|..], third, ev, capacity);
  }

  lemma TwoTakes(before: seq<RuntimeEvent>, a: seq<RuntimeEvent>, first: seq<RuntimeEvent>, second: seq<RuntimeEvent>,
                 b: seq<RuntimeEvent>, third: seq<RuntimeEvent>, ev: RuntimeEvent, capacity: nat)
    requires a + first == before && b + third == second && second == (if first == [] then [] else first[1..]) && |before| == capacity
    ensures Delivered(before, a + b, third + [ev], ev, capacity)
  {
    assert (a + b) + (third + [ev]) == a + (b + third) + [ev];
    if first != [] {
      assert before[..|a|] == a && before[|a| + 1..] == first[1..];
    } else {
      assert a + second + [ev] == before + [ev];
    }
  }

  lemma SinceInParts(earlier: seq<RuntimeEvent>, took: seq<RuntimeEvent>, received: seq<RuntimeEvent>)
    requires earlier <= took <= received
    ensures Since(earlier, received) == took[|earlier|..] + received[|took|..]
  {
  }

  class Bus {
    const maxRing: nat
    const subBufLen: nat
    var ring: seq<RuntimeEvent>
    var subs: set<Channel>

    ghost predicate Valid()
      reads this, subs
    {
      && maxRing > 0 && subBufLen > 0 && |ring| <= maxRing
      && forall ch :: ch in subs ==> !ch.closed && |ch.buf| <= ch.capacity && ch.capacity == subBufLen
    }

    /** newEventBus */
    constructor (maxRing: int, subBufLen: int)
      ensures Valid() && ring == [] && subs == {}
      ensures this.maxRing == (if maxRing < 1 then 1 else maxRing)
      ensures this.subBufLen == (if subBufLen < 1 then 1 else subBufLen)
    {
      this.maxRing := if maxRing < 1 then 1 else maxRing;
      this.subBufLen := if subBufLen < 1 then 1 else subBufLen;
      ring, subs := [], {};
    }

    /** publish: the ring keeps the last maxRing events, and every subscriber gets the new one. */
    method Publish(ev: RuntimeEvent)
      requires Valid()
      modifies this, subs
      ensures Valid() && subs == old(subs)
      ensures ring == LastN(old(ring) + [ev], maxRing)
      ensures forall ch :: ch in subs ==> FoundAfter(old(ch.buf), old(ch.received), ch.buf, ch.received, ev, ch.capacity)
    {
      ring := ring + [ev];
      if |ring| > maxRing {
        ring := ring[|ring| - maxRing..];
      }
      Broadcast(ev);
    }

    /** The loop of publish over the subscribers, in any order. */
    method Broadcast(ev: RuntimeEvent)
      requires Valid()
      modifies subs
      ensures Valid()
      ensures forall ch :: ch in subs ==> FoundAfter(old(ch.buf), old(ch.received), ch.buf, ch.received, ev, ch.capacity)
    {
      hide Delivered, Since;
      var todo := subs;
      while todo != {}
        invariant todo <= subs && Valid()
        invariant forall ch :: ch in todo ==> ch.buf == old(ch.buf) && ch.received == old(ch.received)
        invariant forall ch :: ch in subs - todo ==> FoundAfter(old(ch.buf), old(ch.received), ch.buf, ch.received, ev, ch.capacity)
      {
        var ch :| ch in todo;
        SendDropOldest(ch, ev);
        todo := todo - {ch};
      }
    }

    method RecentEvents(limit: int) returns (out: seq<RuntimeEvent>)
      ensures out == Recent(ring, limit)
    {
      var n := limit;
      if n <= 0 || n > |ring| {
        n := |ring|;
      }
      out := ring[|ring| - n..];
    }

    method Subscribe() returns (ch: Channel)
      requires Valid()
      modifies this
      ensures Valid() && fresh(ch) && subs == old(subs) + {ch} && ring == old(ring)
      ensures ch.buf == [] && ch.capacity == subBufLen && !ch.closed
    {
      ch := new Channel(subBufLen);
      subs := subs + {ch};
    }

    /** The function subscribe returns: take the channel off the list, then close it. */
    method Cancel(ch: Channel)
      requires Valid() && !ch.closed
      modifies this, ch
      ensures Valid() && subs == old(subs) - {ch} && ring == old(ring)
      ensures ch.closed && ch.buf == old(ch.buf) && ch.received == old(ch.received)
    {
      subs := subs - {ch};
      ch.Close();
    }
  }
}
