/** The domain model: identities, events, clock events, enclosing chains and the values
    the discovery protocol passes around. */
module Domain {

  datatype Option<+T> = None | Some(value: T)

  type Byte = b: int | 0 <= b < 256
  type Bytes = seq<Byte>

  type Hash = Bytes
  type Signature = Bytes
  type Timestamp = int

  /** A 128-bit node fingerprint; `bytes` has length 16 wherever the width matters. */
  datatype NodeId = NodeId(bytes: Bytes)

  /** A closed window of clock ticks. */
  datatype TimeRange = TimeRange(lo: Timestamp, hi: Timestamp) {
    predicate Contains(t: Timestamp) {
      lo <= t <= hi
    }

    predicate Overlaps(other: TimeRange) {
      lo <= other.hi && other.lo <= hi
    }
  }

  /** A typed pointer to an event or clock event. */
  datatype EventReference = EventReference(creator: NodeId, hash: Hash)

  datatype Event = Event(creator: NodeId, hash: Hash, data: Bytes, salt: nat,
                         refs: seq<EventReference>, signature: Signature)

  datatype ClockEvent = ClockEvent(creator: NodeId, hash: Hash, chain: nat, timestamp: Timestamp,
                                   salt: nat, refs: seq<EventReference>, signature: Signature)

  /** A clock event of this node, with the reverse cross-links learned from notifications. */
  datatype LocalClockEvent = LocalClockEvent(base: ClockEvent, referencing: seq<EventReference>)

  /** The proof object `lower . event . upper`. */
  datatype EventChain = EventChain(event: Event, lower: seq<ClockEvent>, upper: seq<ClockEvent>)

  /** A peer and the newest hash of theirs we hold per chain (an empty hash is "not learned"). */
  datatype Neighbor = Neighbor(id: NodeId, tips: seq<Hash>)

  datatype TimedRoute = TimedRoute(validity: TimeRange, hops: seq<NodeId>)

  datatype Order = Before | Undetermined | After

  datatype Routing = StaticShortestPath | Flood

  /** `keeps[c]` is chain c's ring capacity, 0 for unbounded. */
  datatype NodeConfig = NodeConfig(keeps: seq<nat>, expiry: int, hopLimit: nat, routing: Routing,
                                   fanout: nat, forwardCap: nat) {
    function NumChains(): (n: nat)
      ensures n >= 1
    {
      if |keeps| == 0 then 1 else |keeps|
    }

    function Keep(chain: nat): nat {
      if chain < |keeps| then keeps[chain] else 0
    }

    /** The safe-by-default flood caps: an unset cap becomes a bounded one. */
    function Normalized(): (c: NodeConfig)
      ensures routing.Flood? ==> c.fanout > 0 && c.hopLimit > 0 && c.forwardCap > 0
    {
      if routing.StaticShortestPath? then this
      else this.(fanout := if fanout == 0 then 8 else fanout,
                 hopLimit := if hopLimit == 0 then 32 else hopLimit,
                 forwardCap := if forwardCap == 0 then 8 else forwardCap)
    }
  }

  function EventRef(e: Event): EventReference {
    EventReference(e.creator, e.hash)
  }

  function ClockRef(c: ClockEvent): EventReference {
    EventReference(c.creator, c.hash)
  }

  function EventRefs(es: seq<Event>): (r: seq<EventReference>)
    ensures |r| == |es| && forall i :: 0 <= i < |es| ==> r[i] == EventRef(es[i])
  {
    if es == [] then [] else EventRefs(Front(es)) + [EventRef(Last(es))]
  }

  /** Whether a reference list names the hash `h`, under any creator. */
  predicate Mentions(refs: seq<EventReference>, h: Hash) {
    exists i :: 0 <= i < |refs| && refs[i].hash == h
  }

  function Last<T>(s: seq<T>): (r: T)
    requires |s| > 0
  {
    s[|s| - 1]
  }

  function Front<T>(s: seq<T>): (r: seq<T>)
    requires |s| > 0
  {
    s[..|s| - 1]
  }

  function Min(a: int, b: int): int {
    if a <= b then a else b
  }

  /** The last `k` elements (all of them when there are fewer). */
  function LastN<T>(s: seq<T>, k: nat): (r: seq<T>) {
    if |s| <= k then s else s[|s| - k..]
  }
}
