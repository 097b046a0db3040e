/** Who a request reaches and what answers it: the positive half of the flood. A request is
    forwarded, exactly once each, to every next hop that is not on its path; a request that
    reaches the event's creator is answered whenever the creator can tie the chain to the hop it
    came from; a response is passed back whenever the hop can. */
module Forwarding {
  import opened Domain
  import opened Hashing
  import opened Log
  import opened NodeModel
  import ChainBuild
  import Discovery
  import FloodBound
  import Router
  import Walks

  // ---------------------------------------------------------------------------
  // one flood
  // ---------------------------------------------------------------------------

  lemma {:induction false} ForwardsExactly(nbrs: seq<Neighbor>, self: NodeId, hops: seq<NodeId>, incoming: seq<NodeId>, msg: Payload, x: Send)
    requires Router.Distinct(hops)
    ensures multiset(Forwards(nbrs, self, hops, incoming, msg))[x] ==
      if x.msg == msg && x.to in hops && x.to != self && x.to !in incoming && Router.IsNeighbor(nbrs, x.to) then 1 else 0
  {
    if hops != [] {
      hide Router.IsNeighbor;
      ForwardsExactly(nbrs, self, Front(hops), incoming, msg, x);
      assert hops == Front(hops) + [Last(hops)];
      assert Last(hops) !in Front(hops);
    }
  }

  /** The hops the node's routing policy names for a request. */
  function Hops(s: NodeState, dest: NodeId, range: TimeRange, rnd: nat -> nat): seq<NodeId> {
    Router.NextHops(s.cfg, s.id, s.log.live, s.nbrs, s.routes, s.timed, dest, range, rnd)
  }

  /** The copy a node passes on: the same request with the node appended to the path. */
  function Copy(m: Payload, id: NodeId): Payload
    requires m.ChainRequest?
  {
    ChainRequest(m.originator, m.event, m.range, m.hopLimit, m.path + [id])
  }

  /** The copy goes to this node: a next hop other than the sender and off the path. */
  ghost predicate Targets(s: NodeState, m: Payload, rnd: nat -> nat, to: NodeId)
    requires m.ChainRequest?
  {
    to in Hops(s, m.event.creator, m.range, rnd) && to != s.id && to !in m.path
  }

  lemma FloodIsExact(s: NodeState, m: Payload, rnd: nat -> nat, x: Send)
    requires m.ChainRequest?
    ensures multiset(FloodRequest(s, m, rnd))[x] == if x.msg == Copy(m, s.id) && Targets(s, m, rnd, x.to) then 1 else 0
  {
    hide Forwards, Router.NextHops;
    var hops := Hops(s, m.event.creator, m.range, rnd);
    Router.NextHopsBounded(s.cfg, s.id, s.log.live, s.nbrs, s.routes, s.timed, m.event.creator, m.range, rnd);
    ForwardsExactly(s.nbrs, s.id, hops, m.path, Copy(m, s.id), x);
  }

  // ---------------------------------------------------------------------------
  // at an intermediate
  // ---------------------------------------------------------------------------

  /** Already on the path, at the hop limit, or forwarded often enough. */
  predicate Stopped(s: NodeState, m: Payload)
    requires m.ChainRequest?
  {
    || s.id in m.path
    || (m.hopLimit > 0 && |m.path| >= m.hopLimit)
    || (s.cfg.forwardCap > 0 && FloodBound.Forwarded(s, m.originator, m.event.hash) >= s.cfg.forwardCap)
  }

  /** The record's age counts from the first forward of the discovery. */
  ghost predicate FirstForward(s: NodeState, s': NodeState, key: (NodeId, Hash), now: Timestamp) {
    key in s'.seen && s'.seen[key].first == if key in s.seen && s.seen[key].forwards > 0 then s.seen[key].first else now
  }

  /** A request at a node that is not the event's creator is dropped if and only if it is
      stopped, and otherwise sent, exactly once each, to every next hop other than the node
      itself and off the path. Forwarding counts against the cap of its own discovery only. */
  lemma RequestIsForwarded(s: NodeState, from: NodeId, m: Payload, now: Timestamp, rnd: nat -> nat)
    requires m.ChainRequest? && m.event.creator != s.id
    ensures var (s', out) := OnRequest(s, from, m, now, rnd);
      && (Stopped(s, m) ==> out == [])
      && (!Stopped(s, m) ==> forall x :: multiset(out)[x] == if x.msg == Copy(m, s.id) && Targets(s, m, rnd, x.to) then 1 else 0)
      && s' == s.(seen := s'.seen)
      && FloodBound.Forwarded(s', m.originator, m.event.hash) ==
           FloodBound.Forwarded(s, m.originator, m.event.hash) + (if Stopped(s, m) || s.cfg.forwardCap == 0 then 0 else 1)
      && (forall o, h :: (o, h) != (m.originator, m.event.hash) ==> FloodBound.Forwarded(s', o, h) == FloodBound.Forwarded(s, o, h))
      && (!Stopped(s, m) && s.cfg.forwardCap > 0 ==> FirstForward(s, s', (m.originator, m.event.hash), now))
  {
    hide FloodRequest, Targets;
    forall x
      ensures multiset(FloodRequest(s, m, rnd))[x] == if x.msg == Copy(m, s.id) && Targets(s, m, rnd, x.to) then 1 else 0
    {
      FloodIsExact(s, m, rnd, x);
    }
  }

  // ---------------------------------------------------------------------------
  // at the creator and on the way back
  // ---------------------------------------------------------------------------

  /** The first event stored under the hash. */
  ghost predicate StoredFirst(events: seq<Event>, h: Hash, e: Event) {
    exists i :: 0 <= i < |events| && events[i] == e && e.hash == h && forall j :: 0 <= j < i ==> events[j].hash != h
  }

  lemma {:induction false} EventFound(events: seq<Event>, h: Hash)
    ensures var r := EventByHash(events, h); r.Some? ==> StoredFirst(events, h, r.value)
  {
    if events != [] {
      EventFound(Front(events), h);
      var older := EventByHash(Front(events), h);
      if older.Some? {
        var i :| 0 <= i < |Front(events)| && Front(events)[i] == older.value && older.value.hash == h
          && forall j :: 0 <= j < i ==> Front(events)[j].hash != h;
        assert events[i] == older.value && forall j :: 0 <= j < i ==> events[j].hash != h;
      } else if Last(events).hash == h {
        assert events[|events| - 1] == Last(events) && forall j :: 0 <= j < |events| - 1 ==> events[j] in Front(events);
      }
    }
  }

  lemma EventFoundOrNone(events: seq<Event>, h: Hash)
    ensures var r := EventByHash(events, h);
      && (r.None? <==> forall e :: !StoredFirst(events, h, e))
      && (r.Some? ==> StoredFirst(events, h, r.value))
  {
    hide EventByHash;
    EventFound(events, h);
    forall e | StoredFirst(events, h, e)
      ensures e in events && e.hash == h
    {
    }
    hide StoredFirst;
  }

  lemma StoredIsOne(events: seq<Event>, h: Hash, e: Event, f: Event)
    requires StoredFirst(events, h, e) && StoredFirst(events, h, f)
    ensures e == f
  {
    var i :| 0 <= i < |events| && events[i] == e && e.hash == h && forall j :: 0 <= j < i ==> events[j].hash != h;
    var k :| 0 <= k < |events| && events[k] == f && f.hash == h && forall j :: 0 <= j < k ==> events[j].hash != h;
    assert !(i < k) && !(k < i);
  }

  /** There is a way back: the newest entry of the path, a known neighbour. */
  ghost predicate WayBack(s: NodeState, path: seq<NodeId>) {
    path != [] && Router.IsNeighbor(s.nbrs, Last(path))
  }

  function Back(originator: NodeId, ch: EventChain, path: seq<NodeId>): Send
    requires path != []
  {
    Send(Last(path), ChainResponse(originator, ch, Front(path)))
  }

  /** The creator holds the event and can tie its chain to the hop the request came from. */
  ghost predicate Answerable(s: NodeState, from: NodeId, m: Payload, e: Event, p: seq<Entry>, q: seq<Entry>)
    requires m.ChainRequest?
  {
    && StoredFirst(s.log.events, m.event.hash, e)
    && Walks.HasLegs(s.log, s.id, from, EventChain(e, [], []), p, q)
  }

  /** A request that reaches the event's creator changes nothing there. It is answered if and
      only if the creator holds the event, can tie it to the hop the request came from, and knows
      the way back; the answer is the event with exactly the creator's two legs around it. */
  lemma RequestIsAnswered(s: NodeState, from: NodeId, m: Payload, now: Timestamp, rnd: nat -> nat)
    requires WellFormed(s.log) && m.ChainRequest? && m.event.creator == s.id
    ensures var (s', out) := OnRequest(s, from, m, now, rnd);
      && s' == s
      && (out != [] <==> WayBack(s, m.path) && exists e, p, q :: Answerable(s, from, m, e, p, q))
    ensures forall e, p, q :: WayBack(s, m.path) && Answerable(s, from, m, e, p, q) ==>
      OnRequest(s, from, m, now, rnd).1 == [Back(m.originator, Walks.Wrapped(EventChain(e, [], []), p, q), m.path)]
  {
    hide WellFormed, EventByHash, ChainBuild.Splice, Walks.HasLegs, StoredFirst, Walks.Wrapped;
    EventFoundOrNone(s.log.events, m.event.hash);
    var local := EventByHash(s.log.events, m.event.hash);
    if local.Some? {
      var e := local.value;
      Walks.SpliceIsExact(s.log, s.id, from, EventChain(e, [], []));
      if ChainBuild.Splice(s.log, s.id, from, EventChain(e, [], [])).Some? {
        var p, q :| Walks.HasLegs(s.log, s.id, from, EventChain(e, [], []), p, q);
        assert Answerable(s, from, m, e, p, q);
      }
      forall f, p, q | Answerable(s, from, m, f, p, q)
        ensures f == e
      {
        StoredIsOne(s.log.events, m.event.hash, e, f);
      }
    }
  }

  /** A response at a node that is not its originator changes nothing there. It is passed back if
      and only if the node can tie the chain to the hop it came from and knows the way back, and
      then with exactly the node's two legs around the chain. */
  lemma ResponseIsRelayed(s: NodeState, cr: Crypto, from: NodeId, m: Payload)
    requires WellFormed(s.log) && m.ChainResponse? && m.originator != s.id
    ensures var (s', out) := OnResponse(s, cr, from, m);
      && s' == s
      && (out != [] <==> WayBack(s, m.path) && exists p, q :: Walks.HasLegs(s.log, s.id, from, m.eventChain, p, q))
    ensures forall p, q :: WayBack(s, m.path) && Walks.HasLegs(s.log, s.id, from, m.eventChain, p, q) ==>
      OnResponse(s, cr, from, m).1 == [Back(m.originator, Walks.Wrapped(m.eventChain, p, q), m.path)]
  {
    hide WellFormed, ChainBuild.Splice, Walks.HasLegs, Walks.Wrapped;
    Walks.SpliceIsExact(s.log, s.id, from, m.eventChain);
  }

  // ---------------------------------------------------------------------------
  // launching
  // ---------------------------------------------------------------------------

  /** Nobody asked about the hash yet. */
  ghost predicate Unasked(d: Discovery.Disc, h: Hash) {
    forall e :: e in d.chains ==> e.event.hash != h
  }

  lemma UnaskedIsNotFound(d: Discovery.Disc, h: Hash)
    ensures Unasked(d, h) <==> Discovery.ChainAt(d.chains, h) < 0
  {
    var i := Discovery.ChainAt(d.chains, h);
    if i >= 0 {
      assert d.chains[i] in d.chains;
    }
  }

  /** The first chain query about a remote event sends one request to every next hop; any other
      chain query sends nothing. */
  lemma LaunchIsExact(s: NodeState, cr: Crypto, event: Event, range: TimeRange, w: Discovery.Waiter, now: Timestamp, rnd: nat -> nat, x: Send)
    ensures var out := DiscoverChain(s, cr, event, range, w, now, rnd).1;
      multiset(out)[x] ==
        if event.creator != s.id && Unasked(s.disc, event.hash) && x.to in Hops(s, event.creator, range, rnd) && x.to != s.id
           && x.msg == ChainRequest(s.id, EventRef(event), range, s.cfg.hopLimit, [s.id])
        then 1 else 0
  {
    hide FloodRequest, Discovery.AskChain, Hops;
    UnaskedIsNotFound(s.disc, event.hash);
    var m := Request(s, event, range);
    FloodIsExact(s, m, rnd, x);
    assert [] + [s.id] == [s.id];
  }

  /** Under the flood policy the launch is not silent as soon as any neighbour was cross-linked
      inside the window. */
  lemma LaunchIsNotSilent(s: NodeState, cr: Crypto, event: Event, range: TimeRange, w: Discovery.Waiter, now: Timestamp, rnd: nat -> nat, nb: NodeId)
    requires s.cfg.routing.Flood? && event.creator != s.id && Unasked(s.disc, event.hash)
    requires nb != s.id && Router.IsNeighbor(s.nbrs, nb) && Router.CrossLinked(s.log.live, range, nb)
    ensures DiscoverChain(s, cr, event, range, w, now, rnd).1 != []
  {
    hide DiscoverChain, Router.Sample, Router.FloodCandidates, Router.IsNeighbor, Router.CrossLinked, Unasked;
    var hops := Hops(s, event.creator, range, rnd);
    Router.FloodStack(s.id, s.log.live, s.nbrs, s.timed, event.creator, range, s.cfg.fanout, rnd);
    assert hops != [] && hops[0] in hops;
    var x := Send(hops[0], ChainRequest(s.id, EventRef(event), range, s.cfg.hopLimit, [s.id]));
    LaunchIsExact(s, cr, event, range, w, now, rnd, x);
    assert x in multiset(DiscoverChain(s, cr, event, range, w, now, rnd).1);
  }

  /** Under the static policy it goes to the learned next hop, if that is a known neighbour. */
  lemma StaticLaunch(s: NodeState, cr: Crypto, event: Event, range: TimeRange, w: Discovery.Waiter, now: Timestamp, rnd: nat -> nat)
    requires s.cfg.routing.StaticShortestPath? && event.creator != s.id && Unasked(s.disc, event.hash)
    ensures DiscoverChain(s, cr, event, range, w, now, rnd).1 != [] <==>
      event.creator in s.routes && s.routes[event.creator] != s.id && Router.IsNeighbor(s.nbrs, s.routes[event.creator])
  {
    hide Unasked, DiscoverChain, Router.IsNeighbor;
    var hops, out := Hops(s, event.creator, range, rnd), DiscoverChain(s, cr, event, range, w, now, rnd).1;
    var m := ChainRequest(s.id, EventRef(event), range, s.cfg.hopLimit, [s.id]);
    if hops != [] {
      LaunchIsExact(s, cr, event, range, w, now, rnd, Send(hops[0], m));
      if hops[0] != s.id {
        assert Send(hops[0], m) in multiset(out);
      }
    }
    if out != [] {
      LaunchIsExact(s, cr, event, range, w, now, rnd, out[0]);
      assert out[0] in multiset(out);
    }
  }

  /** The first bounds query about an event sends what its chain query sends; a later one
      nothing. */
  lemma BoundsLaunch(s: NodeState, cr: Crypto, event: Event, range: TimeRange, tok: nat, now: Timestamp, rnd: nat -> nat)
    ensures var out := DiscoverBounds(s, cr, event, range, tok, now, rnd).1;
      out == if exists e :: e in s.disc.bounds && e.event.hash == event.hash then []
             else DiscoverChain(s, cr, event, range, Discovery.Node, now, rnd).1
  {
    hide FloodRequest, Discovery.AskChain;
    var i := Discovery.BoundsAt(s.disc.bounds, event.hash);
    if i >= 0 {
      assert s.disc.bounds[i] in s.disc.bounds;
    }
  }

  /** The first order query about two different remote events nobody asked about sends a request
      for each to every next hop. */
  lemma OrderLaunch(s: NodeState, cr: Crypto, event1: Event, event2: Event, range: TimeRange, tok: nat, now: Timestamp,
                    rnd1: nat -> nat, rnd2: nat -> nat, x: Send)
    requires forall e :: e in s.disc.orders ==> e.event1.hash != event1.hash || e.event2.hash != event2.hash
    requires event1.creator != s.id && Unasked(s.disc, event1.hash)
    requires event2.creator != s.id && Unasked(s.disc, event2.hash) && event1.hash != event2.hash
    ensures var out := DiscoverOrder(s, cr, event1, event2, range, tok, now, rnd1, rnd2).1;
      && (x.to in Hops(s, event1.creator, range, rnd1) && x.to != s.id && x.msg == ChainRequest(s.id, EventRef(event1), range, s.cfg.hopLimit, [s.id])
          ==> x in out)
      && (x.to in Hops(s, event2.creator, range, rnd2) && x.to != s.id && x.msg == ChainRequest(s.id, EventRef(event2), range, s.cfg.hopLimit, [s.id])
          ==> x in out)
  {
    hide Hops, DiscoverChain;
    var s1 := s.(disc := s.disc.(orders := s.disc.orders + [Discovery.OrderEntry(now, event1, event2, Undetermined, Discovery.InProgress, [tok])]));
    var (s2, out1) := DiscoverChain(s1, cr, event1, range, Discovery.Node, now, rnd1);
    var (s3, out2) := DiscoverChain(s2, cr, event2, range, Discovery.Node, now, rnd2);
    NotAsked(s.disc, event1, event2);
    LaunchIsExact(s1, cr, event1, range, Discovery.Node, now, rnd1, x);
    RemoteAsked(s1, cr, event1, range, now, rnd1, event2.hash);
    LaunchIsExact(s2, cr, event2, range, Discovery.Node, now, rnd2, x);
    SameHops(s, s1, event1.creator, range, rnd1);
    SameHops(s, s2, event2.creator, range, rnd2);
  }

  lemma NotAsked(d: Discovery.Disc, event1: Event, event2: Event)
    requires forall e :: e in d.orders ==> e.event1.hash != event1.hash || e.event2.hash != event2.hash
    ensures Discovery.OrderAt(d.orders, event1.hash, event2.hash) < 0
  {
  }

  lemma SameHops(s: NodeState, s': NodeState, dest: NodeId, range: TimeRange, rnd: nat -> nat)
    requires s' == s.(disc := s'.disc)
    ensures Hops(s', dest, range, rnd) == Hops(s, dest, range, rnd)
  {
  }

  lemma RemoteAsked(s: NodeState, cr: Crypto, event: Event, range: TimeRange, now: Timestamp, rnd: nat -> nat, h: Hash)
    requires event.creator != s.id && Unasked(s.disc, event.hash) && Unasked(s.disc, h) && h != event.hash
    ensures var (s', out) := DiscoverChain(s, cr, event, range, Discovery.Node, now, rnd); s' == s.(disc := s'.disc) && Unasked(s'.disc, h)
  {
    UnaskedIsNotFound(s.disc, event.hash);
  }
}
