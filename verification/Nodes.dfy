/** A node as an object: its working set, its store, its queries, and the operations that
    update them in place. Each is proved to do what the value model says. */
module Nodes {
  import opened Domain
  import opened Hashing
  import opened Log
  import opened NodeModel
  import ChainBuild
  import Discovery
  import DiscoveryLaws
  import MemoryStore
  import Overlay
  import Packets
  import Queries
  import Ring
  import Router

  // ---------------------------------------------------------------------------
  // reading sequence numbers back
  // ---------------------------------------------------------------------------

  lemma {:induction false} ListedExactly(live: seq<Entry>, h: Hash, s: nat)
    ensures s in Referencing(live, h) <==> exists e :: e in live && e.at == s && Mentions(e.ce.base.refs, h)
  {
    if live != [] {
      ListedExactly(Front(live), h, s);
      assert live == Front(live) + [Last(live)];
      if Mentions(Last(live).ce.base.refs, h) && Last(live).at == s {
        assert Repeat(s, CountHash(Last(live).ce.base.refs, h))[0] == s;
        assert s in Repeat(s, CountHash(Last(live).ce.base.refs, h));
        assert Last(live) in live;
      }
      if s in Referencing(Front(live), h) {
        var e :| e in Front(live) && e.at == s && Mentions(e.ce.base.refs, h);
        assert e in live;
      }
    }
  }

  /** The store's lowest referencing sequence number is the scan's oldest referencing entry. */
  lemma FrontIsFirst(live: seq<Entry>, next: nat, h: Hash)
    requires MemoryStore.WellOrdered(live, next)
    ensures FirstReferencing(live, h).Some? <==> Referencing(live, h) != []
    ensures FirstReferencing(live, h).Some? ==> BySeq(live, Referencing(live, h)[0]) == FirstReferencing(live, h)
  {
    var f, r := FirstReferencing(live, h), Referencing(live, h);
    if r != [] {
      ListedExactly(live, h, r[0]);
      var e :| e in live && e.at == r[0] && Mentions(e.ce.base.refs, h);
      assert f.Some?;
      ListedExactly(live, h, f.value.at);
      var k :| 0 <= k < |r| && r[k] == f.value.at;
      MemoryStore.ReferencingSorted(live, next, h);
      OldestIsLowest(live, next, h, e);
      Ring.SeqFinds(live, next, f.value);
    } else if f.Some? {
      ListedExactly(live, h, f.value.at);
    }
  }

  predicate Follows(e: Entry, id: NodeId, c: ClockEvent) {
    e.ce.base.creator == id && e.ce.base.chain == c.chain
  }

  /** Scanning the referencing sequence numbers upward, the first that follows on the chain. */
  lemma FirstFollower(live: seq<Entry>, next: nat, id: NodeId, c: ClockEvent, k: nat)
    requires MemoryStore.WellOrdered(live, next) && k <= |Referencing(live, c.hash)|
    requires forall j :: 0 <= j < k ==> var e := BySeq(live, Referencing(live, c.hash)[j]); e.Some? && !Follows(e.value, id, c)
    ensures k == |Referencing(live, c.hash)| ==> NextOnChain(live, id, c).None?
    ensures k < |Referencing(live, c.hash)| ==>
      var e := BySeq(live, Referencing(live, c.hash)[k]); e.Some? && (Follows(e.value, id, c) ==> NextOnChain(live, id, c) == e)
  {
    hide Referencing, MemoryStore.WellOrdered, BySeq, NextOnChain;
    var r, n := Referencing(live, c.hash), NextOnChain(live, id, c);
    if n.Some? {
      var m := FollowerListed(live, next, id, c);
      assert m >= k;
      if k < |r| {
        ReferencingUpward(live, next, c.hash, k, m);
      }
    }
    if k < |r| {
      ListedIsLive(live, next, c.hash, k);
      var e := BySeq(live, r[k]).value;
      if Follows(e, id, c) {
        NoFollowerBefore(live, next, id, c, e);
        SameSeq(live, next, n.value, r[k]);
      }
    }
  }

  lemma FollowerListed(live: seq<Entry>, next: nat, id: NodeId, c: ClockEvent) returns (m: nat)
    requires MemoryStore.WellOrdered(live, next) && NextOnChain(live, id, c).Some?
    ensures m < |Referencing(live, c.hash)| && Referencing(live, c.hash)[m] == NextOnChain(live, id, c).value.at
    ensures BySeq(live, Referencing(live, c.hash)[m]) == NextOnChain(live, id, c) && Follows(NextOnChain(live, id, c).value, id, c)
  {
    var n := NextOnChain(live, id, c).value;
    ListedExactly(live, c.hash, n.at);
    m :| 0 <= m < |Referencing(live, c.hash)| && Referencing(live, c.hash)[m] == n.at;
    Ring.SeqFinds(live, next, n);
  }

  lemma ReferencingUpward(live: seq<Entry>, next: nat, h: Hash, k: nat, m: nat)
    requires MemoryStore.WellOrdered(live, next) && k <= m < |Referencing(live, h)|
    ensures Referencing(live, h)[k] <= Referencing(live, h)[m]
  {
    MemoryStore.ReferencingSorted(live, next, h);
  }

  lemma SameSeq(live: seq<Entry>, next: nat, e: Entry, s: nat)
    requires MemoryStore.WellOrdered(live, next) && e in live && e.at == s
    ensures BySeq(live, s) == Some(e)
  {
    Ring.SeqFinds(live, next, e);
  }

  lemma NoFollowerBefore(live: seq<Entry>, next: nat, id: NodeId, c: ClockEvent, e: Entry)
    requires MemoryStore.WellOrdered(live, next) && e in live && Mentions(e.ce.base.refs, c.hash) && Follows(e, id, c)
    ensures NextOnChain(live, id, c).Some? && NextOnChain(live, id, c).value in live && NextOnChain(live, id, c).value.at <= e.at
  {
    var n := NextOnChain(live, id, c);
    assert n.Some?;
    var i :| 0 <= i < |live| && live[i] == n.value
      && forall j :: 0 <= j < i ==> !(Mentions(live[j].ce.base.refs, c.hash) && live[j].ce.base.creator == id && live[j].ce.base.chain == c.chain);
    var k :| 0 <= k < |live| && live[k] == e;
  }

  // ---------------------------------------------------------------------------
  // the node
  // ---------------------------------------------------------------------------

  /** The same neighbours with the same tips; a slot never learned counts as empty. */
  ghost predicate SameTips(a: seq<Neighbor>, b: seq<Neighbor>) {
    |a| == |b| && forall i :: 0 <= i < |a| ==> SameNeighbor(a[i], b[i])
  }

  ghost predicate SameNeighbor(a: Neighbor, b: Neighbor) {
    a.id == b.id && forall c: nat :: NeighborTip(a, c) == NeighborTip(b, c)
  }

  lemma {:induction false} SamePlace(a: seq<Neighbor>, b: seq<Neighbor>, id: NodeId)
    requires SameTips(a, b)
    ensures NeighborAt(a, id) == NeighborAt(b, id)
  {
    if a != [] {
      SamePlace(Front(a), Front(b), id);
      assert SameNeighbor(Last(a), Last(b));
    }
  }

  lemma {:induction false} PlacedSame(a: seq<Neighbor>, b: seq<Neighbor>, nb: Neighbor)
    requires SameTips(a, b)
    ensures SameTips(Overlay.Placed(a, nb), Overlay.Placed(b, nb))
  {
    if a != [] {
      PlacedSame(Front(a), Front(b), nb);
      assert SameNeighbor(Last(a), Last(b));
    }
  }

  /** Setting a tip both in memory and on the store, or only in memory when it changes nothing. */
  lemma TipsSame(a: seq<Neighbor>, b: seq<Neighbor>, i: nat, chain: nat, hash: Hash)
    requires SameTips(a, b) && i < |b|
    ensures var nb := b[i].(tips := SetTip(b[i].tips, chain, hash));
      && SameTips(a[i := nb], b[i := nb])
      && (NeighborTip(b[i], chain) == hash ==> SameTips(a, b[i := nb]) && (hash != [] ==> nb == b[i]))
  {
    var nb := b[i].(tips := SetTip(b[i].tips, chain, hash));
    assert SameNeighbor(a[i], b[i]);
    if NeighborTip(b[i], chain) == hash {
      assert SameNeighbor(a[i], nb);
      if hash != [] {
        assert nb.tips == b[i].tips;
      }
    }
  }

  /** The new clock event's hash is novel to the store: no live clock event carries or names it. */
  ghost predicate Novel(live: seq<Entry>, c: ClockEvent) {
    && !Mentions(c.refs, c.hash)
    && forall e :: e in live ==> e.ce.base.hash != c.hash && !Mentions(e.ce.base.refs, c.hash)
  }

  class Node {
    const id: NodeId
    const cfg: NodeConfig
    const cr: Crypto
    const store: MemoryStore.InMemoryStore
    const queries: Queries.QueryTables
    var nbrs: seq<Neighbor>
    var routes: map<NodeId, NodeId>
    var timed: Router.RouteTable
    var tails: seq<seq<Event>>
    var seen: SeenTable

    /** Datagrams handed to the transport, oldest first. */
    var outbox: seq<Send>

    ghost predicate Valid()
      reads this, store, queries
    {
      && store.Valid() && WellFormed(store.log)
      && |tails| == cfg.NumChains()
      && SameTips(store.neighbors, nbrs) && store.routes == routes && store.timedRoutes == timed
      && DiscoveryLaws.DiscOk(DiscoveryLaws.Trust(cr, id, None), queries.View())
    }

    ghost function View(): NodeState
      reads this, store, queries
    {
      NodeState(id, cfg, store.log, nbrs, routes, timed, tails, seen, queries.View())
    }

    /** The neighbour table on the store is the one in memory, to the letter. */
    ghost predicate Written()
      reads this, store
    {
      store.neighbors == nbrs
    }

    /** A node on its store, whatever that holds, with its flood caps made safe. */
    constructor (id: NodeId, cfg: NodeConfig, cr: Crypto, store: MemoryStore.InMemoryStore)
      requires store.Valid() && WellFormed(store.log)
      ensures Valid() && Written() && outbox == []
      ensures View() == Opened(id, cfg.Normalized(), store.log, store.neighbors, store.routes, store.timedRoutes)
      ensures store.log == EMPTY_LOG && store.neighbors == [] && store.routes == map[] && store.timedRoutes == map[]
        ==> View() == Fresh(id, cfg.Normalized())
      ensures this.id == id && this.cfg == cfg.Normalized() && this.cr == cr && this.store == store && fresh(queries)
    {
      this.id, this.cfg, this.cr, this.store := id, cfg.Normalized(), cr, store;
      queries := new Queries.QueryTables();
      nbrs, routes, timed, seen, tails, outbox := [], map[], map[], map[], [], [];
      new;
      hide WellFormed;
      Hydrate();
      OpenedFresh(id, cfg.Normalized());
    }

    // ---- overlay ----

    /** A new neighbour is written through to the store. */
    method AddNeighbor(m: NodeId)
      requires Valid()
      modifies `nbrs, store
      ensures Valid() && View() == NodeModel.AddNeighbor(old(View()), m)
      ensures old(Written()) ==> Written()
    {
      hide WellFormed, DiscoveryLaws.DiscOk;
      var nb := Neighbor(m, []);
      if NeighborAt(nbrs, m) < 0 {
        SamePlace(store.neighbors, nbrs, m);
        PlacedSame(store.neighbors, nbrs, nb);
        nbrs := Overlay.Placed(nbrs, nb);
        store.PutNeighbor(nb);
      }
    }

    /** A route is written through to the store. */
    method LearnRoute(dest: NodeId, hop: NodeId)
      requires Valid()
      modifies `routes, store
      ensures Valid() && View() == NodeModel.LearnRoute(old(View()), dest, hop)
      ensures old(Written()) ==> Written()
    {
      hide WellFormed, DiscoveryLaws.DiscOk;
      routes := routes[dest := hop];
      store.PutRoute(dest, hop);
    }

    /** The table of timed routes is written to the store whole. */
    method LearnRouteAt(dest: NodeId, hop: NodeId, validity: TimeRange)
      requires Valid()
      modifies `timed, store
      ensures Valid() && View() == NodeModel.LearnRouteAt(old(View()), dest, hop, validity)
      ensures old(Written()) ==> Written()
    {
      hide WellFormed, DiscoveryLaws.DiscOk;
      var known := if dest in timed then timed[dest] else [];
      timed := timed[dest := known + [TimedRoute(validity, [hop])]];
      store.PutTimedRoutes(timed);
    }

    // ---- growing the DAG ----

    method PublishEvent(data: Bytes, salt: nat) returns (e: Event)
      requires Valid()
      modifies `tails, store
      ensures old(Written()) ==> Written()
      ensures Valid() && View() == Publish(old(View()), cr, data, salt)
      ensures e == NewEvent(old(View()), cr, data, salt)
    {
      hide WellFormed, DiscoveryLaws.DiscOk, LiveTipRefs, PushAll;
      var refs := TipReferences();
      var hash := EventHash(cr, data, salt, refs);
      e := Event(id, hash, data, salt, refs, cr.sign(id, hash));
      AppendEventWellFormed(store.log, e);
      var _ := store.AddEvent(e);
      PushTails(e);
    }

    /** Pin into every chain: a reference to each chain's current tip. */
    method TipReferences() returns (refs: seq<EventReference>)
      requires Valid()
      ensures refs == LiveTipRefs(store.log.live, cfg.NumChains())
    {
      hide WellFormed, DiscoveryLaws.DiscOk, Tip;
      refs := [];
      for chain := 0 to cfg.NumChains()
        invariant refs == LiveTipRefs(store.log.live, chain)
      {
        var tip := store.Latest(chain);
        if tip.Some? {
          refs := refs + [ClockRef(tip.value.base)];
        }
      }
    }

    /** Pinned by every chain's next tick. */
    method PushTails(e: Event)
      modifies `tails
      ensures tails == PushAll(old(tails), e)
    {
      var n := |tails|;
      for i := 0 to n
        invariant |tails| == n && tails == PushAll(old(tails)[..i], e) + old(tails)[i..]
      {
        assert Front(old(tails)[..i + 1]) == old(tails)[..i];
        tails := tails[i := tails[i] + [e]];
      }
      assert old(tails)[..n] == old(tails);
    }

    method BuildClockEvent(chain: nat, salt: nat, now: Timestamp) returns (c: ClockEvent)
      requires Valid() && chain < |tails|
      ensures c == NewClock(View(), cr, chain, salt, now)
    {
      hide DiscoveryLaws.DiscOk, WellFormed, Tip, NeighborRefs, EventRefs, ClockHash;
      var stamp, refs := now, [];
      var last := store.Latest(chain);
      if last.Some? {
        refs := [ClockRef(last.value.base)];
        if stamp < last.value.base.timestamp {
          stamp := last.value.base.timestamp;
        }
      }
      var others := CrossLinks(chain);
      var pinned := PinnedEvents(tails[chain]);
      refs := refs + others + pinned;
      var hash := ClockHash(cr, chain, stamp, salt, refs);
      c := ClockEvent(id, hash, chain, stamp, salt, refs, cr.sign(id, hash));
    }

    method InsertClockEvent(chain: nat, salt: nat, now: Timestamp) returns (c: ClockEvent)
      requires Valid() && chain < |tails| && Novel(store.log.live, NewClock(View(), cr, chain, salt, now))
      modifies store
      ensures Valid() && c == NewClock(old(View()), cr, chain, salt, now)
      ensures store.log == AppendClock(old(store.log), LocalClockEvent(c, [])) && unchanged(store`neighbors)
    {
      hide DiscoveryLaws.DiscOk, WellFormed, NewClock, ByHash, SameTips;
      c := BuildClockEvent(chain, salt, now);
      AppendWellFormed(store.log, LocalClockEvent(c, []));
      NovelIsUnknown(store.log.live, c);
      var _ := store.AddClockEvent(LocalClockEvent(c, []));
    }

    /** Each neighbour's matched-resolution tip. */
    method CrossLinks(chain: nat) returns (refs: seq<EventReference>)
      ensures refs == NeighborRefs(nbrs, chain)
    {
      refs := [];
      for i := 0 to |nbrs|
        invariant refs == NeighborRefs(nbrs[..i], chain)
      {
        assert Front(nbrs[..i + 1]) == nbrs[..i];
        if chain < |nbrs[i].tips| && nbrs[i].tips[chain] != [] {
          refs := refs + [EventReference(nbrs[i].id, nbrs[i].tips[chain])];
        }
      }
      assert nbrs[..|nbrs|] == nbrs;
    }

    method PinnedEvents(tail: seq<Event>) returns (refs: seq<EventReference>)
      ensures refs == EventRefs(tail)
    {
      refs := [];
      for i := 0 to |tail|
        invariant refs == EventRefs(tail[..i])
      {
        assert Front(tail[..i + 1]) == tail[..i];
        refs := refs + [EventReference(tail[i].creator, tail[i].hash)];
      }
      assert tail[..|tail|] == tail;
    }

    /** Create the chain's next clock event, tell every neighbour, and prune the ring. */
    method Tick(chain: nat, salt: nat, now: Timestamp)
      requires Valid() && chain < |tails| && Novel(store.log.live, NewClock(View(), cr, chain, salt, now))
      modifies `tails, `outbox, store
      ensures old(Written()) ==> Written()
      ensures Valid()
      ensures View() == NodeModel.Tick(old(View()), cr, chain, salt, now).0
      ensures outbox == old(outbox) + NodeModel.Tick(old(View()), cr, chain, salt, now).1
    {
      hide DiscoveryLaws.DiscOk, NewClock, Novel, WellFormed, SameTips, Notifications, AppendClock, Prune;
      var c := InsertClockEvent(chain, salt, now);
      tails := tails[chain := []];
      Advertise(c);
      KeepNewestWellFormed(store.log, chain, cfg.Keep(chain));
      store.PruneChain(chain, cfg.Keep(chain));
    }

    method Advertise(c: ClockEvent)
      modifies `outbox
      ensures outbox == old(outbox) + Notifications(nbrs, c)
    {
      for i := 0 to |nbrs|
        invariant outbox == old(outbox) + Notifications(nbrs[..i], c)
      {
        assert Front(nbrs[..i + 1]) == nbrs[..i];
        var theirs := if c.chain < |nbrs[i].tips| then nbrs[i].tips[c.chain] else [];
        outbox := outbox + [Send(nbrs[i].id, ClockNotification(c.chain, c.hash, theirs))];
      }
      assert nbrs[..|nbrs|] == nbrs;
    }

    method CollectGarbage()
      requires Valid()
      modifies store
      ensures old(Written()) ==> Written()
      ensures Valid() && View() == Gc(old(View()))
    {
      hide DiscoveryLaws.DiscOk, WellFormed;
      for chain := 0 to |cfg.keeps|
        invariant store.Valid() && WellFormed(store.log)
        invariant store.log == PruneAll(old(store.log), cfg, chain)
        invariant unchanged(store`neighbors, store`routes, store`timedRoutes)
      {
        KeepNewestWellFormed(store.log, chain, cfg.Keep(chain));
        store.PruneChain(chain, cfg.Keep(chain));
      }
    }

    // ---- gossip ----

    /** Bucket the advertised tip, writing the neighbour through only if the tip changed. An
        empty tip for a slot the neighbour did not have grows the table in memory alone. */
    method LearnTip(from: NodeId, chain: nat, hash: Hash)
      requires Valid()
      modifies `nbrs, store
      ensures Valid() && View() == old(View()).(nbrs := NodeModel.LearnTip(old(nbrs), from, chain, hash))
      ensures old(Written()) && hash != [] ==> Written()
    {
      hide WellFormed, DiscoveryLaws.DiscOk, SameTips, SetTip, NeighborAt;
      var i := NeighborAt(nbrs, from);
      if i >= 0 {
        var nb := nbrs[i].(tips := SetTip(nbrs[i].tips, chain, hash));
        var changed := (if chain < |nbrs[i].tips| then nbrs[i].tips[chain] else []) != hash;
        SamePlace(store.neighbors, nbrs, from);
        TipsSame(store.neighbors, nbrs, i, chain, hash);
        nbrs := nbrs[i := nb];
        if changed {
          store.PutNeighbor(nb);
        }
      }
    }

    /** Bucket the advertised tip, then record the reverse edge once. */
    method ProcessNotification(from: NodeId, chain: nat, hash: Hash, theirs: Hash)
      requires Valid()
      modifies `nbrs, store
      ensures Valid() && View() == OnNotification(old(View()), from, chain, hash, theirs)
      ensures old(Written()) && hash != [] ==> Written()
    {
      hide DiscoveryLaws.DiscOk, WellFormed, SameTips, NodeModel.LearnTip, Update;
      LearnTip(from, chain, hash);
      var local := store.ClockEventOf(theirs);
      if local.Some? {
        var edge := EventReference(from, hash);
        if edge !in local.value.referencing {
          var c := local.value.(referencing := local.value.referencing + [edge]);
          EdgeKeepsRecord(store.log, theirs, c);
          store.UpdateClockEvent(c);
        }
      }
    }

    // ---- forwarding ----

    method NextHops(dest: NodeId, range: TimeRange, rnd: nat -> nat) returns (hops: seq<NodeId>)
      requires Valid()
      ensures hops == Router.NextHops(cfg, id, store.log.live, nbrs, routes, timed, dest, range, rnd)
    {
      hide WellFormed, DiscoveryLaws.DiscOk;
      if cfg.routing.StaticShortestPath? {
        return Router.StaticHops(nbrs, routes, dest);
      }
      var records := store.LoadClockEvents();
      var crosslinked := Router.NeighborHistory(id, records, store.log.live, nbrs, range);
      var candidates := Router.RoutingTable(timed, crosslinked, dest, range);
      hops := Router.Probabilistic(candidates, cfg.fanout, rnd);
    }

    method Flood(m: Payload, rnd: nat -> nat)
      requires Valid() && m.ChainRequest?
      modifies `outbox
      ensures Valid() && outbox == old(outbox) + FloodRequest(View(), m, rnd)
    {
      hide WellFormed, DiscoveryLaws.DiscOk, Router.NextHops;
      var incoming := m.path;
      var copy := ChainRequest(m.originator, m.event, m.range, m.hopLimit, m.path + [id]);
      var hops := NextHops(m.event.creator, m.range, rnd);
      for i := 0 to |hops|
        invariant outbox == old(outbox) + Forwards(nbrs, id, hops[..i], incoming, copy)
      {
        assert Front(hops[..i + 1]) == hops[..i];
        if hops[i] != id && hops[i] !in incoming && NeighborAt(nbrs, hops[i]) >= 0 {
          outbox := outbox + [Send(hops[i], copy)];
        }
      }
      assert hops[..|hops|] == hops;
    }

    method SendBack(originator: NodeId, ch: EventChain, path: seq<NodeId>)
      requires Valid()
      modifies `outbox
      ensures Valid() && outbox == old(outbox) + Retrace(View(), originator, ch, path)
    {
      if |path| == 0 {
        return;
      }
      if NeighborAt(nbrs, Last(path)) >= 0 {
        outbox := outbox + [Send(Last(path), ChainResponse(originator, ch, Front(path)))];
      }
    }

    // ---- chain building ----

    /** The first reference naming an own live clock event. */
    method FindOwn(refs: seq<EventReference>) returns (r: Option<LocalClockEvent>)
      requires Valid()
      ensures r == (var f := FirstOwn(store.log.live, id, refs); if f.Some? then Some(f.value.ce) else None)
    {
      hide WellFormed, DiscoveryLaws.DiscOk, ByHash;
      for i := 0 to |refs|
        invariant FirstOwn(store.log.live, id, refs) == FirstOwn(store.log.live, id, refs[i..])
      {
        assert refs[i..][1..] == refs[i + 1..];
        if refs[i].creator == id {
          var ce := store.ClockEventOf(refs[i].hash);
          if ce.Some? {
            return ce;
          }
        }
      }
      r := None;
    }

    method AddLocalLower(ch: EventChain) returns (r: Option<EventChain>)
      requires Valid()
      ensures r == ChainBuild.AddLower(store.log.live, id, ch)
    {
      hide WellFormed, DiscoveryLaws.DiscOk, FirstOwn;
      var refs := if |ch.lower| == 0 then ch.event.refs else ch.lower[0].refs;
      var ce := FindOwn(refs);
      r := if ce.None? then None else Some(ch.(lower := [ce.value.base] + ch.lower));
    }

    method AddLocalUpper(ch: EventChain) returns (r: Option<EventChain>)
      requires Valid()
      ensures r == ChainBuild.AddUpper(store.log.live, ch)
    {
      hide WellFormed, DiscoveryLaws.DiscOk;
      var h := if |ch.upper| == 0 then ch.event.hash else Last(ch.upper).hash;
      var seqs := store.ClockEventsReferencing(h);
      FrontIsFirst(store.log.live, store.log.next, h);
      if |seqs| == 0 {
        return None;
      }
      var ce := store.ClockEventAt(seqs[0]);
      r := Some(ch.(upper := ch.upper + [ce.value.base]));
    }

    /** Step back along the own chain until a clock event references the neighbour. There is no
        step counter: the walk ends because each step lowers the sequence number. */
    method ExtendLower(nb: NodeId, ch: EventChain) returns (r: Option<EventChain>)
      requires Valid() && ch.lower != []
      ensures r == ChainBuild.ExtendLower(store.log.live, id, nb, ch)
      ensures r.Some? ==> r.value.upper == ch.upper
    {
      hide DiscoveryLaws.DiscOk, FirstOwn, Router.NamesCreator;
      var first := store.ClockEventOf(ch.lower[0].hash);
      if first.None? {
        return None;
      }
      var current, lower := first.value, ch.lower;
      ghost var cur := ByHash(store.log.live, ch.lower[0].hash).value;
      ghost var target := ChainBuild.WalkBack(store.log.live, id, nb, cur, ch.lower);
      while true
        invariant cur in store.log.live && current == cur.ce
        invariant ChainBuild.WalkBack(store.log.live, id, nb, cur, lower) == target
        decreases cur.at
      {
        var named := Names(current.base.refs, nb);
        if named {
          return Some(ch.(lower := lower));
        }
        var prev := FindOwn(current.base.refs);
        if prev.None? {
          return None;
        }
        ChainBuild.WalkBackSteps(store.log, id, cur);
        cur := FirstOwn(store.log.live, id, current.base.refs).value;
        current := prev.value;
        lower := [current.base] + lower;
      }
    }

    method Names(refs: seq<EventReference>, nb: NodeId) returns (found: bool)
      ensures found <==> Router.NamesCreator(refs, nb)
    {
      for i := 0 to |refs|
        invariant !Router.NamesCreator(refs[..i], nb)
      {
        if refs[i].creator == nb {
          return true;
        }
      }
      assert refs[..|refs|] == refs;
      found := false;
    }

    /** The own clock event that references `c` on its chain. */
    method Successor(c: ClockEvent) returns (r: Option<LocalClockEvent>)
      requires Valid()
      ensures r == (var n := NextOnChain(store.log.live, id, c); if n.Some? then Some(n.value.ce) else None)
    {
      hide WellFormed, DiscoveryLaws.DiscOk, NextOnChain;
      var seqs := store.ClockEventsReferencing(c.hash);
      for k := 0 to |seqs|
        invariant forall j :: 0 <= j < k ==> var e := BySeq(store.log.live, seqs[j]); e.Some? && !Follows(e.value, id, c)
      {
        FirstFollower(store.log.live, store.log.next, id, c, k);
        var ce := store.ClockEventAt(seqs[k]);
        if ce.value.base.creator == id && ce.value.base.chain == c.chain {
          return ce;
        }
      }
      FirstFollower(store.log.live, store.log.next, id, c, |seqs|);
      r := None;
    }

    /** Step forward along the own chain until the neighbour is known to reference it. */
    method ExtendUpper(nb: NodeId, ch: EventChain) returns (r: Option<EventChain>)
      requires Valid() && ch.upper != []
      ensures r == ChainBuild.ExtendUpper(store.log.live, store.log.next, id, nb, ch)
    {
      hide DiscoveryLaws.DiscOk, NextOnChain, Router.NamesCreator;
      var first := store.ClockEventOf(Last(ch.upper).hash);
      if first.None? {
        return None;
      }
      var current, upper := first.value, ch.upper;
      ghost var cur := ByHash(store.log.live, Last(ch.upper).hash).value;
      ghost var target := ChainBuild.WalkForward(store.log.live, store.log.next, id, nb, cur, ch.upper);
      while true
        invariant cur in store.log.live && current == cur.ce
        invariant ChainBuild.WalkForward(store.log.live, store.log.next, id, nb, cur, upper) == target
        decreases store.log.next - cur.at
      {
        var named := Names(current.referencing, nb);
        if named {
          return Some(ch.(upper := upper));
        }
        var next := Successor(current.base);
        if next.None? {
          return None;
        }
        ChainBuild.WalkForwardSteps(store.log, id, cur);
        NextIsLive(store.log.live, id, current.base);
        cur := NextOnChain(store.log.live, id, current.base).value;
        current := next.value;
        upper := upper + [current.base];
      }
    }

    method Splice(nb: NodeId, ch: EventChain) returns (r: Option<EventChain>)
      requires Valid()
      ensures r == ChainBuild.Splice(store.log, id, nb, ch)
    {
      hide WellFormed, DiscoveryLaws.DiscOk, ChainBuild.ExtendLower, ChainBuild.ExtendUpper;
      r := AddLocalLower(ch);
      if r.None? { return; }
      r := AddLocalUpper(r.value);
      if r.None? { return; }
      r := ExtendLower(nb, r.value);
      if r.None? { return; }
      r := ExtendUpper(nb, r.value);
    }

    method Enclose(ch: EventChain) returns (r: EventChain, attached: bool)
      requires Valid()
      ensures (r, attached) == ChainBuild.Enclose(store.log.live, id, ch)
    {
      hide WellFormed, DiscoveryLaws.DiscOk, ChainBuild.AddLower, ChainBuild.AddUpper;
      var lower := AddLocalLower(ch);
      if lower.None? {
        return ch, false;
      }
      var upper := AddLocalUpper(lower.value);
      if upper.None? {
        return lower.value, false;
      }
      return upper.value, true;
    }

    // ---- requests and responses ----

    method ProcessRequest(from: NodeId, m: Payload, now: Timestamp, rnd: nat -> nat)
      requires Valid() && m.ChainRequest?
      modifies `seen, `outbox
      ensures Valid()
      ensures View() == OnRequest(old(View()), from, m, now, rnd).0
      ensures outbox == old(outbox) + OnRequest(old(View()), from, m, now, rnd).1
    {
      hide WellFormed, DiscoveryLaws.DiscOk, ChainBuild.Splice, FloodRequest, Retrace;
      if m.event.creator == id {
        var local := store.EventOf(m.event.hash);
        if local.None? { return; }
        var ch := Splice(from, EventChain(local.value, [], []));
        if ch.None? { return; }
        SendBack(m.originator, ch.value, m.path);
      } else {
        if id in m.path { return; }
        if m.hopLimit > 0 && |m.path| >= m.hopLimit { return; }
        ghost var before := View();
        if cfg.forwardCap > 0 {
          var key := (m.originator, m.event.hash);
          var entry := if key in seen then seen[key] else Seen(0, 0);
          if entry.forwards == 0 {
            entry := Seen(now, 0);
          }
          seen := seen[key := entry];
          if entry.forwards >= cfg.forwardCap { return; }
          seen := seen[key := entry.(forwards := entry.forwards + 1)];
        }
        Flood(m, rnd);
        FloodSame(before, View(), m, rnd);
      }
    }

    method ProcessResponse(from: NodeId, m: Payload)
      requires Valid() && m.ChainResponse?
      modifies `outbox, queries
      ensures Valid()
      ensures View() == OnResponse(old(View()), cr, from, m).0
      ensures outbox == old(outbox) + OnResponse(old(View()), cr, from, m).1
    {
      hide WellFormed, DiscoveryLaws.DiscOk, ChainBuild.Splice, Retrace, ChainBuild.Enclose, Discovery.Conclude;
      if m.originator == id {
        DiscoveryLaws.ComeHomeOk(DiscoveryLaws.Trust(cr, id, None), queries.View(), store.log.live, m.eventChain);
        var i := Discovery.ChainAt(queries.chains, m.eventChain.event.hash);
        if i < 0 || !queries.chains[i].state.InProgress? { return; }
        var enclosed, attached := Enclose(m.eventChain);
        queries.Finish(i, enclosed, attached, cr, id);
      } else {
        if |m.path| == 0 { return; }
        var ch := Splice(from, m.eventChain);
        if ch.None? { return; }
        SendBack(m.originator, ch.value, m.path);
      }
    }

    /** A decoded datagram; one from an unknown neighbour is ignored. */
    method Receive(from: NodeId, m: Payload, now: Timestamp, rnd: nat -> nat)
      requires Valid()
      modifies `nbrs, `seen, `outbox, store, queries
      ensures old(Written()) && (m.ClockNotification? ==> m.hash != []) ==> Written()
      ensures Valid()
      ensures View() == OnPacket(old(View()), cr, from, m, now, rnd).0
      ensures outbox == old(outbox) + OnPacket(old(View()), cr, from, m, now, rnd).1
    {
      hide WellFormed, DiscoveryLaws.DiscOk, OnRequest, OnResponse, OnNotification;
      if NeighborAt(nbrs, from) < 0 {
        return;
      }
      match m
      case ClockNotification(chain, hash, theirs) => ProcessNotification(from, chain, hash, theirs);
      case ChainRequest(_, _, _, _, _) => ProcessRequest(from, m, now, rnd);
      case ChainResponse(_, _, _) => ProcessResponse(from, m);
    }

    /** A raw datagram: malformed bytes are dropped, whoever sent them. */
    method ReceiveBytes(b: Bytes, now: Timestamp, rnd: nat -> nat)
      requires Valid()
      modifies `nbrs, `seen, `outbox, store, queries
      ensures Valid()
      ensures var p := Packets.ParsePacket(b); var s := old(View());
        (View(), outbox) ==
          if p.Fail? then (s, old(outbox))
          else var (s', out) := OnPacket(s, cr, p.value.sender, p.value.payload, now, rnd); (s', old(outbox) + out)
    {
      hide WellFormed, DiscoveryLaws.DiscOk, OnPacket, Packets.ParsePacket;
      var d := Packets.Decode(b);
      if d == None {
        return;
      }
      Receive(d.value.sender, d.value.payload, now, rnd);
    }

    // ---- queries ----

    method DiscoverChain(event: Event, range: TimeRange, w: Discovery.Waiter, now: Timestamp, rnd: nat -> nat)
      requires Valid()
      modifies `outbox, queries
      ensures Valid()
      ensures View() == NodeModel.DiscoverChain(old(View()), cr, event, range, w, now, rnd).0
      ensures outbox == old(outbox) + NodeModel.DiscoverChain(old(View()), cr, event, range, w, now, rnd).1
    {
      hide WellFormed, FloodRequest, ChainBuild.Enclose, Discovery.Conclude, Discovery.Join;
      ghost var d := queries.View();
      DiscoveryLaws.AskChainOk(DiscoveryLaws.Trust(cr, id, None), d, store.log.live, event, range, w, now);
      var i := Discovery.ChainAt(queries.chains, event.hash);
      if i >= 0 {
        CompletedIsBounded(cr, id, d, i);
        hide DiscoveryLaws.DiscOk;
        queries.JoinChain(i, event, w);
        return;
      }
      NewEntryOk(cr, id, d, event, range, w, now);
      hide DiscoveryLaws.DiscOk;
      var k := |queries.chains|;
      queries.chains := queries.chains + [Discovery.NewChain(event, range, w, now)];
      if event.creator == id {
        var enclosed, attached := Enclose(EventChain(event, [], []));
        queries.Finish(k, enclosed, attached, cr, id);
      } else {
        var m := ChainRequest(id, EventReference(event.creator, event.hash), range, cfg.hopLimit, []);
        FloodSame(old(View()), View(), m, rnd);
        Flood(m, rnd);
      }
    }

    method DiscoverBounds(event: Event, range: TimeRange, tok: nat, now: Timestamp, rnd: nat -> nat)
      requires Valid()
      modifies `outbox, queries
      ensures Valid()
      ensures View() == NodeModel.DiscoverBounds(old(View()), cr, event, range, tok, now, rnd).0
      ensures outbox == old(outbox) + NodeModel.DiscoverBounds(old(View()), cr, event, range, tok, now, rnd).1
    {
      hide WellFormed, Discovery.AskChain, FloodRequest, DiscoveryLaws.DiscOk;
      var i := Discovery.BoundsAt(queries.bounds, event.hash);
      if i >= 0 {
        JoinBounds(i, event, range, tok, now);
        return;
      }
      var e := Discovery.BoundsEntry(now, event, 0, 0, Discovery.InProgress, [tok]);
      NewBoundsOk(cr, id, queries.View(), e);
      queries.bounds := queries.bounds + [e];
      ghost var s1 := View();
      DiscoverChain(event, range, Discovery.Node, now, rnd);
      FloodSame(old(View()), s1, Request(s1, event, range), rnd);
    }

    /** A second bounds query for the same event. */
    method JoinBounds(i: nat, event: Event, range: TimeRange, tok: nat, now: Timestamp)
      requires Valid() && i == Discovery.BoundsAt(queries.bounds, event.hash)
      modifies queries
      ensures Valid()
      ensures queries.View() == Discovery.AskBounds(old(queries.View()), cr, id, store.log.live, event, range, tok, now)
    {
      hide WellFormed;
      DiscoveryLaws.AskBoundsOk(DiscoveryLaws.Trust(cr, id, None), queries.View(), store.log.live, event, range, tok, now);
      hide DiscoveryLaws.DiscOk;
      var e := queries.bounds[i];
      match e.state {
        case InProgress => queries.bounds := queries.bounds[i := e.(waiters := e.waiters + [tok])];
        case Aborted => queries.answers := queries.answers + [Discovery.BoundsFailed(tok, event)];
        case Completed => queries.answers := queries.answers + [Discovery.BoundsDone(tok, event, e.lower, e.upper)];
      }
    }

    method DiscoverOrder(event1: Event, event2: Event, range: TimeRange, tok: nat, now: Timestamp, rnd1: nat -> nat, rnd2: nat -> nat)
      requires Valid()
      modifies `outbox, queries
      ensures Valid()
      ensures View() == NodeModel.DiscoverOrder(old(View()), cr, event1, event2, range, tok, now, rnd1, rnd2).0
      ensures outbox == old(outbox) + NodeModel.DiscoverOrder(old(View()), cr, event1, event2, range, tok, now, rnd1, rnd2).1
    {
      hide WellFormed, NodeModel.DiscoverChain, DiscoveryLaws.DiscOk;
      var i := Discovery.OrderAt(queries.orders, event1.hash, event2.hash);
      if i >= 0 {
        JoinOrder(i, event1, event2, range, tok, now);
        return;
      }
      var e := Discovery.OrderEntry(now, event1, event2, Undetermined, Discovery.InProgress, [tok]);
      NewOrderOk(cr, id, queries.View(), e);
      queries.orders := queries.orders + [e];
      DiscoverChain(event1, range, Discovery.Node, now, rnd1);
      DiscoverChain(event2, range, Discovery.Node, now, rnd2);
    }

    /** A second order query for the same pair. */
    method JoinOrder(i: nat, event1: Event, event2: Event, range: TimeRange, tok: nat, now: Timestamp)
      requires Valid() && i == Discovery.OrderAt(queries.orders, event1.hash, event2.hash)
      modifies queries
      ensures Valid()
      ensures queries.View() == Discovery.AskOrder(old(queries.View()), cr, id, store.log.live, event1, event2, range, tok, now)
    {
      hide WellFormed;
      DiscoveryLaws.AskOrderOk(DiscoveryLaws.Trust(cr, id, None), queries.View(), store.log.live, event1, event2, range, tok, now);
      hide DiscoveryLaws.DiscOk;
      var e := queries.orders[i];
      match e.state {
        case InProgress => queries.orders := queries.orders[i := e.(waiters := e.waiters + [tok])];
        case Aborted => queries.answers := queries.answers + [Discovery.OrderFailed(tok, event1, event2)];
        case Completed => queries.answers := queries.answers + [Discovery.OrderDone(tok, event1, event2, e.order)];
      }
    }

    method PurgeDiscoveries(now: Timestamp)
      requires Valid()
      modifies `seen, queries
      ensures Valid() && View() == ExpireAll(old(View()), now)
    {
      hide WellFormed, DiscoveryLaws.DiscOk, Discovery.Purge;
      var limit := now - cfg.expiry;
      DiscoveryLaws.PurgeOk(DiscoveryLaws.Trust(cr, id, None), queries.View(), limit);
      queries.Expire(limit);
      seen := map k | k in seen && seen[k].first >= limit :: seen[k];
    }

    // ---- restart ----

    method IsReferenced(h: Hash, chain: nat) returns (found: bool)
      requires store.Valid()
      ensures found <==> ReferencedBy(store.log.live, h, chain)
    {
      var seqs := store.ClockEventsReferencing(h);
      for k := 0 to |seqs|
        invariant forall j :: 0 <= j < k ==> var e := BySeq(store.log.live, seqs[j]); e.Some? && e.value.ce.base.chain != chain
      {
        ListedIsLive(store.log.live, store.log.next, h, k);
        var ce := store.ClockEventAt(seqs[k]);
        if ce.value.base.chain == chain {
          return true;
        }
      }
      NotReferenced(store.log.live, store.log.next, h, chain);
      found := false;
    }

    /** Walk the events newest-first until one is already referenced by the chain, then put what
        was found back in publish order. */
    method RebuildTail(chain: nat) returns (tail: seq<Event>)
      requires store.Valid()
      ensures tail == RebuiltTail(store.log.events, store.log.live, chain)
    {
      hide ReferencedBy;
      var found, k := [], |store.events|;
      ghost var all, live := store.events, store.log.live;
      assert all[..k] == all;
      while k > 0
        invariant 0 <= k <= |all|
        invariant RebuiltTail(all, live, chain) == RebuiltTail(all[..k], live, chain) + Reversed(found)
      {
        var e := store.events[k - 1];
        assert Front(all[..k]) == all[..k - 1];
        var referenced := IsReferenced(e.hash, chain);
        if referenced {
          break;
        }
        assert Front(found + [e]) == found;
        found := found + [e];
        k := k - 1;
      }
      tail := Unwind(found);
    }

    static method Unwind(found: seq<Event>) returns (tail: seq<Event>)
      ensures tail == Reversed(found)
    {
      tail := [];
      var i := |found|;
      assert found[..i] == found;
      while i > 0
        invariant 0 <= i <= |found| && Reversed(found) == tail + Reversed(found[..i])
      {
        i := i - 1;
        assert Front(found[..i + 1]) == found[..i];
        tail := tail + [found[i]];
      }
    }

    /** Load the overlay from the store and rederive every chain's tail. */
    method Hydrate()
      requires store.Valid()
      modifies `nbrs, `routes, `timed, `tails
      ensures nbrs == store.neighbors && routes == store.routes && timed == store.timedRoutes
      ensures tails == RebuiltTails(store.log, cfg.NumChains())
    {
      hide RebuiltTail;
      nbrs, routes, timed := store.neighbors, store.routes, store.timedRoutes;
      var rebuilt := [];
      for chain := 0 to cfg.NumChains()
        modifies {}
        invariant rebuilt == RebuiltTails(store.log, chain)
      {
        var tail := RebuildTail(chain);
        rebuilt := rebuilt + [tail];
      }
      tails := rebuilt;
    }
  }

  /** A new process on the same store. The overlay and the log come back as they were, the
      tails are rebuilt, the queries in flight are gone. */
  method Restart(n: Node) returns (m: Node)
    requires n.Valid()
    ensures m.Valid() && m.Written() && m.outbox == [] && m.store == n.store
    ensures SameTips(m.nbrs, n.nbrs) && (n.Written() ==> m.nbrs == n.nbrs)
    ensures m.View() == Restarted(n.View()).(cfg := n.cfg.Normalized(), nbrs := m.nbrs, disc := Discovery.IDLE)
  {
    hide WellFormed, DiscoveryLaws.DiscOk;
    m := new Node(n.id, n.cfg, n.cr, n.store);
  }

  function Reversed<T>(s: seq<T>): (r: seq<T>) {
    if s == [] then [] else [Last(s)] + Reversed(Front(s))
  }

  lemma ListedIsLive(live: seq<Entry>, next: nat, h: Hash, k: nat)
    requires MemoryStore.WellOrdered(live, next) && k < |Referencing(live, h)|
    ensures var e := BySeq(live, Referencing(live, h)[k]);
      e.Some? && e.value in live && e.value.at == Referencing(live, h)[k] && Mentions(e.value.ce.base.refs, h)
  {
    ListedExactly(live, h, Referencing(live, h)[k]);
    var e :| e in live && e.at == Referencing(live, h)[k] && Mentions(e.ce.base.refs, h);
    Ring.SeqFinds(live, next, e);
  }

  lemma NotReferenced(live: seq<Entry>, next: nat, h: Hash, chain: nat)
    requires MemoryStore.WellOrdered(live, next)
    requires forall j :: 0 <= j < |Referencing(live, h)| ==> var e := BySeq(live, Referencing(live, h)[j]); e.Some? && e.value.ce.base.chain != chain
    ensures !ReferencedBy(live, h, chain)
  {
    forall e | e in live && Mentions(e.ce.base.refs, h)
      ensures e.ce.base.chain != chain
    {
      ListedExactly(live, h, e.at);
      var j :| 0 <= j < |Referencing(live, h)| && Referencing(live, h)[j] == e.at;
      Ring.SeqFinds(live, next, e);
    }
  }

  lemma FloodSame(s: NodeState, s': NodeState, m: Payload, rnd: nat -> nat)
    requires m.ChainRequest? && s' == s.(seen := s'.seen, disc := s'.disc)
    ensures FloodRequest(s', m, rnd) == FloodRequest(s, m, rnd)
  {
  }

  lemma NewEntryOk(cr: Crypto, id: NodeId, d: Discovery.Disc, event: Event, range: TimeRange, w: Discovery.Waiter, now: Timestamp)
    requires DiscoveryLaws.DiscOk(DiscoveryLaws.Trust(cr, id, None), d)
    ensures DiscoveryLaws.DiscOk(DiscoveryLaws.Trust(cr, id, None), d.(chains := d.chains + [Discovery.NewChain(event, range, w, now)]))
  {
  }

  lemma NewBoundsOk(cr: Crypto, id: NodeId, d: Discovery.Disc, e: Discovery.BoundsEntry)
    requires DiscoveryLaws.DiscOk(DiscoveryLaws.Trust(cr, id, None), d) && e.state.InProgress?
    ensures DiscoveryLaws.DiscOk(DiscoveryLaws.Trust(cr, id, None), d.(bounds := d.bounds + [e]))
  {
  }

  lemma NewOrderOk(cr: Crypto, id: NodeId, d: Discovery.Disc, e: Discovery.OrderEntry)
    requires DiscoveryLaws.DiscOk(DiscoveryLaws.Trust(cr, id, None), d) && e.state.InProgress?
    ensures DiscoveryLaws.DiscOk(DiscoveryLaws.Trust(cr, id, None), d.(orders := d.orders + [e]))
  {
  }

  lemma CompletedIsBounded(cr: Crypto, id: NodeId, d: Discovery.Disc, i: nat)
    requires DiscoveryLaws.DiscOk(DiscoveryLaws.Trust(cr, id, None), d) && i < |d.chains|
    ensures d.chains[i].state.Completed? ==> Discovery.Bounded(d.chains[i].chain)
  {
    assert DiscoveryLaws.ChainOk(DiscoveryLaws.Trust(cr, id, None), d.chains[i]);
  }

  lemma NextIsLive(live: seq<Entry>, id: NodeId, c: ClockEvent)
    ensures var n := NextOnChain(live, id, c); n.Some? ==> n.value in live
  {
  }

  lemma NovelIsUnknown(live: seq<Entry>, c: ClockEvent)
    requires Novel(live, c)
    ensures ByHash(live, c.hash).None?
  {
  }

  lemma EdgeKeepsRecord(log: Log, h: Hash, c: LocalClockEvent)
    requires WellFormed(log) && ByHash(log.live, h).Some? && c.base == ByHash(log.live, h).value.ce.base
    ensures MemoryStore.SameRecord(log.live, c) && WellFormed(log.(live := Update(log.live, c)))
  {
    var e := ByHash(log.live, h).value;
    forall f | f in log.live && f.ce.base.hash == c.base.hash
      ensures f.ce.base == c.base
    {
      Ring.HashFinds(log.live, log.next, f);
    }
    MemoryStore.UpdateSameBases(log.live, c);
    SameBasesWellFormed(log, log.(live := Update(log.live, c)));
  }
}
