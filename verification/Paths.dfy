/** Breadcrumbs: every request in flight carries the path it came by, and every response
    retraces exactly that path home. */
module Paths {
  import opened Domain
  import opened Hashing
  import opened History
  import opened Log
  import opened NodeModel
  import opened Network
  import opened Invariant
  import Preservation
  import ChainBuild
  import Discovery
  import Router

  type Nodes = map<NodeId, NodeState>

  ghost predicate Knows(nodes: Nodes, a: NodeId, b: NodeId) {
    a in nodes && Router.IsNeighbor(nodes[a].nbrs, b)
  }

  ghost predicate Mutual(nodes: Nodes, a: NodeId, b: NodeId) {
    Knows(nodes, a, b) && Knows(nodes, b, a)
  }

  /** A loop-free path whose consecutive nodes are each other's neighbours. */
  ghost predicate Walkable(nodes: Nodes, path: seq<NodeId>) {
    && Router.Distinct(path)
    && (forall x :: x in path ==> x in nodes)
    && (forall i :: 0 < i < |path| ==> Mutual(nodes, path[i - 1], path[i]))
  }

  /** The breadcrumb starts at the originator, ends at the sender, has met neither the receiver
      nor the creator, and is within the hop limit. */
  ghost predicate RequestOk(nodes: Nodes, p: Packet)
    requires p.msg.ChainRequest?
  {
    var m := p.msg;
    && m.path != [] && m.path[0] == m.originator && Last(m.path) == p.from
    && Walkable(nodes, m.path) && Knows(nodes, p.from, p.to)
    && p.to !in m.path && m.event.creator !in m.path
    && (m.hopLimit > 0 ==> |m.path| <= m.hopLimit)
  }

  /** The response is one hop short of where its remaining path says, coming from the next node
      of the request's forward path (or from the creator, at its end). */
  ghost predicate ResponseOk(nodes: Nodes, p: Packet)
    requires p.msg.ChainResponse?
  {
    var m, k := p.msg, |p.msg.path|;
    && k < |p.trail| && m.path == p.trail[..k] && p.to == p.trail[k]
    && p.trail[0] == m.originator && Walkable(nodes, p.trail)
    && m.eventChain.event.creator !in p.trail
    && p.from == (if k + 1 < |p.trail| then p.trail[k + 1] else m.eventChain.event.creator)
    && Mutual(nodes, p.to, p.from)
  }

  ghost predicate CrumbsOk(nodes: Nodes, p: Packet) {
    (p.msg.ChainRequest? ==> RequestOk(nodes, p)) && (p.msg.ChainResponse? ==> ResponseOk(nodes, p))
  }

  ghost predicate AllCrumbsOk(nodes: Nodes, net: seq<Packet>) {
    forall p :: p in net ==> CrumbsOk(nodes, p)
  }

  // ---------------------------------------------------------------------------
  // neighbours are never forgotten
  // ---------------------------------------------------------------------------

  ghost predicate KeepsPeers(s: NodeState, s': NodeState) {
    forall b :: Router.IsNeighbor(s.nbrs, b) ==> Router.IsNeighbor(s'.nbrs, b)
  }

  lemma LearnTipKeepsPeers(nbrs: seq<Neighbor>, from: NodeId, chain: nat, h: Hash, b: NodeId)
    requires Router.IsNeighbor(nbrs, b)
    ensures Router.IsNeighbor(LearnTip(nbrs, from, chain, h), b)
  {
    var i :| 0 <= i < |nbrs| && nbrs[i].id == b;
    assert LearnTip(nbrs, from, chain, h)[i].id == b;
  }

  lemma AddKeepsPeers(s: NodeState, m: NodeId)
    ensures KeepsPeers(s, AddNeighbor(s, m))
  {
    forall b | Router.IsNeighbor(s.nbrs, b)
      ensures Router.IsNeighbor(AddNeighbor(s, m).nbrs, b)
    {
      var i :| 0 <= i < |s.nbrs| && s.nbrs[i].id == b;
      assert s.nbrs[i] in AddNeighbor(s, m).nbrs;
      var j :| 0 <= j < |AddNeighbor(s, m).nbrs| && AddNeighbor(s, m).nbrs[j] == s.nbrs[i];
    }
  }

  lemma PacketKeepsPeers(s: NodeState, cr: Crypto, from: NodeId, m: Payload, now: Timestamp, rnd: nat -> nat)
    ensures KeepsPeers(s, OnPacket(s, cr, from, m, now, rnd).0)
  {
    if m.ClockNotification? {
      forall b | Router.IsNeighbor(s.nbrs, b)
        ensures Router.IsNeighbor(LearnTip(s.nbrs, from, m.chain, m.hash), b)
      {
        LearnTipKeepsPeers(s.nbrs, from, m.chain, m.hash, b);
      }
    }
  }

  lemma EffectKeepsPeers(st: Setup, w: World, a: Action)
    requires Enabled(st, w, a) && IsNodeStep(a)
    ensures KeepsPeers(w.nodes[Actor(w, a)], Effect(st, w, a).0)
  {
    var s := w.nodes[Actor(w, a)];
    if a.AddPeer? {
      AddKeepsPeers(s, a.peer);
    } else if a.Deliver? {
      hide OnPacket;
      PacketKeepsPeers(s, st.cr, w.net[a.k].from, w.net[a.k].msg, a.now, a.rnd);
    }
  }

  ghost predicate PeersGrow(nodes: Nodes, nodes': Nodes) {
    nodes.Keys <= nodes'.Keys && forall a, b :: Knows(nodes, a, b) ==> Knows(nodes', a, b)
  }

  lemma UpdateGrows(nodes: Nodes, n: NodeId, s: NodeState)
    requires n in nodes && KeepsPeers(nodes[n], s)
    ensures PeersGrow(nodes, nodes[n := s])
  {
  }

  lemma CrumbsGrow(nodes: Nodes, nodes': Nodes, p: Packet)
    requires PeersGrow(nodes, nodes') && CrumbsOk(nodes, p)
    ensures CrumbsOk(nodes', p)
  {
    hide Router.IsNeighbor, Router.Distinct;
    assert forall a, b :: Mutual(nodes, a, b) ==> Mutual(nodes', a, b);
    if p.msg.ChainRequest? {
      WalkGrows(nodes, nodes', p.msg.path);
    }
    if p.msg.ChainResponse? {
      WalkGrows(nodes, nodes', p.trail);
    }
  }

  lemma WalkGrows(nodes: Nodes, nodes': Nodes, path: seq<NodeId>)
    requires PeersGrow(nodes, nodes') && Walkable(nodes, path)
    ensures Walkable(nodes', path)
  {
    hide Router.IsNeighbor;
    forall i | 0 < i < |path|
      ensures Mutual(nodes', path[i - 1], path[i])
    {
      assert Mutual(nodes, path[i - 1], path[i]);
    }
  }

  lemma WalkExtends(nodes: Nodes, path: seq<NodeId>, n: NodeId)
    requires Walkable(nodes, path) && path != [] && n in nodes && n !in path && Mutual(nodes, Last(path), n)
    ensures Walkable(nodes, path + [n])
  {
    hide Router.IsNeighbor;
    var q := path + [n];
    forall i | 0 < i < |q|
      ensures Mutual(nodes, q[i - 1], q[i])
    {
      if i < |path| {
        assert Mutual(nodes, path[i - 1], path[i]);
      }
    }
  }

  // ---------------------------------------------------------------------------
  // what is sent
  // ---------------------------------------------------------------------------

  lemma {:induction false} ForwardsShape(nbrs: seq<Neighbor>, self: NodeId, hops: seq<NodeId>, incoming: seq<NodeId>, msg: Payload, x: Send)
    requires x in Forwards(nbrs, self, hops, incoming, msg)
    ensures x.msg == msg && x.to != self && x.to !in incoming && Router.IsNeighbor(nbrs, x.to)
  {
    if x in Forwards(nbrs, self, Front(hops), incoming, msg) {
      ForwardsShape(nbrs, self, Front(hops), incoming, msg, x);
    }
  }

  lemma FloodShape(s: NodeState, m: Payload, rnd: nat -> nat, x: Send)
    requires m.ChainRequest? && x in FloodRequest(s, m, rnd)
    ensures x.msg == ChainRequest(m.originator, m.event, m.range, m.hopLimit, m.path + [s.id])
    ensures x.to != s.id && x.to !in m.path && Router.IsNeighbor(s.nbrs, x.to)
  {
    var hops := Router.NextHops(s.cfg, s.id, s.log.live, s.nbrs, s.routes, s.timed, m.event.creator, m.range, rnd);
    ForwardsShape(s.nbrs, s.id, hops, m.path, ChainRequest(m.originator, m.event, m.range, m.hopLimit, m.path + [s.id]), x);
  }

  lemma SpliceKeepsEvent(log: Log, id: NodeId, nb: NodeId, ch: EventChain)
    ensures var r := ChainBuild.Splice(log, id, nb, ch); r.Some? ==> r.value.event == ch.event
  {
  }

  /** A first request: the breadcrumb is just its originator. */
  lemma LaunchOk(nodes: Nodes, n: NodeId, s: NodeState, e: Event, range: TimeRange, rnd: nat -> nat, x: Send)
    requires n in nodes && nodes[n].nbrs == s.nbrs && s.id == n
    requires x in Launch(s, e, range, rnd)
    ensures CrumbsOk(nodes, Packet(n, x.to, x.msg, []))
  {
    FloodShape(s, Request(s, e, range), rnd, x);
  }

  lemma ForwardOk(nodes: Nodes, s: NodeState, p: Packet, trail: seq<NodeId>, now: Timestamp, rnd: nat -> nat, x: Send)
    requires p.msg.ChainRequest? && RequestOk(nodes, p) && p.to in nodes && nodes[p.to].nbrs == s.nbrs && s.id == p.to
    requires Router.IsNeighbor(s.nbrs, p.from) && p.msg.event.creator != s.id
    requires x in OnRequest(s, p.from, p.msg, now, rnd).1
    ensures CrumbsOk(nodes, Packet(p.to, x.to, x.msg, trail))
  {
    FloodShape(s, p.msg, rnd, x);
    WalkExtends(nodes, p.msg.path, p.to);
  }

  lemma ReplyOk(nodes: Nodes, s: NodeState, p: Packet, now: Timestamp, rnd: nat -> nat, x: Send)
    requires p.msg.ChainRequest? && RequestOk(nodes, p) && p.to in nodes && nodes[p.to].nbrs == s.nbrs && s.id == p.to
    requires Router.IsNeighbor(s.nbrs, p.from) && p.msg.event.creator == s.id
    requires forall e :: e in s.log.events ==> e.creator == s.id
    requires x in OnRequest(s, p.from, p.msg, now, rnd).1
    ensures CrumbsOk(nodes, Packet(p.to, x.to, x.msg, p.msg.path))
  {
    var local := EventByHash(s.log.events, p.msg.event.hash).value;
    SpliceKeepsEvent(s.log, s.id, p.from, EventChain(local, [], []));
    hide Router.IsNeighbor, ChainBuild.Splice, EventByHash;
    var path := p.msg.path;
    assert path[..|path| - 1] == Front(path);
  }

  lemma RetraceOk(nodes: Nodes, s: NodeState, cr: Crypto, p: Packet, x: Send)
    requires p.msg.ChainResponse? && ResponseOk(nodes, p) && p.to in nodes && nodes[p.to].nbrs == s.nbrs && s.id == p.to
    requires x in OnResponse(s, cr, p.from, p.msg).1
    ensures CrumbsOk(nodes, Packet(p.to, x.to, x.msg, p.trail))
  {
    SpliceKeepsEvent(s.log, s.id, p.from, p.msg.eventChain);
    hide Router.IsNeighbor, ChainBuild.Splice;
    var k := |p.msg.path|;
    assert Front(p.msg.path) == p.trail[..k - 1];
    assert Mutual(nodes, p.trail[k - 1], p.trail[k]);
  }

  lemma DeliverOk(nodes: Nodes, s: NodeState, cr: Crypto, p: Packet, now: Timestamp, rnd: nat -> nat, x: Send)
    requires CrumbsOk(nodes, p) && p.to in nodes && nodes[p.to] == s && s.id == p.to
    requires forall e :: e in s.log.events ==> e.creator == s.id
    requires x in OnPacket(s, cr, p.from, p.msg, now, rnd).1
    ensures CrumbsOk(nodes, Packet(p.to, x.to, x.msg, if p.msg.ChainRequest? then p.msg.path else p.trail))
  {
    if p.msg.ChainRequest? {
      if p.msg.event.creator == s.id {
        ReplyOk(nodes, s, p, now, rnd, x);
      } else {
        ForwardOk(nodes, s, p, p.msg.path, now, rnd, x);
      }
    } else {
      RetraceOk(nodes, s, cr, p, x);
    }
  }

  lemma QueryOk(nodes: Nodes, st: Setup, w: World, a: Action, x: Send)
    requires Enabled(st, w, a) && (a.QueryChain? || a.QueryBounds? || a.QueryOrder?)
    requires nodes == w.nodes && w.nodes[a.n].id == a.n
    requires x in Effect(st, w, a).1
    ensures CrumbsOk(nodes, Packet(a.n, x.to, x.msg, []))
  {
    var s := w.nodes[a.n];
    if a.QueryChain? || a.QueryBounds? {
      LaunchOk(nodes, a.n, s, a.event, a.range, a.rnd, x);
    } else {
      var entry := Discovery.OrderEntry(a.now, a.event, a.event2, Undetermined, Discovery.InProgress, [a.tok]);
      var s1 := s.(disc := s.disc.(orders := s.disc.orders + [entry]));
      var s2 := DiscoverChain(s1, st.cr, a.event, a.range, Discovery.Node, a.now, a.rnd).0;
      if x in Launch(s1, a.event, a.range, a.rnd) {
        LaunchOk(nodes, a.n, s1, a.event, a.range, a.rnd, x);
      } else {
        LaunchOk(nodes, a.n, s2, a.event2, a.range, a.rnd2, x);
      }
    }
  }

  lemma OwnEvents(st: Setup, H: History, n: NodeId, s: NodeState)
    requires NodeOk(st, H, n, s)
    ensures s.id == n && forall e :: e in s.log.events ==> e.creator == n
  {
    forall e | e in s.log.events
      ensures e.creator == n
    {
      EventsOfMembers(H, n, e);
    }
  }

  lemma SendOk(st: Setup, w: World, a: Action, x: Send)
    requires Enabled(st, w, a) && IsNodeStep(a) && AllCrumbsOk(w.nodes, w.net)
    requires var s := w.nodes[Actor(w, a)]; s.id == Actor(w, a) && forall e :: e in s.log.events ==> e.creator == s.id
    requires x in Effect(st, w, a).1
    ensures CrumbsOk(w.nodes, Packet(Actor(w, a), x.to, x.msg, TrailOf(w, a)))
  {
    hide CrumbsOk, OnPacket;
    if a.Deliver? {
      assert w.net[a.k] in w.net;
      DeliverOk(w.nodes, w.nodes[Actor(w, a)], st.cr, w.net[a.k], a.now, a.rnd, x);
    } else if a.QueryChain? || a.QueryBounds? || a.QueryOrder? {
      QueryOk(w.nodes, st, w, a, x);
    } else {
      NotificationOnly(st, w, a, x);
      NotificationOk(w.nodes, Packet(Actor(w, a), x.to, x.msg, TrailOf(w, a)));
    }
  }

  lemma NotificationOk(nodes: Nodes, p: Packet)
    requires p.msg.ClockNotification?
    ensures CrumbsOk(nodes, p)
  {
  }

  lemma EffectOk(st: Setup, w: World, a: Action)
    requires Inv(st, w) && AllCrumbsOk(w.nodes, w.net) && Enabled(st, w, a) && IsNodeStep(a)
    ensures AllCrumbsOk(w.nodes, Posted(Actor(w, a), Effect(st, w, a).1, TrailOf(w, a)))
  {
    hide NodeOk, PacketOk, Ok, CrumbsOk, Effect;
    var n, out, trail := Actor(w, a), Effect(st, w, a).1, TrailOf(w, a);
    OwnEvents(st, w.H, n, w.nodes[n]);
    forall p | p in Posted(n, out, trail)
      ensures CrumbsOk(w.nodes, p)
    {
      var i :| 0 <= i < |out| && p == Posted(n, out, trail)[i];
      SendOk(st, w, a, out[i]);
    }
  }

  lemma NotificationOnly(st: Setup, w: World, a: Action, x: Send)
    requires Enabled(st, w, a) && IsNodeStep(a) && !a.Deliver? && !a.QueryChain? && !a.QueryBounds? && !a.QueryOrder?
    requires x in Effect(st, w, a).1
    ensures x.msg.ClockNotification?
  {
  }

  lemma GrowAll(nodes: Nodes, nodes': Nodes, net: seq<Packet>)
    requires PeersGrow(nodes, nodes') && AllCrumbsOk(nodes, net)
    ensures AllCrumbsOk(nodes', net)
  {
    forall p | p in net
      ensures CrumbsOk(nodes', p)
    {
      CrumbsGrow(nodes, nodes', p);
    }
  }

  lemma StepKeepsCrumbs(st: Setup, w: World, a: Action)
    requires Inv(st, w) && AllCrumbsOk(w.nodes, w.net) && Enabled(st, w, a)
    ensures var w' := Step(st, w, a); AllCrumbsOk(w'.nodes, w'.net)
  {
    hide NodeOk, PacketOk, Ok, CrumbsOk, Effect, Recorded, Inv, PeersGrow, KeepsPeers;
    if IsNodeStep(a) {
      var n, s := Actor(w, a), Effect(st, w, a).0;
      EffectKeepsPeers(st, w, a);
      UpdateGrows(w.nodes, n, s);
      EffectOk(st, w, a);
      GrowAll(w.nodes, w.nodes[n := s], Remaining(w, a));
      GrowAll(w.nodes, w.nodes[n := s], Posted(n, Effect(st, w, a).1, TrailOf(w, a)));
    } else {
      assert w.net[a.k] in w.net;
    }
  }

  lemma {:induction false} RunKeepsCrumbs(st: Setup, run: seq<Action>, w: World)
    requires HonestSigner(st.cr) && Runs(st, run, w)
    ensures AllCrumbsOk(w.nodes, w.net)
  {
    if run != [] {
      var v :| Runs(st, Front(run), v) && Enabled(st, v, Last(run)) && w == Step(st, v, Last(run));
      hide Step, Inv, AllCrumbsOk;
      RunKeepsCrumbs(st, Front(run), v);
      Preservation.RunInv(st, Front(run), v);
      StepKeepsCrumbs(st, v, Last(run));
    }
  }

  // ---------------------------------------------------------------------------
  // the results
  // ---------------------------------------------------------------------------

  /** Every request in flight carries a duplicate-free path over mutual neighbours that starts
      at the originator, ends at the sender, excludes the receiver and stays within the hop
      limit. */
  lemma RequestsCarryBreadcrumbs(st: Setup, w: World, p: Packet)
    requires HonestSigner(st.cr) && Reachable(st, w) && p in w.net && p.msg.ChainRequest?
    ensures RequestOk(w.nodes, p)
  {
    var run: seq<Action> :| Runs(st, run, w);
    hide Runs, RequestOk;
    RunKeepsCrumbs(st, run, w);
    assert CrumbsOk(w.nodes, p);
  }

  /** Every response in flight is retracing the forward path of its request, between mutual
      neighbours, and is about to reach the originator exactly when its path is empty. */
  lemma ResponsesRetrace(st: Setup, w: World, p: Packet)
    requires HonestSigner(st.cr) && Reachable(st, w) && p in w.net && p.msg.ChainResponse?
    ensures ResponseOk(w.nodes, p)
    ensures p.to == p.msg.originator <==> p.msg.path == []
  {
    var run: seq<Action> :| Runs(st, run, w);
    hide Runs;
    RunKeepsCrumbs(st, run, w);
    assert CrumbsOk(w.nodes, p);
    hide Walkable, Mutual;
    HomeIsFirst(w.nodes, p);
  }

  lemma HomeIsFirst(nodes: Nodes, p: Packet)
    requires p.msg.ChainResponse? && ResponseOk(nodes, p)
    ensures p.to == p.msg.originator <==> p.msg.path == []
  {
  }

  /** Each hop hands on a response whose remaining path is shorter by one and whose trail is
      unchanged; the creator's reply starts with the whole breadcrumb minus its last hop. */
  lemma EachHopShortens(st: Setup, w: World, k: nat, now: Timestamp, rnd: nat -> nat, q: Packet)
    requires Enabled(st, w, Deliver(k, now, rnd))
    requires q in Posted(w.net[k].to, Effect(st, w, Deliver(k, now, rnd)).1, TrailOf(w, Deliver(k, now, rnd)))
    requires q.msg.ChainResponse?
    ensures var p := w.net[k];
      && (p.msg.ChainRequest? ==> q.trail == p.msg.path && |q.msg.path| + 1 == |p.msg.path|)
      && (p.msg.ChainResponse? ==> q.trail == p.trail && |q.msg.path| + 1 == |p.msg.path|)
      && !p.msg.ClockNotification?
      && q.msg.originator == p.msg.originator
  {
    var p := w.net[k];
    var s := w.nodes[p.to];
    var out := OnPacket(s, st.cr, p.from, p.msg, now, rnd).1;
    var i :| 0 <= i < |out| && q == Posted(p.to, out, TrailOf(w, Deliver(k, now, rnd)))[i];
    assert out[i] in out;
    hide ChainBuild.Splice, FloodRequest;
    if p.msg.ChainRequest? {
      Preservation.FloodIsRequests(s, p.msg, rnd);
    }
  }
}
