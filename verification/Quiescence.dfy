/** Delivering the datagrams in flight one by one, in any order and with any of them lost,
    always comes to an end: an explicit measure over the network bounds every such run. */
module Quiescence {
  import opened Domain
  import opened Hashing
  import opened History
  import opened NodeModel
  import opened Network
  import opened Invariant
  import opened Paths
  import Arith
  import Preservation
  import Router

  /** What a request with `room` unvisited nodes left can still cause, `n` nodes of degree
      at most `d`: itself, then either `d` copies with less room or one response. */
  function RequestLoad(n: nat, d: nat, room: nat): (r: nat)
    ensures r > 0
    decreases room
  {
    if room == 0 then 1 else 1 + n + d * RequestLoad(n, d, room - 1)
  }

  function PacketLoad(n: nat, d: nat, m: Payload): (r: nat)
    ensures r > 0
  {
    match m
    case ClockNotification(_, _, _) => 1
    case ChainResponse(_, _, path) => |path| + 1
    case ChainRequest(_, _, _, _, path) => RequestLoad(n, d, if |path| < n then n - |path| else 0)
  }

  function NetLoad(n: nat, d: nat, net: seq<Packet>): (r: nat) {
    if net == [] then 0 else NetLoad(n, d, Front(net)) + PacketLoad(n, d, Last(net).msg)
  }

  ghost predicate DegreeAtMost(nodes: Nodes, d: nat) {
    forall a :: a in nodes ==> |nodes[a].nbrs| <= d
  }

  // ---------------------------------------------------------------------------
  // sums
  // ---------------------------------------------------------------------------

  lemma {:induction false} LoadConcat(n: nat, d: nat, a: seq<Packet>, b: seq<Packet>)
    ensures NetLoad(n, d, a + b) == NetLoad(n, d, a) + NetLoad(n, d, b)
  {
    if b == [] {
      assert a + b == a;
    } else {
      assert Front(a + b) == a + Front(b);
      LoadConcat(n, d, a, Front(b));
    }
  }

  lemma LoadWithout(n: nat, d: nat, net: seq<Packet>, k: nat)
    requires k < |net|
    ensures NetLoad(n, d, net) == NetLoad(n, d, Without(net, k)) + PacketLoad(n, d, net[k].msg)
  {
    assert net == net[..k] + ([net[k]] + net[k + 1..]);
    LoadConcat(n, d, net[..k], [net[k]] + net[k + 1..]);
    LoadConcat(n, d, [net[k]], net[k + 1..]);
    LoadConcat(n, d, net[..k], net[k + 1..]);
    assert NetLoad(n, d, [net[k]]) == PacketLoad(n, d, net[k].msg) by {
      assert Front([net[k]]) == [];
    }
  }

  /** Copies of one message weigh that many times the message. */
  lemma {:induction false} LoadOfCopies(n: nat, d: nat, net: seq<Packet>, m: Payload)
    requires forall i :: 0 <= i < |net| ==> net[i].msg == m
    ensures NetLoad(n, d, net) == |net| * PacketLoad(n, d, m)
  {
    if net != [] {
      LoadOfCopies(n, d, Front(net), m);
    }
  }

  // ---------------------------------------------------------------------------
  // how many copies
  // ---------------------------------------------------------------------------

  ghost function Ids(nbrs: seq<Neighbor>): set<NodeId> {
    set i | 0 <= i < |nbrs| :: nbrs[i].id
  }

  lemma {:induction false} IdsAtMost(nbrs: seq<Neighbor>)
    ensures |Ids(nbrs)| <= |nbrs|
  {
    if nbrs != [] {
      IdsAtMost(Front(nbrs));
      assert Ids(nbrs) == Ids(Front(nbrs)) + {Last(nbrs).id} by {
        forall x | x in Ids(nbrs)
          ensures x in Ids(Front(nbrs)) + {Last(nbrs).id}
        {
          var i :| 0 <= i < |nbrs| && nbrs[i].id == x;
          assert i < |nbrs| - 1 ==> Front(nbrs)[i].id == x;
        }
        forall x | x in Ids(Front(nbrs))
          ensures x in Ids(nbrs)
        {
          var i :| 0 <= i < |Front(nbrs)| && Front(nbrs)[i].id == x;
          assert nbrs[i].id == x;
        }
      }
    }
  }

  lemma {:induction false} DistinctFits(s: seq<NodeId>, u: set<NodeId>)
    requires Router.Distinct(s) && forall x :: x in s ==> x in u
    ensures |s| <= |u|
  {
    if s != [] {
      DistinctFits(Front(s), u - {Last(s)});
    }
  }

  lemma {:induction false} ForwardsAtMost(nbrs: seq<Neighbor>, self: NodeId, hops: seq<NodeId>, incoming: seq<NodeId>, msg: Payload)
    ensures |Forwards(nbrs, self, hops, incoming, msg)| <= |hops|
    ensures forall x :: x in Forwards(nbrs, self, hops, incoming, msg) ==> x.msg == msg
  {
    if hops != [] {
      ForwardsAtMost(nbrs, self, Front(hops), incoming, msg);
    }
  }

  /** A flood sends at most one copy to each neighbour, and at most the fan-out in all. */
  lemma FloodAtMost(s: NodeState, m: Payload, rnd: nat -> nat)
    requires m.ChainRequest?
    ensures |FloodRequest(s, m, rnd)| <= |s.nbrs|
    ensures s.cfg.routing.Flood? && s.cfg.fanout > 0 ==> |FloodRequest(s, m, rnd)| <= s.cfg.fanout
    ensures forall x :: x in FloodRequest(s, m, rnd) ==> x.msg == ChainRequest(m.originator, m.event, m.range, m.hopLimit, m.path + [s.id])
  {
    var hops := Router.NextHops(s.cfg, s.id, s.log.live, s.nbrs, s.routes, s.timed, m.event.creator, m.range, rnd);
    Router.NextHopsBounded(s.cfg, s.id, s.log.live, s.nbrs, s.routes, s.timed, m.event.creator, m.range, rnd);
    forall x | x in hops
      ensures x in Ids(s.nbrs)
    {
      assert Router.IsNeighbor(s.nbrs, x);
    }
    DistinctFits(hops, Ids(s.nbrs));
    IdsAtMost(s.nbrs);
    ForwardsAtMost(s.nbrs, s.id, hops, m.path, ChainRequest(m.originator, m.event, m.range, m.hopLimit, m.path + [s.id]));
  }

  // ---------------------------------------------------------------------------
  // one delivery
  // ---------------------------------------------------------------------------

  lemma RoomLeft(nodes: Nodes, p: Packet)
    requires p.msg.ChainRequest? && RequestOk(nodes, p) && p.to in nodes
    ensures |p.msg.path| < |nodes|
  {
    var path := p.msg.path;
    assert Router.Distinct(path + [p.to]);
    DistinctFits(path + [p.to], nodes.Keys);
  }

  lemma FloodLoad(n: nat, d: nat, s: NodeState, m: Payload, rnd: nat -> nat, trail: seq<NodeId>)
    requires m.ChainRequest? && |m.path| < n && |s.nbrs| <= d
    ensures NetLoad(n, d, Posted(s.id, FloodRequest(s, m, rnd), trail)) < PacketLoad(n, d, m)
  {
    hide FloodRequest, Posted;
    var out := FloodRequest(s, m, rnd);
    FloodAtMost(s, m, rnd);
    var copy := ChainRequest(m.originator, m.event, m.range, m.hopLimit, m.path + [s.id]);
    var posted := Posted(s.id, out, trail);
    forall i | 0 <= i < |posted|
      ensures posted[i].msg == copy
    {
      assert out[i] in out;
    }
    LoadOfCopies(n, d, posted, copy);
    Arith.Mono(|posted|, d, RequestLoad(n, d, n - |m.path| - 1));
    assert PacketLoad(n, d, copy) == RequestLoad(n, d, n - |m.path| - 1);
  }

  lemma RetraceLoad(n: nat, d: nat, s: NodeState, o: NodeId, ch: EventChain, path: seq<NodeId>, trail: seq<NodeId>)
    ensures NetLoad(n, d, Posted(s.id, Retrace(s, o, ch, path), trail)) <= |path|
  {
    var out := Retrace(s, o, ch, path);
    if out != [] {
      var net := Posted(s.id, out, trail);
      assert Front(net) == [] && NetLoad(n, d, Front(net)) == 0;
    }
  }

  /** Whatever a delivery sends weighs less than the datagram delivered. */
  lemma DeliveryLoad(st: Setup, w: World, d: nat, k: nat, now: Timestamp, rnd: nat -> nat)
    requires AllCrumbsOk(w.nodes, w.net) && DegreeAtMost(w.nodes, d) && Enabled(st, w, Deliver(k, now, rnd))
    requires w.nodes[w.net[k].to].id == w.net[k].to
    ensures var p := w.net[k];
      NetLoad(|w.nodes|, d, Posted(p.to, OnPacket(w.nodes[p.to], st.cr, p.from, p.msg, now, rnd).1, TrailOf(w, Deliver(k, now, rnd))))
        < PacketLoad(|w.nodes|, d, p.msg)
  {
    var p := w.net[k];
    var n, s, trail := |w.nodes|, w.nodes[p.to], TrailOf(w, Deliver(k, now, rnd));
    assert CrumbsOk(w.nodes, p);
    if p.msg.ChainRequest? {
      RoomLeft(w.nodes, p);
      RequestDelivery(n, d, s, p, now, rnd, trail);
    } else if p.msg.ChainResponse? {
      ResponseDelivery(n, d, s, st.cr, p, trail);
    }
  }

  lemma RequestDelivery(n: nat, d: nat, s: NodeState, p: Packet, now: Timestamp, rnd: nat -> nat, trail: seq<NodeId>)
    requires p.msg.ChainRequest? && |p.msg.path| < n && |s.nbrs| <= d
    ensures NetLoad(n, d, Posted(s.id, OnRequest(s, p.from, p.msg, now, rnd).1, trail)) < PacketLoad(n, d, p.msg)
  {
    hide FloodRequest, Posted, Retrace;
    FloodLoad(n, d, s, p.msg, rnd, trail);
    forall ch {
      RetraceLoad(n, d, s, p.msg.originator, ch, p.msg.path, trail);
    }
    assert PacketLoad(n, d, p.msg) > |p.msg.path|;
  }

  lemma ResponseDelivery(n: nat, d: nat, s: NodeState, cr: Crypto, p: Packet, trail: seq<NodeId>)
    requires p.msg.ChainResponse?
    ensures NetLoad(n, d, Posted(s.id, OnResponse(s, cr, p.from, p.msg).1, trail)) < PacketLoad(n, d, p.msg)
  {
    hide Posted, Retrace;
    forall ch {
      RetraceLoad(n, d, s, p.msg.originator, ch, p.msg.path, trail);
    }
  }

  lemma DegreeKept(s: NodeState, cr: Crypto, from: NodeId, m: Payload, now: Timestamp, rnd: nat -> nat)
    ensures |OnPacket(s, cr, from, m, now, rnd).0.nbrs| == |s.nbrs|
  {
  }

  // ---------------------------------------------------------------------------
  // whole runs
  // ---------------------------------------------------------------------------

  ghost predicate Draining(a: Action) {
    a.Deliver? || a.Lose?
  }

  /** `run`, made only of deliveries and losses, leads from `w` to `v`. */
  ghost predicate Drains(st: Setup, w: World, run: seq<Action>, v: World) {
    if run == [] then v == w
    else Draining(Last(run)) && exists u :: Drains(st, w, Front(run), u) && Enabled(st, u, Last(run)) && v == Step(st, u, Last(run))
  }

  ghost predicate Settled(st: Setup, w: World, n: nat, d: nat) {
    HonestSigner(st.cr) && Inv(st, w) && AllCrumbsOk(w.nodes, w.net) && DegreeAtMost(w.nodes, d) && |w.nodes| == n
  }

  lemma DrainStep(st: Setup, w: World, a: Action, d: nat)
    requires Settled(st, w, |w.nodes|, d) && Draining(a) && Enabled(st, w, a)
    ensures var v := Step(st, w, a); Settled(st, v, |w.nodes|, d) && NetLoad(|w.nodes|, d, v.net) < NetLoad(|w.nodes|, d, w.net)
  {
    hide Inv, AllCrumbsOk, NetLoad, PacketLoad, Posted, OnPacket, HonestSigner, Recorded, TrailOf;
    var n := |w.nodes|;
    Preservation.StepInv(st, w, a);
    StepKeepsCrumbs(st, w, a);
    LoadWithout(n, d, w.net, a.k);
    if a.Deliver? {
      var p := w.net[a.k];
      OwnId(st, w, p.to);
      DeliveryLoad(st, w, d, a.k, a.now, a.rnd);
      DegreeKept(w.nodes[p.to], st.cr, p.from, p.msg, a.now, a.rnd);
      LoadConcat(n, d, Without(w.net, a.k), Posted(p.to, Effect(st, w, a).1, TrailOf(w, a)));
      assert Step(st, w, a).nodes.Keys == w.nodes.Keys;
      assert |Step(st, w, a).nodes.Keys| == |Step(st, w, a).nodes|;
    }
  }

  lemma {:induction false} DrainBound(st: Setup, w: World, run: seq<Action>, v: World, d: nat)
    requires Settled(st, w, |w.nodes|, d) && Drains(st, w, run, v)
    ensures Settled(st, v, |w.nodes|, d) && |run| + NetLoad(|w.nodes|, d, v.net) <= NetLoad(|w.nodes|, d, w.net)
  {
    hide Settled, Step, NetLoad, Enabled;
    if run != [] {
      var u :| Drains(st, w, Front(run), u) && Enabled(st, u, Last(run)) && v == Step(st, u, Last(run));
      DrainBound(st, w, Front(run), u, d);
      assert |u.nodes| == |w.nodes| by {
        SettledSize(st, u, |w.nodes|, d);
      }
      DrainStep(st, u, Last(run), d);
    }
  }

  lemma SettledSize(st: Setup, w: World, n: nat, d: nat)
    requires Settled(st, w, n, d)
    ensures |w.nodes| == n
  {
  }

  /** From any reachable world, no run of deliveries and losses is longer than the load of what
      is in flight: the network quiesces, whatever the order. */
  lemma DeliveryQuiesces(st: Setup, w: World, run: seq<Action>, v: World, d: nat)
    requires HonestSigner(st.cr) && Reachable(st, w) && DegreeAtMost(w.nodes, d)
    requires Drains(st, w, run, v)
    ensures |run| + NetLoad(|w.nodes|, d, v.net) <= NetLoad(|w.nodes|, d, w.net)
  {
    hide Inv, AllCrumbsOk, Drains, Runs, NetLoad;
    var r: seq<Action> :| Runs(st, r, w);
    Preservation.RunInv(st, r, w);
    RunKeepsCrumbs(st, r, w);
    DrainBound(st, w, run, v, d);
  }
}
