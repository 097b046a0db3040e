/** A tip notification: exactly one slot of one neighbour changes, and exactly one clock event
    gains the edge, at most once; over every run no clock event carries an edge twice. */
module Gossip {
  import opened Domain
  import opened Hashing
  import opened History
  import opened Log
  import opened NodeModel
  import opened Network
  import Discovery
  import Invariant
  import Overlay
  import Preservation
  import Router

  // ---------------------------------------------------------------------------
  // the advertised tip
  // ---------------------------------------------------------------------------

  /** The tip known of neighbour `m`'s chain `c`; empty if none is. */
  function TipOf(nbrs: seq<Neighbor>, m: NodeId, c: nat): Hash {
    var i := NeighborAt(nbrs, m);
    if i >= 0 then NeighborTip(nbrs[i], c) else []
  }

  ghost predicate SameIds(a: seq<Neighbor>, b: seq<Neighbor>) {
    |a| == |b| && forall i :: 0 <= i < |a| ==> a[i].id == b[i].id
  }

  lemma {:induction false} SamePlaces(a: seq<Neighbor>, b: seq<Neighbor>, m: NodeId)
    requires SameIds(a, b)
    ensures NeighborAt(a, m) == NeighborAt(b, m)
  {
    if a != [] {
      SamePlaces(Front(a), Front(b), m);
    }
  }

  /** After a notification the sender's slot holds the advertised hash; every other slot, of this
      neighbour and of all others, holds what it did. */
  lemma TipIsLearned(nbrs: seq<Neighbor>, from: NodeId, chain: nat, hash: Hash, m: NodeId, c: nat)
    requires Router.IsNeighbor(nbrs, from)
    ensures var r := LearnTip(nbrs, from, chain, hash);
      SameIds(nbrs, r) && TipOf(r, m, c) == if m == from && c == chain then hash else TipOf(nbrs, m, c)
  {
    SamePlaces(nbrs, LearnTip(nbrs, from, chain, hash), m);
  }

  // ---------------------------------------------------------------------------
  // the reverse edge
  // ---------------------------------------------------------------------------

  /** The edge list afterwards: the same, or with the edge at its end. */
  function With(edges: seq<EventReference>, edge: EventReference): seq<EventReference> {
    if edge in edges then edges else edges + [edge]
  }

  lemma NamedIs(log: Log, theirs: Hash, j: nat)
    requires WellFormed(log) && j < |log.live| && log.live[j].ce.base.hash == theirs
    ensures ByHash(log.live, theirs) == Some(log.live[j])
  {
    var f := ByHash(log.live, theirs);
    assert log.live[j] in log.live;
    assert f.Some? && f.value in log.live && f.value.ce.base.hash == theirs;
    var k :| 0 <= k < |log.live| && log.live[k] == f.value;
    assert f.value.at == log.live[j].at;
  }

  /** The clock event with the named hash, if it is live, carries the edge afterwards; nothing
      else of it changes, and no other clock event changes at all. */
  lemma EdgeIsLearned(log: Log, edge: EventReference, theirs: Hash, j: nat)
    requires WellFormed(log) && j < |log.live|
    ensures var r := LearnEdge(log.live, edge, theirs); var e := log.live[j];
      && |r| == |log.live|
      && r[j] == if e.ce.base.hash == theirs then Entry(e.at, LocalClockEvent(e.ce.base, With(e.ce.referencing, edge))) else e
  {
    hide WellFormed;
    var e := log.live[j];
    if e.ce.base.hash == theirs {
      NamedIs(log, theirs, j);
    } else {
      var f := ByHash(log.live, theirs);
      assert f.Some? ==> f.value.ce.base.hash == theirs;
    }
  }

  // ---------------------------------------------------------------------------
  // whole runs
  // ---------------------------------------------------------------------------

  /** No clock event of the log lists an edge twice. */
  ghost predicate EdgesOnce(live: seq<Entry>) {
    forall e :: e in live ==> Router.Distinct(e.ce.referencing)
  }

  lemma EdgeStaysOnce(live: seq<Entry>, edge: EventReference, theirs: Hash)
    requires EdgesOnce(live)
    ensures EdgesOnce(LearnEdge(live, edge, theirs))
  {
    var r, f := LearnEdge(live, edge, theirs), ByHash(live, theirs);
    if f.Some? {
      assert f.value in live;
      var more := f.value.ce.referencing + [edge];
      if edge !in f.value.ce.referencing {
        assert Router.Distinct(more);
      }
      forall e | e in r
        ensures Router.Distinct(e.ce.referencing)
      {
        var i :| 0 <= i < |r| && r[i] == e;
        assert live[i] in live;
      }
    }
  }

  lemma PruneStaysOnce(log: Log, chain: nat, keep: nat)
    requires EdgesOnce(log.live)
    ensures EdgesOnce(Prune(log, chain, keep).live)
  {
    KeepNewestThins(log.live, chain, keep);
  }

  lemma {:induction false} PruneAllStaysOnce(log: Log, cfg: NodeConfig, k: nat)
    requires EdgesOnce(log.live)
    ensures EdgesOnce(PruneAll(log, cfg, k).live)
  {
    if k > 0 {
      PruneAllStaysOnce(log, cfg, k - 1);
      PruneStaysOnce(PruneAll(log, cfg, k - 1), k - 1, cfg.Keep(k - 1));
    }
  }

  lemma EffectStaysOnce(st: Setup, w: World, a: Action)
    requires Enabled(st, w, a) && IsNodeStep(a) && EdgesOnce(w.nodes[Actor(w, a)].log.live)
    ensures EdgesOnce(Effect(st, w, a).0.log.live)
  {
    hide EdgesOnce, LearnEdge, Prune, PruneAll, NewClock, NewEvent, OnRequest, OnResponse, LearnTip;
    var s := w.nodes[Actor(w, a)];
    match a
    case Deliver(k, now, rnd) => PacketStaysOnce(s, st.cr, w.net[k].from, w.net[k].msg, now, rnd);
    case DoTick(_, chain, salt, now) =>
      var c := NewClock(s, st.cr, chain, salt, now);
      AppendStaysOnce(s.log, c);
      PruneStaysOnce(AppendClock(s.log, LocalClockEvent(c, [])), chain, s.cfg.Keep(chain));
    case DoGc(_) => PruneAllStaysOnce(s.log, s.cfg, |s.cfg.keeps|);
    case _ =>
  }

  lemma AppendStaysOnce(log: Log, c: ClockEvent)
    requires EdgesOnce(log.live)
    ensures EdgesOnce(AppendClock(log, LocalClockEvent(c, [])).live)
  {
  }

  lemma PacketStaysOnce(s: NodeState, cr: Crypto, from: NodeId, m: Payload, now: Timestamp, rnd: nat -> nat)
    requires EdgesOnce(s.log.live)
    ensures EdgesOnce(OnPacket(s, cr, from, m, now, rnd).0.log.live)
  {
    hide EdgesOnce, LearnEdge, LearnTip;
    if m.ClockNotification? {
      EdgeStaysOnce(s.log.live, EventReference(from, m.hash), m.theirs);
    }
  }

  lemma {:induction false} RunStaysOnce(st: Setup, run: seq<Action>, w: World, n: NodeId)
    requires Runs(st, run, w) && n in w.nodes
    ensures EdgesOnce(w.nodes[n].log.live)
  {
    hide EdgesOnce, Effect;
    if run == [] {
      NothingTwice();
    } else {
      var v :| Runs(st, Front(run), v) && Enabled(st, v, Last(run)) && w == Step(st, v, Last(run));
      if n in v.nodes {
        RunStaysOnce(st, Front(run), v, n);
      }
      if IsNodeStep(Last(run)) && n == Actor(v, Last(run)) {
        EffectStaysOnce(st, v, Last(run));
      }
    }
  }

  lemma NothingTwice()
    ensures EdgesOnce([])
  {
  }

  lemma CountOnce(edges: seq<EventReference>, edge: EventReference)
    requires Router.Distinct(edges)
    ensures multiset(edges)[edge] == if edge in edges then 1 else 0
  {
    if edge in edges {
      var i :| 0 <= i < |edges| && edges[i] == edge;
      assert edges == edges[..i] + [edge] + edges[i + 1..];
      assert edge !in edges[..i] && edge !in edges[i + 1..];
      assert multiset(edges) == multiset(edges[..i]) + multiset([edge]) + multiset(edges[i + 1..]);
    }
  }

  /** In every world of an honest network, a notification from a neighbour fills its slot and
      puts its edge, exactly once, on the clock event it names; nothing else of the node
      changes. */
  lemma NotificationIsRecorded(st: Setup, w: World, n: NodeId, from: NodeId, chain: nat, hash: Hash, theirs: Hash, j: nat, m: NodeId, c: nat)
    requires HonestSigner(st.cr) && Reachable(st, w) && n in w.nodes && Router.IsNeighbor(w.nodes[n].nbrs, from)
    requires j < |w.nodes[n].log.live|
    ensures var s := w.nodes[n]; var r := OnNotification(s, from, chain, hash, theirs);
      var e, edge := s.log.live[j], EventReference(from, hash);
      && r == s.(nbrs := r.nbrs, log := s.log.(live := r.log.live))
      && SameIds(s.nbrs, r.nbrs) && TipOf(r.nbrs, m, c) == (if m == from && c == chain then hash else TipOf(s.nbrs, m, c))
      && |r.log.live| == |s.log.live|
      && (e.ce.base.hash != theirs ==> r.log.live[j] == e)
      && (e.ce.base.hash == theirs ==>
            && r.log.live[j] == Entry(e.at, LocalClockEvent(e.ce.base, With(e.ce.referencing, edge)))
            && multiset(r.log.live[j].ce.referencing)[edge] == 1)
  {
    hide Runs, LearnTip, LearnEdge, WellFormed, Router.Distinct, TipOf;
    var s, edge := w.nodes[n], EventReference(from, hash);
    var run: seq<Action> :| Runs(st, run, w);
    Preservation.ReachableInv(st, w);
    LogIsWell(st, w, n);
    TipIsLearned(s.nbrs, from, chain, hash, m, c);
    EdgeIsLearned(s.log, edge, theirs, j);
    RunStaysOnce(st, run, w, n);
    EdgeStaysOnce(s.log.live, edge, theirs);
    var r := LearnEdge(s.log.live, edge, theirs);
    assert r[j] in r;
    CountOnce(r[j].ce.referencing, edge);
  }

  lemma LogIsWell(st: Setup, w: World, n: NodeId)
    requires Invariant.Inv(st, w) && n in w.nodes
    ensures WellFormed(w.nodes[n].log)
  {
    hide Invariant.TailsOk, WellFormed;
    assert Invariant.NodeOk(st, w.H, n, w.nodes[n]);
  }

  // ---------------------------------------------------------------------------
  // peers
  // ---------------------------------------------------------------------------

  lemma {:induction false} PlacedKeepsTips(nbrs: seq<Neighbor>, m: NodeId, x: NodeId, c: nat)
    requires !Router.IsNeighbor(nbrs, m)
    ensures var r := Overlay.Placed(nbrs, Neighbor(m, []));
      TipOf(r, x, c) == TipOf(nbrs, x, c) && (Router.IsNeighbor(r, x) <==> x == m || Router.IsNeighbor(nbrs, x))
  {
    var nb := Neighbor(m, []);
    if nbrs == [] || Overlay.Below(Last(nbrs).id.bytes, nb.id.bytes) {
      var r := nbrs + [nb];
      assert Front(r) == nbrs && Last(r) == nb;
      assert NeighborAt(r, x) == if x == m then |nbrs| else NeighborAt(nbrs, x);
    } else {
      var front, r := Overlay.Placed(Front(nbrs), nb), Overlay.Placed(nbrs, nb);
      assert forall i :: 0 <= i < |Front(nbrs)| ==> Front(nbrs)[i] == nbrs[i];
      PlacedKeepsTips(Front(nbrs), m, x, c);
      assert Front(r) == front && Last(r) == Last(nbrs);
      assert NeighborAt(r, x) == if Last(nbrs).id == x then |nbrs| else NeighborAt(front, x);
      assert NeighborAt(nbrs, x) == if Last(nbrs).id == x then |nbrs| - 1 else NeighborAt(Front(nbrs), x);
      assert Last(nbrs).id != m;
    }
  }

  /** Adding a peer makes it a neighbour whose tips are unknown; every other peer stays, with
      the tips it had. */
  lemma PeerIsAdded(s: NodeState, m: NodeId, x: NodeId, c: nat)
    ensures var r := AddNeighbor(s, m);
      && r == s.(nbrs := r.nbrs)
      && (Router.IsNeighbor(r.nbrs, x) <==> x == m || Router.IsNeighbor(s.nbrs, x))
      && TipOf(r.nbrs, x, c) == TipOf(s.nbrs, x, c)
  {
    if !Router.IsNeighbor(s.nbrs, m) {
      PlacedKeepsTips(s.nbrs, m, x, c);
    }
  }

  /** Whatever it says, a datagram from a node that is no neighbour has no effect. */
  lemma StrangersAreIgnored(s: NodeState, cr: Crypto, from: NodeId, m: Payload, now: Timestamp, rnd: nat -> nat)
    requires forall i :: 0 <= i < |s.nbrs| ==> s.nbrs[i].id != from
    ensures OnPacket(s, cr, from, m, now, rnd) == (s, [])
  {
  }
}
