/** What every step of an honest network keeps: each node's store is exactly what the creation
    history says it should be, and everything in flight is true. */
module Invariant {
  import opened Domain
  import opened Hashing
  import opened History
  import opened Log
  import opened NodeModel
  import opened Network
  import opened DiscoveryLaws
  import ChainBuild
  import Discovery
  import Router
  import Validate

  // ---------------------------------------------------------------------------
  // the invariant
  // ---------------------------------------------------------------------------

  /** A ring of capacity `keep` retains exactly the newest `keep`; 0 is unbounded. */
  function Retained(cs: seq<ClockEvent>, keep: nat): seq<ClockEvent> {
    if keep == 0 then cs else LastN(cs, keep)
  }

  /** The learned reverse edge `r` is truthful: its creator made that clock event, and it does
      reference node `n`'s clock event with hash `h`. */
  ghost predicate TruthfulEdge(H: History, n: NodeId, h: Hash, r: EventReference) {
    exists i :: 0 <= i < |H| && H[i].Ck? && ClockRef(H[i].c) == r && EventReference(n, h) in H[i].c.refs
  }

  ghost predicate EdgesTruthful(H: History, n: NodeId, live: seq<Entry>) {
    forall e, r :: e in live && r in e.ce.referencing ==> TruthfulEdge(H, n, e.ce.base.hash, r)
  }

  ghost predicate TipsKnown(H: History, nb: Neighbor) {
    forall c :: 0 <= c < |nb.tips| && nb.tips[c] != [] ==> IsClockOn(H, EventReference(nb.id, nb.tips[c]), c)
  }

  /** Sequence numbers follow creation order, across all chains. */
  ghost predicate InOrder(H: History, live: seq<Entry>) {
    forall e, f :: e in live && f in live && e.at < f.at ==> IndexOf(H, e.ce.base.hash) < IndexOf(H, f.ce.base.hash)
  }

  /** Chain `c` of the store is the suffix of its full history that the ring retains. */
  ghost predicate ChainKept(st: Setup, H: History, n: NodeId, live: seq<Entry>, c: nat)
    requires n in st.cfg
  {
    OnChain(live, c) == Retained(ClocksOn(H, n, c), st.cfg[n].Keep(c))
  }

  /** The store holds exactly the node's own events, the retained suffix of each of its chains,
      and truthful reverse edges. */
  ghost predicate StoreOk(st: Setup, H: History, n: NodeId, log: Log)
    requires n in st.cfg
  {
    && WellFormed(log)
    && log.events == EventsOf(H, n)
    && ChainBuild.LiveReal(H, n, log.live)
    && (forall c: nat :: ChainKept(st, H, n, log.live, c))
    && EdgesTruthful(H, n, log.live)
    && InOrder(H, log.live)
  }

  /** A chain's tail holds the node's newest events, at least those published since the chain
      last ticked, and none that a live clock event of the chain already references. */
  ghost predicate TailOk(H: History, n: NodeId, live: seq<Entry>, c: nat, tail: seq<Event>) {
    var events := EventsOf(H, n);
    && |TailOf(H, n, c)| <= |tail| <= |events|
    && tail == events[|events| - |tail|..]
    && (forall e :: e in tail ==> !ReferencedBy(live, e.hash, c))
  }

  ghost predicate TailsOk(st: Setup, H: History, n: NodeId, live: seq<Entry>, tails: seq<seq<Event>>)
    requires n in st.cfg
  {
    |tails| == st.cfg[n].NumChains() && forall c :: 0 <= c < |tails| ==> TailOk(H, n, live, c, tails[c])
  }

  ghost predicate NodeOk(st: Setup, H: History, n: NodeId, s: NodeState) {
    && s.id == n && n in st.cfg && s.cfg == st.cfg[n]
    && StoreOk(st, H, n, s.log)
    && TailsOk(st, H, n, s.log.live, s.tails)
    && (forall nb :: nb in s.nbrs ==> TipsKnown(H, nb))
    && DiscOk(Trust(st.cr, n, Some(H)), s.disc)
  }

  ghost predicate NoteTrue(H: History, from: NodeId, to: NodeId, chain: nat, h: Hash, theirs: Hash) {
    exists i :: 0 <= i < |H| && H[i].Ck? && H[i].c.chain == chain && ClockRef(H[i].c) == EventReference(from, h)
      && (theirs != [] ==> EventReference(to, theirs) in H[i].c.refs)
  }

  ghost predicate PacketOk(H: History, p: Packet) {
    match p.msg
    case ClockNotification(chain, h, theirs) => NoteTrue(H, p.from, p.to, chain, h, theirs)
    case ChainRequest(_, _, _, _, _) => true
    case ChainResponse(_, ch, _) => RealChain(H, ch)
  }

  ghost predicate NodesOk(st: Setup, H: History, nodes: map<NodeId, NodeState>) {
    nodes.Keys == st.cfg.Keys && forall n :: n in nodes ==> NodeOk(st, H, n, nodes[n])
  }

  ghost predicate NetOk(H: History, net: seq<Packet>) {
    forall p :: p in net ==> PacketOk(H, p)
  }

  ghost predicate Inv(st: Setup, w: World) {
    Ok(st, w.H) && NodesOk(st, w.H, w.nodes) && NetOk(w.H, w.net)
  }

  lemma OwnId(st: Setup, w: World, n: NodeId)
    requires Inv(st, w) && n in w.nodes
    ensures w.nodes[n].id == n
  {
  }

  // ---------------------------------------------------------------------------
  // the history only grows
  // ---------------------------------------------------------------------------

  lemma HasGrows(H: History, x: Item, c: ClockEvent, e: Event)
    ensures HasClock(H, c) ==> HasClock(H + [x], c)
    ensures HasEvent(H, e) ==> HasEvent(H + [x], e)
  {
    var G := H + [x];
    if HasClock(H, c) {
      var i :| 0 <= i < |H| && H[i].Ck? && H[i].c == c;
      assert G[i] == H[i];
    }
    if HasEvent(H, e) {
      var i :| 0 <= i < |H| && H[i].Ev? && H[i].e == e;
      assert G[i] == H[i];
    }
  }

  lemma RealGrows(H: History, x: Item, ch: EventChain)
    requires RealChain(H, ch)
    ensures RealChain(H + [x], ch)
  {
    HasGrows(H, x, ClockEvent(ch.event.creator, [], 0, 0, 0, [], []), ch.event);
    forall c | c in ch.lower || c in ch.upper
      ensures HasClock(H + [x], c)
    {
      HasGrows(H, x, c, ch.event);
    }
  }

  lemma ClockOnGrows(H: History, x: Item, r: EventReference, chain: nat)
    requires IsClockOn(H, r, chain)
    ensures IsClockOn(H + [x], r, chain)
  {
    var i :| 0 <= i < |H| && H[i].Ck? && H[i].c.chain == chain && ClockRef(H[i].c) == r;
    assert (H + [x])[i] == H[i];
  }

  lemma EdgeGrows(H: History, x: Item, n: NodeId, h: Hash, r: EventReference)
    requires TruthfulEdge(H, n, h, r)
    ensures TruthfulEdge(H + [x], n, h, r)
  {
    var i :| 0 <= i < |H| && H[i].Ck? && ClockRef(H[i].c) == r && EventReference(n, h) in H[i].c.refs;
    assert (H + [x])[i] == H[i];
  }

  lemma PacketGrows(H: History, x: Item, p: Packet)
    requires PacketOk(H, p)
    ensures PacketOk(H + [x], p)
  {
    match p.msg
    case ClockNotification(chain, h, theirs) =>
      var i :| 0 <= i < |H| && H[i].Ck? && H[i].c.chain == chain && ClockRef(H[i].c) == EventReference(p.from, h)
        && (theirs != [] ==> EventReference(p.to, theirs) in H[i].c.refs);
      assert (H + [x])[i] == H[i];
    case ChainRequest(_, _, _, _, _) =>
    case ChainResponse(_, ch, _) => RealGrows(H, x, ch);
  }

  lemma GoodGrows(cr: Crypto, n: NodeId, H: History, x: Item, h: Hash, ch: EventChain)
    requires Good(Trust(cr, n, Some(H)), h, ch)
    ensures Good(Trust(cr, n, Some(H + [x])), h, ch)
  {
    RealGrows(H, x, ch);
  }

  lemma JustifiedGrows(cr: Crypto, n: NodeId, H: History, x: Item, h1: Hash, h2: Hash, o: Order)
    requires Justified(Trust(cr, n, Some(H)), h1, h2, o)
    ensures Justified(Trust(cr, n, Some(H + [x])), h1, h2, o)
  {
    var t := Trust(cr, n, Some(H));
    var a, b :| Good(t, h1, a) && Good(t, h2, b) && o == Validate.Compare(a, b);
    GoodGrows(cr, n, H, x, h1, a);
    GoodGrows(cr, n, H, x, h2, b);
  }

  lemma BracketedGrows(cr: Crypto, n: NodeId, H: History, x: Item, h: Hash, lower: Timestamp, upper: Timestamp)
    requires Bracketed(Trust(cr, n, Some(H)), h, lower, upper)
    ensures Bracketed(Trust(cr, n, Some(H + [x])), h, lower, upper)
  {
    var a :| Good(Trust(cr, n, Some(H)), h, a) && lower == a.lower[0].timestamp && upper == Last(a.upper).timestamp;
    GoodGrows(cr, n, H, x, h, a);
  }

  lemma DiscGrows(cr: Crypto, n: NodeId, H: History, x: Item, d: Discovery.Disc)
    requires DiscOk(Trust(cr, n, Some(H)), d)
    ensures DiscOk(Trust(cr, n, Some(H + [x])), d)
  {
    var t := Trust(cr, n, Some(H));
    var t' := Trust(cr, n, Some(H + [x]));
    forall e | e in d.chains
      ensures ChainOk(t', e)
    {
      assert ChainOk(t, e);
      if e.state.Completed? {
        GoodGrows(cr, n, H, x, e.event.hash, e.chain);
      }
    }
    forall e | e in d.bounds
      ensures BoundsOk(t', e)
    {
      assert BoundsOk(t, e);
      if e.state.Completed? {
        BracketedGrows(cr, n, H, x, e.event.hash, e.lower, e.upper);
      }
    }
    forall e | e in d.orders
      ensures OrderOk(t', e)
    {
      assert OrderOk(t, e);
      if e.state.Completed? {
        JustifiedGrows(cr, n, H, x, e.event1.hash, e.event2.hash, e.order);
      }
    }
    forall a | a in d.answers
      ensures AnswerOk(t', a)
    {
      assert AnswerOk(t, a);
      match a
      case ChainDone(_, event, ch) => GoodGrows(cr, n, H, x, event.hash, ch);
      case BoundsDone(_, event, lower, upper) => BracketedGrows(cr, n, H, x, event.hash, lower, upper);
      case OrderDone(_, event1, event2, o) => JustifiedGrows(cr, n, H, x, event1.hash, event2.hash, o);
      case _ =>
    }
  }

  /** Facts of a store that do not depend on which items are its own. */
  lemma StoreGrows(H: History, x: Item, n: NodeId, live: seq<Entry>)
    requires ChainBuild.LiveReal(H, n, live) && EdgesTruthful(H, n, live) && InOrder(H, live)
    ensures ChainBuild.LiveReal(H + [x], n, live) && EdgesTruthful(H + [x], n, live) && InOrder(H + [x], live)
  {
    forall e | e in live
      ensures IndexOf(H + [x], e.ce.base.hash) == IndexOf(H, e.ce.base.hash)
    {
      var i :| 0 <= i < |H| && H[i].Ck? && H[i].c == e.ce.base;
      assert H[i] in H && H[i].Hash() == e.ce.base.hash;
      IndexOfAppend(H, x, e.ce.base.hash);
    }
    forall e | e in live
      ensures HasClock(H + [x], e.ce.base)
    {
      HasGrows(H, x, e.ce.base, Event(n, [], [], 0, [], []));
    }
    forall e, r | e in live && r in e.ce.referencing
      ensures TruthfulEdge(H + [x], n, e.ce.base.hash, r)
    {
      EdgeGrows(H, x, n, e.ce.base.hash, r);
    }
  }

  lemma NeighborsGrow(H: History, x: Item, nbrs: seq<Neighbor>)
    requires forall nb :: nb in nbrs ==> TipsKnown(H, nb)
    ensures forall nb :: nb in nbrs ==> TipsKnown(H + [x], nb)
  {
    forall nb, c | nb in nbrs && 0 <= c < |nb.tips| && nb.tips[c] != []
      ensures IsClockOn(H + [x], EventReference(nb.id, nb.tips[c]), c)
    {
      assert TipsKnown(H, nb);
      ClockOnGrows(H, x, EventReference(nb.id, nb.tips[c]), c);
    }
  }

  /** A node is not affected by what others create. */
  lemma OtherNodeGrows(st: Setup, H: History, x: Item, n: NodeId, s: NodeState)
    requires NodeOk(st, H, n, s) && x.Creator() != n
    ensures NodeOk(st, H + [x], n, s)
  {
    hide DiscOk, WellFormed, ChainBuild.LiveReal, EdgesTruthful, InOrder, TipsKnown, OnChain;
    AppendFacts(H, x);
    StoreGrows(H, x, n, s.log.live);
    NeighborsGrow(H, x, s.nbrs);
    DiscGrows(st.cr, n, H, x, s.disc);
    forall c: nat
      ensures ChainKept(st, H + [x], n, s.log.live, c)
    {
      assert ChainKept(st, H, n, s.log.live, c);
    }
  }
}
