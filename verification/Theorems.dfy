/** The main results about honest networks, for every reachable world. */
module Theorems {
  import opened Domain
  import opened Hashing
  import opened History
  import opened Log
  import opened NodeModel
  import opened Network
  import opened DiscoveryLaws
  import opened Invariant
  import opened Preservation
  import ChainBuild
  import Discovery
  import Router
  import Validate

  // ---------------------------------------------------------------------------
  // a completed order is true
  // ---------------------------------------------------------------------------

  /** An event with hash `h1` was published, and one with hash `h2` was published later. */
  ghost predicate PublishedBefore(H: History, h1: Hash, h2: Hash) {
    exists i, j :: 0 <= i < j < |H| && H[i].Ev? && H[j].Ev? && H[i].e.hash == h1 && H[j].e.hash == h2
  }

  lemma JustifiedIsTrue(st: Setup, H: History, n: NodeId, h1: Hash, h2: Hash, o: Order)
    requires Ok(st, H) && Monotone(H, n) && Justified(Trust(st.cr, n, Some(H)), h1, h2, o)
    ensures o == Before ==> PublishedBefore(H, h1, h2)
    ensures o == After ==> PublishedBefore(H, h2, h1)
  {
    var t := Trust(st.cr, n, Some(H));
    var a, b :| Good(t, h1, a) && Good(t, h2, b) && o == Validate.Compare(a, b);
    ChainBuild.ComparisonIsTrue(st, H, a, b, n);
    ChainBuild.EnclosureIsTrue(st, H, a);
    ChainBuild.EnclosureIsTrue(st, H, b);
    var i, j := IndexOf(H, a.event.hash), IndexOf(H, b.event.hash);
    assert H[i].Ev? && H[j].Ev? && H[i].e.hash == h1 && H[j].e.hash == h2;
  }

  /** The deepest promise. In every run of honest nodes, with datagrams lost, duplicated,
      delayed and reordered at will, an order told to a client of node `n` is the order in which
      the two events were really published, provided n's own clock never ran backward. Nothing
      is assumed of anybody else's clock. */
  lemma OrderAnswersAreTrue(st: Setup, w: World, n: NodeId, tok: nat, e1: Event, e2: Event, o: Order)
    requires HonestSigner(st.cr) && Reachable(st, w) && n in w.nodes && Monotone(w.H, n)
    requires Discovery.OrderDone(tok, e1, e2, o) in w.nodes[n].disc.answers
    ensures o == Before ==> PublishedBefore(w.H, e1.hash, e2.hash)
    ensures o == After ==> PublishedBefore(w.H, e2.hash, e1.hash)
    ensures !(PublishedBefore(w.H, e1.hash, e2.hash) && PublishedBefore(w.H, e2.hash, e1.hash))
  {
    hide StoreOk, TailsOk, Ok, PacketOk, Justified, PublishedBefore, Reachable;
    ReachableInv(st, w);
    assert NodeOk(st, w.H, n, w.nodes[n]);
    assert AnswerOk(Trust(st.cr, n, Some(w.H)), Discovery.OrderDone(tok, e1, e2, o));
    JustifiedIsTrue(st, w.H, n, e1.hash, e2.hash, o);
    PublicationOrderIsStrict(st, w.H, e1.hash, e2.hash);
  }

  lemma PublicationOrderIsStrict(st: Setup, H: History, h1: Hash, h2: Hash)
    requires Ok(st, H)
    ensures !(PublishedBefore(H, h1, h2) && PublishedBefore(H, h2, h1))
  {
    if PublishedBefore(H, h1, h2) && PublishedBefore(H, h2, h1) {
      var i, j :| 0 <= i < j < |H| && H[i].Ev? && H[j].Ev? && H[i].e.hash == h1 && H[j].e.hash == h2;
      var k, l :| 0 <= k < l < |H| && H[k].Ev? && H[l].Ev? && H[k].e.hash == h2 && H[l].e.hash == h1;
      SameHashSameItem(st, H, i, l);
      SameHashSameItem(st, H, j, k);
    }
  }

  /** A chain told to a client encloses the event in creation order as well: it was published
      after the chain's first clock event and before its last, both of them n's own. */
  lemma ChainAnswersAreTrue(st: Setup, w: World, n: NodeId, tok: nat, e: Event, ch: EventChain)
    requires HonestSigner(st.cr) && Reachable(st, w) && n in w.nodes
    requires Discovery.ChainDone(tok, e, ch) in w.nodes[n].disc.answers
    ensures ch.event.hash == e.hash && Validate.Sound(st.cr, ch, n)
    ensures 0 <= IndexOf(w.H, ch.lower[0].hash) < IndexOf(w.H, e.hash) < IndexOf(w.H, Last(ch.upper).hash)
    ensures w.H[IndexOf(w.H, e.hash)].Ev?
    ensures w.H[IndexOf(w.H, ch.lower[0].hash)].Creator() == n && w.H[IndexOf(w.H, Last(ch.upper).hash)].Creator() == n
  {
    ReachableInv(st, w);
    assert AnswerOk(Trust(st.cr, n, Some(w.H)), Discovery.ChainDone(tok, e, ch));
    ChainBuild.EnclosureIsTrue(st, w.H, ch);
  }

  /** Item `i` of the history is a clock event of node `n` stamped `t`. */
  ghost predicate TickAt(H: History, i: int, n: NodeId, t: Timestamp) {
    0 <= i < |H| && H[i].Ck? && H[i].c.creator == n && H[i].c.timestamp == t
  }

  /** An interval told to a client is that of two of n's own clock events, one created before
      the event was published and one after it. */
  lemma BoundsAnswersAreTrue(st: Setup, w: World, n: NodeId, tok: nat, e: Event, lower: Timestamp, upper: Timestamp)
    requires HonestSigner(st.cr) && Reachable(st, w) && n in w.nodes
    requires Discovery.BoundsDone(tok, e, lower, upper) in w.nodes[n].disc.answers
    ensures lower <= upper && IndexOf(w.H, e.hash) >= 0 && w.H[IndexOf(w.H, e.hash)].Ev?
    ensures exists i, j :: TickAt(w.H, i, n, lower) && TickAt(w.H, j, n, upper) && i < IndexOf(w.H, e.hash) < j
  {
    hide StoreOk, TailsOk, PacketOk, Reachable;
    ReachableInv(st, w);
    assert NodeOk(st, w.H, n, w.nodes[n]);
    assert AnswerOk(Trust(st.cr, n, Some(w.H)), Discovery.BoundsDone(tok, e, lower, upper));
    BracketIsTrue(st, w.H, n, e.hash, lower, upper);
  }

  lemma BracketIsTrue(st: Setup, H: History, n: NodeId, h: Hash, lower: Timestamp, upper: Timestamp)
    requires Ok(st, H) && Bracketed(Trust(st.cr, n, Some(H)), h, lower, upper)
    ensures lower <= upper && IndexOf(H, h) >= 0 && H[IndexOf(H, h)].Ev?
    ensures exists i, j :: TickAt(H, i, n, lower) && TickAt(H, j, n, upper) && i < IndexOf(H, h) < j
  {
    var a :| Good(Trust(st.cr, n, Some(H)), h, a) && lower == a.lower[0].timestamp && upper == Last(a.upper).timestamp;
    ChainBuild.EnclosureIsTrue(st, H, a);
    ChainBuild.ClockPlace(st, H, a.lower[0]);
    ChainBuild.ClockPlace(st, H, Last(a.upper));
    assert TickAt(H, IndexOf(H, a.lower[0].hash), n, lower) && TickAt(H, IndexOf(H, Last(a.upper).hash), n, upper);
  }

  // ---------------------------------------------------------------------------
  // validation agrees with the builder
  // ---------------------------------------------------------------------------

  /** Every chain in flight is linked and made only of really created items. */
  lemma ResponsesCarryRealChains(st: Setup, w: World, p: Packet)
    requires HonestSigner(st.cr) && Reachable(st, w) && p in w.net && p.msg.ChainResponse?
    ensures RealChain(w.H, p.msg.eventChain)
  {
    ReachableInv(st, w);
  }

  /** When a response comes home to a waiting query and both of the originator's clock events
      attach, the query completes with exactly that chain if its interval is not inverted, and
      aborts if it is. While the originator's clock never goes backward, validation turns down
      nothing that honest nodes built. */
  lemma AttachedChainsComplete(st: Setup, w: World, k: nat, now: Timestamp, rnd: nat -> nat)
    requires HonestSigner(st.cr) && Reachable(st, w) && Enabled(st, w, Deliver(k, now, rnd))
    requires var p := w.net[k];
      p.msg.ChainResponse? && p.msg.originator == p.to && Router.IsNeighbor(w.nodes[p.to].nbrs, p.from)
    requires var p := w.net[k]; var d := w.nodes[p.to].disc; var i := Discovery.ChainAt(d.chains, p.msg.eventChain.event.hash);
      i >= 0 && d.chains[i].state.InProgress?
    requires var p := w.net[k]; ChainBuild.Enclose(w.nodes[p.to].log.live, p.to, p.msg.eventChain).1
    ensures var p := w.net[k]; var d := w.nodes[p.to].disc; var i := Discovery.ChainAt(d.chains, p.msg.eventChain.event.hash);
      var d' := Step(st, w, Deliver(k, now, rnd)).nodes[p.to].disc;
      Settles(d, d', i, ChainBuild.Enclose(w.nodes[p.to].log.live, p.to, p.msg.eventChain).0)
    ensures var p := w.net[k];
      Monotone(w.H, p.to) ==> Validate.Upright(ChainBuild.Enclose(w.nodes[p.to].log.live, p.to, p.msg.eventChain).0)
  {
    hide NodeOk, Ok, RealChain, ChainBuild.Enclose, Discovery.ComeHome, Reachable, Discovery.ChainAt;
    ReachableInv(st, w);
    var p := w.net[k];
    assert p in w.net && PacketOk(w.H, p);
    var s := w.nodes[p.to];
    assert NodeOk(st, w.H, p.to, s);
    HomeCompletes(st, w.H, p.to, s, p.msg.eventChain);
    OwnId(st, w, p.to);
    assert Effect(st, w, Deliver(k, now, rnd)) == OnPacket(s, st.cr, p.from, p.msg, now, rnd);
  }

  /** Entry `i` settles on the chain: completed with it if its interval is upright, aborted if not. */
  ghost predicate Settles(d: Discovery.Disc, d': Discovery.Disc, i: nat, ch: EventChain) {
    && i < |d.chains| == |d'.chains|
    && (d'.chains[i].state.Completed? <==> Validate.Upright(ch))
    && (d'.chains[i].state.Aborted? <==> !Validate.Upright(ch))
    && (d'.chains[i].state.Completed? ==> d'.chains[i].chain == ch)
  }

  lemma HomeCompletes(st: Setup, H: History, n: NodeId, s: NodeState, ch: EventChain)
    requires Ok(st, H) && NodeOk(st, H, n, s) && RealChain(H, ch)
    requires var i := Discovery.ChainAt(s.disc.chains, ch.event.hash); i >= 0 && s.disc.chains[i].state.InProgress?
    requires ChainBuild.Enclose(s.log.live, n, ch).1
    ensures var i := Discovery.ChainAt(s.disc.chains, ch.event.hash);
      Settles(s.disc, Discovery.ComeHome(s.disc, st.cr, n, s.log.live, ch), i, ChainBuild.Enclose(s.log.live, n, ch).0)
    ensures Monotone(H, n) ==> Validate.Upright(ChainBuild.Enclose(s.log.live, n, ch).0)
  {
    ChainBuild.EncloseReal(st, H, s.log.live, n, ch);
    ChainBuild.RealChainIsSound(st, H, ChainBuild.Enclose(s.log.live, n, ch).0, n);
  }

  // ---------------------------------------------------------------------------
  // the DAG
  // ---------------------------------------------------------------------------

  /** Every reference anyone ever made names an item created strictly earlier, under its true
      creator: the network-wide graph is acyclic. */
  lemma GraphIsAcyclic(st: Setup, w: World, k: nat, r: EventReference)
    requires HonestSigner(st.cr) && Reachable(st, w) && k < |w.H| && r in w.H[k].Refs()
    ensures 0 <= IndexOf(w.H, r.hash) < k && w.H[IndexOf(w.H, r.hash)].Ref() == r
  {
    ReachableInv(st, w);
    ReferencesGoBack(st, w.H, k, r);
  }

  /** Every reverse edge a node learned is truthful: the neighbour's clock event it names does
      reference the node's clock event it is stored on. */
  lemma ReverseEdgesAreTruthful(st: Setup, w: World, n: NodeId, e: Entry, r: EventReference)
    requires HonestSigner(st.cr) && Reachable(st, w) && n in w.nodes && e in w.nodes[n].log.live && r in e.ce.referencing
    ensures exists i :: 0 <= i < |w.H| && w.H[i].Ck? && ClockRef(w.H[i].c) == r && EventReference(n, e.ce.base.hash) in w.H[i].c.refs
  {
    ReachableInv(st, w);
    assert NodeOk(st, w.H, n, w.nodes[n]);
    assert TruthfulEdge(w.H, n, e.ce.base.hash, r);
  }

  /** Each clock event's first reference is its predecessor, and time never runs backward. */
  ghost predicate HashLinked(L: seq<ClockEvent>) {
    forall i {:trigger L[i]} :: 0 < i < |L| ==>
      |L[i].refs| > 0 && L[i].refs[0] == ClockRef(L[i - 1]) && L[i - 1].timestamp <= L[i].timestamp
  }

  /** `R` is exactly the newest min(|L|, keep) of `L`; capacity 0 is unbounded. */
  ghost predicate NewestSuffix(R: seq<ClockEvent>, L: seq<ClockEvent>, keep: nat) {
    |R| == (if keep == 0 then |L| else Min(|L|, keep)) && R == L[|L| - |R|..]
  }

  lemma RetainedIsSuffix(L: seq<ClockEvent>, keep: nat)
    ensures NewestSuffix(Retained(L, keep), L, keep)
  {
  }

  lemma HistoryHashLinked(st: Setup, H: History, n: NodeId, chain: nat)
    requires Ok(st, H)
    ensures HashLinked(ClocksOn(H, n, chain))
  {
    var L := ClocksOn(H, n, chain);
    forall i | 0 < i < |L|
      ensures |L[i].refs| > 0 && L[i].refs[0] == ClockRef(L[i - 1]) && L[i - 1].timestamp <= L[i].timestamp
    {
      ChainLinked(st, H, n, chain, i);
    }
  }

  /** For any clock readings, even backward ones, each chain's live clock events are the newest
      min(ticks, keep) of a hash-linked list with non-decreasing timestamps. */
  lemma RingIsNewestSuffix(st: Setup, w: World, n: NodeId, chain: nat)
    requires HonestSigner(st.cr) && Reachable(st, w) && n in w.nodes && n in st.cfg
    ensures NewestSuffix(OnChain(w.nodes[n].log.live, chain), ClocksOn(w.H, n, chain), st.cfg[n].Keep(chain))
    ensures HashLinked(ClocksOn(w.H, n, chain))
  {
    ReachableInv(st, w);
    assert NodeOk(st, w.H, n, w.nodes[n]);
    assert ChainKept(st, w.H, n, w.nodes[n].log.live, chain);
    RetainedIsSuffix(ClocksOn(w.H, n, chain), st.cfg[n].Keep(chain));
    HistoryHashLinked(st, w.H, n, chain);
  }
}
