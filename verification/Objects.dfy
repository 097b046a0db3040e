/** What the network reaches meets what the objects ask for: each reachable node state satisfies
    the node object's conditions on its value state, each enabled tick is one it accepts, and the
    two stores cannot be told apart by reading events. */
module Objects {
  import opened Domain
  import opened Hashing
  import opened History
  import opened Log
  import opened NodeModel
  import opened Network
  import opened DiscoveryLaws
  import opened Invariant
  import Discovery
  import DiskStore
  import Hydrate
  import Nodes
  import Preservation
  import ChainBuild
  import Validate

  /** What passed validation with every peer honest passed it against anybody. */
  lemma TrustLess(cr: Crypto, id: NodeId, H: History, d: Discovery.Disc)
    requires DiscOk(Trust(cr, id, Some(H)), d)
    ensures DiscOk(Trust(cr, id, None), d)
  {
    var t, t' := Trust(cr, id, Some(H)), Trust(cr, id, None);
    forall h, ch | Good(t, h, ch)
      ensures Good(t', h, ch)
    {
    }
    forall h, lower, upper | Bracketed(t, h, lower, upper)
      ensures Bracketed(t', h, lower, upper)
    {
      var a :| Good(t, h, a) && lower == a.lower[0].timestamp && upper == Last(a.upper).timestamp;
      assert Good(t', h, a);
    }
    forall h1, h2, o | Justified(t, h1, h2, o)
      ensures Justified(t', h1, h2, o)
    {
      JustifiedLess(cr, id, H, h1, h2, o);
    }
    hide Good, Bracketed, Justified;
    forall e | e in d.chains
      ensures ChainOk(t', e)
    {
      assert ChainOk(t, e);
    }
    forall e | e in d.bounds
      ensures BoundsOk(t', e)
    {
      assert BoundsOk(t, e);
    }
    forall e | e in d.orders
      ensures OrderOk(t', e)
    {
      assert OrderOk(t, e);
    }
    forall a | a in d.answers
      ensures AnswerOk(t', a)
    {
      assert AnswerOk(t, a);
    }
  }

  lemma JustifiedLess(cr: Crypto, id: NodeId, H: History, h1: Hash, h2: Hash, o: Order)
    requires Justified(Trust(cr, id, Some(H)), h1, h2, o)
    ensures Justified(Trust(cr, id, None), h1, h2, o)
  {
    var t, t' := Trust(cr, id, Some(H)), Trust(cr, id, None);
    var a, b :| Good(t, h1, a) && Good(t, h2, b) && o == Validate.Compare(a, b);
    assert Good(t', h1, a) && Good(t', h2, b);
  }

  /** Every reachable node state meets the object's invariant, apart from the store's indices,
      which the store keeps by itself. */
  lemma ReachableFitsObject(st: Setup, w: World, n: NodeId)
    requires HonestSigner(st.cr) && Reachable(st, w) && n in w.nodes
    ensures var s := w.nodes[n];
      && s.id == n && WellFormed(s.log) && |s.tails| == s.cfg.NumChains()
      && DiscOk(Trust(st.cr, n, None), s.disc)
  {
    hide Ok, PacketOk, DiscOk, Reachable, WellFormed, ChainBuild.LiveReal, EdgesTruthful, InOrder, EventsOf;
    Preservation.ReachableInv(st, w);
    assert NodeOk(st, w.H, n, w.nodes[n]);
    TrustLess(st.cr, n, w.H, w.nodes[n].disc);
  }

  /** Of a log a node can reach, the in-memory and the durable store read back the same event
      for every hash. */
  lemma StoresReadTheSame(st: Setup, w: World, n: NodeId, t: seq<DiskStore.EventRec>, h: Hash)
    requires HonestSigner(st.cr) && Reachable(st, w) && n in w.nodes && DiskStore.Stripped(t) == w.nodes[n].log.events
    ensures EventByHash(w.nodes[n].log.events, h) == DiskStore.NewestByHash(t, h)
  {
    hide Reachable;
    Preservation.ReachableInv(st, w);
    var E := EventsOf(w.H, n);
    assert w.nodes[n].log.events == E by {
      assert NodeOk(st, w.H, n, w.nodes[n]);
    }
    forall i, j | 0 <= i < j < |t|
      ensures t[i].event.hash != t[j].event.hash
    {
      Hydrate.EventsDistinct(st, w.H, n, i, j);
      assert t[i].event == E[i] && t[j].event == E[j];
    }
    DiskStore.EventReadsAgreeOnUnrepeated(t, h);
  }

  /** A tick the network allows is one whose hash is novel to the store. */
  lemma EnabledTickIsNovel(st: Setup, w: World, n: NodeId, chain: nat, salt: nat, now: Timestamp)
    requires HonestSigner(st.cr) && Reachable(st, w) && Enabled(st, w, DoTick(n, chain, salt, now))
    ensures Nodes.Novel(w.nodes[n].log.live, NewClock(w.nodes[n], st.cr, chain, salt, now))
  {
    hide PacketOk, DiscOk, Reachable, WellFormed, EdgesTruthful, InOrder, EventsOf, NewClock;
    Preservation.ReachableInv(st, w);
    var s := w.nodes[n];
    assert NodeOk(st, w.H, n, s);
    NovelTick(st, w.H, n, s, chain, salt, now);
  }

  lemma NovelTick(st: Setup, H: History, n: NodeId, s: NodeState, chain: nat, salt: nat, now: Timestamp)
    requires HonestSigner(st.cr) && Ok(st, H) && NodeOk(st, H, n, s) && chain < |s.tails|
    requires var h := NewClock(s, st.cr, chain, salt, now).hash; h != [] && IndexOf(H, h) == -1
    ensures Nodes.Novel(s.log.live, NewClock(s, st.cr, chain, salt, now))
  {
    var c := NewClock(s, st.cr, chain, salt, now);
    Preservation.TickedIsOk(st, H, n, s, chain, salt, now);
    OkAppend(st, H, Ck(c, now));
    Preservation.FreshToStore(st, H, n, s.log.live, c.hash);
    forall i | 0 <= i < |c.refs|
      ensures c.refs[i].hash != c.hash
    {
      assert Resolves(H, c.refs[i]);
    }
  }
}
