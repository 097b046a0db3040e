/** Every step of an honest network preserves the invariant, so it holds in every run. */
module Preservation {
  import opened Domain
  import opened Hashing
  import opened History
  import opened Log
  import opened NodeModel
  import opened Network
  import opened DiscoveryLaws
  import opened Invariant
  import ChainBuild
  import Discovery
  import Router
  import Validate

  // ---------------------------------------------------------------------------
  // reading the store is reading the history
  // ---------------------------------------------------------------------------

  lemma TipRefIsLast(st: Setup, H: History, n: NodeId, log: Log, c: nat)
    requires n in st.cfg && StoreOk(st, H, n, log)
    ensures TipRef(log.live, c) == LastRef(ClocksOn(H, n, c))
    ensures Tip(log.live, c).Some? ==> Tip(log.live, c).value.ce.base == Last(ClocksOn(H, n, c))
    ensures Tip(log.live, c).Some? <==> ClocksOn(H, n, c) != []
  {
    hide WellFormed, EventsOf, ChainBuild.LiveReal, EdgesTruthful, InOrder;
    TipIsLast(log.live, c);
    assert ChainKept(st, H, n, log.live, c);
  }

  lemma {:induction false} TipRefsPointwise(H: History, n: NodeId, live: seq<Entry>, k: nat)
    requires forall c: nat :: c < k ==> TipRef(live, c) == LastRef(ClocksOn(H, n, c))
    ensures LiveTipRefs(live, k) == TipRefs(H, n, k)
  {
    if k > 0 {
      TipRefsPointwise(H, n, live, k - 1);
    }
  }

  lemma LiveTipRefsAreTips(st: Setup, H: History, n: NodeId, log: Log, k: nat)
    requires n in st.cfg && StoreOk(st, H, n, log)
    ensures LiveTipRefs(log.live, k) == TipRefs(H, n, k)
  {
    forall c: nat | c < k
      ensures TipRef(log.live, c) == LastRef(ClocksOn(H, n, c))
    {
      TipRefIsLast(st, H, n, log, c);
    }
    TipRefsPointwise(H, n, log.live, k);
  }

  lemma ClockResolves(st: Setup, H: History, c: ClockEvent)
    requires Ok(st, H) && HasClock(H, c)
    ensures Resolves(H, ClockRef(c))
  {
    ChainBuild.ClockPlace(st, H, c);
  }

  lemma LastRefResolves(st: Setup, H: History, n: NodeId, c: nat, r: EventReference)
    requires Ok(st, H) && r in LastRef(ClocksOn(H, n, c))
    ensures Resolves(H, r)
  {
    ClocksOnMembers(H, n, c, Last(ClocksOn(H, n, c)));
    ClockResolves(st, H, Last(ClocksOn(H, n, c)));
  }

  lemma {:induction false} TipRefsMember(H: History, n: NodeId, k: nat, r: EventReference) returns (c: nat)
    requires r in TipRefs(H, n, k)
    ensures c < k && r in LastRef(ClocksOn(H, n, c))
  {
    var newest := LastRef(ClocksOn(H, n, k - 1));
    if r in newest {
      c := k - 1;
    } else {
      c := TipRefsMember(H, n, k - 1, r);
    }
  }

  lemma TipRefsResolve(st: Setup, H: History, n: NodeId, k: nat, r: EventReference)
    requires Ok(st, H) && r in TipRefs(H, n, k)
    ensures Resolves(H, r)
  {
    var c := TipRefsMember(H, n, k, r);
    LastRefResolves(st, H, n, c, r);
  }

  lemma ClockOnResolves(st: Setup, H: History, r: EventReference, chain: nat)
    requires Ok(st, H) && IsClockOn(H, r, chain)
    ensures Resolves(H, r)
  {
    var i :| 0 <= i < |H| && H[i].Ck? && H[i].c.chain == chain && ClockRef(H[i].c) == r;
    Unique(st, H, i);
  }

  lemma TailResolves(st: Setup, H: History, n: NodeId, live: seq<Entry>, c: nat, tail: seq<Event>, r: EventReference)
    requires Ok(st, H) && TailOk(H, n, live, c, tail) && r in EventRefs(tail)
    ensures Resolves(H, r)
  {
    hide ReferencedBy, Ok, EventsOf, TailOf;
    var i :| 0 <= i < |tail| && r == EventRef(tail[i]);
    var e := tail[i];
    assert e == EventsOf(H, n)[|EventsOf(H, n)| - |tail| + i];
    EventsOfMembers(H, n, e);
    var k :| 0 <= k < |H| && H[k].Ev? && H[k].e == e;
    Unique(st, H, k);
  }

  // ---------------------------------------------------------------------------
  // publish
  // ---------------------------------------------------------------------------

  lemma PublishedIsOk(st: Setup, H: History, n: NodeId, s: NodeState, data: Bytes, salt: nat, now: Timestamp)
    requires Ok(st, H) && HonestSigner(st.cr) && NodeOk(st, H, n, s)
    requires var h := NewEvent(s, st.cr, data, salt).hash; h != [] && IndexOf(H, h) == -1
    ensures Ok(st, H + [Ev(NewEvent(s, st.cr, data, salt), now)])
  {
    var e := NewEvent(s, st.cr, data, salt);
    var x := Ev(e, now);
    LiveTipRefsAreTips(st, H, n, s.log, s.cfg.NumChains());
    forall r | r in x.Refs()
      ensures Resolves(H, r)
    {
      TipRefsResolve(st, H, n, s.cfg.NumChains(), r);
    }
    OkAppend(st, H, x);
  }

  lemma PublishStore(st: Setup, H: History, n: NodeId, log: Log, e: Event, now: Timestamp)
    requires n in st.cfg && StoreOk(st, H, n, log) && e.creator == n
    ensures StoreOk(st, H + [Ev(e, now)], n, AppendEvent(log, e))
  {
    hide WellFormed, ChainBuild.LiveReal, EdgesTruthful, InOrder, OnChain, Retained;
    var x := Ev(e, now);
    AppendFacts(H, x);
    StoreGrows(H, x, n, log.live);
    forall c: nat
      ensures ChainKept(st, H + [x], n, log.live, c)
    {
      assert ChainKept(st, H, n, log.live, c);
      ClocksOnAppend(H, x, n, c);
      assert ClocksOn(H, n, c) + [] == ClocksOn(H, n, c);
    }
    AppendEventWellFormed(log, e);
  }

  lemma PublishTail(H: History, n: NodeId, live: seq<Entry>, c: nat, tail: seq<Event>, e: Event, now: Timestamp)
    requires TailOk(H, n, live, c, tail) && e.creator == n && !ReferencedBy(live, e.hash, c)
    ensures TailOk(H + [Ev(e, now)], n, live, c, tail + [e])
  {
    hide ReferencedBy;
    AppendFacts(H, Ev(e, now));
  }

  lemma PublishTails(st: Setup, H: History, n: NodeId, live: seq<Entry>, tails: seq<seq<Event>>, e: Event, now: Timestamp)
    requires n in st.cfg && TailsOk(st, H, n, live, tails) && e.creator == n
    requires forall f :: f in live ==> !Mentions(f.ce.base.refs, e.hash)
    ensures TailsOk(st, H + [Ev(e, now)], n, live, PushAll(tails, e))
  {
    hide TailOk;
    forall c | 0 <= c < |tails|
      ensures TailOk(H + [Ev(e, now)], n, live, c, tails[c] + [e])
    {
      PublishTail(H, n, live, c, tails[c], e, now);
    }
  }

  lemma PublishKeeps(st: Setup, H: History, n: NodeId, s: NodeState, data: Bytes, salt: nat, now: Timestamp)
    requires Ok(st, H) && NodeOk(st, H, n, s) && IndexOf(H, NewEvent(s, st.cr, data, salt).hash) == -1
    ensures NodeOk(st, H + [Ev(NewEvent(s, st.cr, data, salt), now)], n, Publish(s, st.cr, data, salt))
  {
    hide TailsOk, DiscOk, TipsKnown;
    var e := NewEvent(s, st.cr, data, salt);
    FreshToStore(st, H, n, s.log.live, e.hash);
    hide StoreOk;
    PublishStore(st, H, n, s.log, e, now);
    PublishTails(st, H, n, s.log.live, s.tails, e, now);
    NeighborsGrow(H, Ev(e, now), s.nbrs);
    DiscGrows(st.cr, n, H, Ev(e, now), s.disc);
  }

  // ---------------------------------------------------------------------------
  // tick
  // ---------------------------------------------------------------------------

  lemma {:induction false} NeighborRefsKnown(H: History, nbrs: seq<Neighbor>, chain: nat)
    requires forall nb :: nb in nbrs ==> TipsKnown(H, nb)
    ensures forall r :: r in NeighborRefs(nbrs, chain) ==> IsClockOn(H, r, chain)
  {
    if nbrs != [] {
      NeighborRefsKnown(H, Front(nbrs), chain);
      assert TipsKnown(H, Last(nbrs));
    }
  }

  lemma {:induction false} NeighborRefsComplete(nbrs: seq<Neighbor>, chain: nat, nb: Neighbor)
    requires nb in nbrs && NeighborTip(nb, chain) != []
    ensures EventReference(nb.id, NeighborTip(nb, chain)) in NeighborRefs(nbrs, chain)
  {
    if Last(nbrs) != nb {
      assert nb in Front(nbrs);
      NeighborRefsComplete(Front(nbrs), chain, nb);
    }
  }

  lemma TickRefsResolve(st: Setup, H: History, n: NodeId, s: NodeState, chain: nat, r: EventReference)
    requires Ok(st, H) && NodeOk(st, H, n, s) && chain < |s.tails|
    requires r in TipRef(s.log.live, chain) + NeighborRefs(s.nbrs, chain) + EventRefs(s.tails[chain])
    ensures Resolves(H, r)
  {
    TipRefIsLast(st, H, n, s.log, chain);
    NeighborRefsKnown(H, s.nbrs, chain);
    if r in TipRef(s.log.live, chain) {
      LastRefResolves(st, H, n, chain, r);
    } else if r in NeighborRefs(s.nbrs, chain) {
      ClockOnResolves(st, H, r, chain);
    } else {
      TailResolves(st, H, n, s.log.live, chain, s.tails[chain], r);
    }
  }

  lemma TickedIsOk(st: Setup, H: History, n: NodeId, s: NodeState, chain: nat, salt: nat, now: Timestamp)
    requires Ok(st, H) && HonestSigner(st.cr) && NodeOk(st, H, n, s) && chain < |s.tails|
    requires var h := NewClock(s, st.cr, chain, salt, now).hash; h != [] && IndexOf(H, h) == -1
    ensures Ok(st, H + [Ck(NewClock(s, st.cr, chain, salt, now), now)])
  {
    hide StoreOk, Ok, DiscOk, ClocksOn, TailOf, EventsOf, ReferencedBy, IndexOf, TipRef, NeighborRefs, EventRefs, TipsKnown, LastRef, Resolves, IsClockOn, ClockHash, Tip;
    var c := NewClock(s, st.cr, chain, salt, now);
    var x := Ck(c, now);
    var own, nbr, tail := TipRef(s.log.live, chain), NeighborRefs(s.nbrs, chain), EventRefs(s.tails[chain]);
    TipRefIsLast(st, H, n, s.log, chain);
    NeighborRefsKnown(H, s.nbrs, chain);
    assert c.refs == own + nbr + tail;
    assert c.refs[..|own|] == own && c.refs[|c.refs| - |tail|..] == tail;
    forall i | |own| <= i < |c.refs| - |tail|
      ensures IsClockOn(H, c.refs[i], chain)
    {
      assert c.refs[i] == nbr[i - |own|];
    }
    forall r | r in x.Refs()
      ensures Resolves(H, r)
    {
      TickRefsResolve(st, H, n, s, chain, r);
    }
    assert TickRefs(H, c, |s.tails[chain]|);
    assert ClockOk(st, H, c, now);
    OkAppend(st, H, x);
  }

  /** Pruning a chain to its own ring capacity changes nothing the invariant talks about. */
  lemma PruneKeeps(st: Setup, H: History, n: NodeId, log: Log, chain: nat)
    requires n in st.cfg && StoreOk(st, H, n, log)
    ensures StoreOk(st, H, n, Prune(log, chain, st.cfg[n].Keep(chain)))
  {
    var keep := st.cfg[n].Keep(chain);
    if keep > 0 {
      KeepNewestWellFormed(log, chain, keep);
      KeepNewestThins(log.live, chain, keep);
      forall c: nat
        ensures ChainKept(st, H, n, KeepNewest(log.live, chain, keep), c)
      {
        assert ChainKept(st, H, n, log.live, c);
        KeepNewestOnChain(log.live, chain, keep, c);
      }
    }
  }

  /** The store right after an append, before the ring is trimmed: one chain may be one over. */
  ghost predicate Appended(st: Setup, H: History, n: NodeId, log: Log, chain: nat)
    requires n in st.cfg
  {
    && WellFormed(log)
    && log.events == EventsOf(H, n)
    && ChainBuild.LiveReal(H, n, log.live)
    && EdgesTruthful(H, n, log.live)
    && InOrder(H, log.live)
    && (forall c: nat :: c != chain ==> ChainKept(st, H, n, log.live, c))
    && (var L := ClocksOn(H, n, chain); var k := st.cfg[n].Keep(chain);
        |L| > 0 && OnChain(log.live, chain) == Retained(Front(L), k) + [Last(L)])
  }

  lemma FreshToStore(st: Setup, H: History, n: NodeId, live: seq<Entry>, h: Hash)
    requires Ok(st, H) && ChainBuild.LiveReal(H, n, live) && IndexOf(H, h) == -1
    ensures forall e :: e in live ==> e.ce.base.hash != h && !Mentions(e.ce.base.refs, h)
  {
    forall e | e in live
      ensures e.ce.base.hash != h && !Mentions(e.ce.base.refs, h)
    {
      ChainBuild.ClockPlace(st, H, e.ce.base);
    }
  }

  lemma ClocksOnAppend(H: History, x: Item, n: NodeId, k: nat)
    ensures ClocksOn(H + [x], n, k) == ClocksOn(H, n, k) +
      if x.Ck? && x.c.creator == n && x.c.chain == k then [x.c] else []
  {
    AppendFacts(H, x);
  }

  lemma AppendOnChain(st: Setup, H: History, n: NodeId, log: Log, c: ClockEvent, now: Timestamp, k: nat)
    requires n in st.cfg && StoreOk(st, H, n, log) && c.creator == n
    ensures var G := H + [Ck(c, now)]; var live := AppendClock(log, LocalClockEvent(c, [])).live;
      && (k != c.chain ==> ChainKept(st, G, n, live, k))
      && (k == c.chain ==> ClocksOn(G, n, k) == ClocksOn(H, n, k) + [c]
                           && OnChain(live, k) == Retained(ClocksOn(H, n, k), st.cfg[n].Keep(k)) + [c])
  {
    OnChainAppend(log.live, Entry(log.next, LocalClockEvent(c, [])), k);
    ClocksOnAppend(H, Ck(c, now), n, k);
    assert ChainKept(st, H, n, log.live, k);
  }

  lemma AppendStays(st: Setup, H: History, n: NodeId, log: Log, c: ClockEvent, now: Timestamp)
    requires n in st.cfg && StoreOk(st, H, n, log) && Ok(st, H) && ItemOk(st, H, Ck(c, now)) && c.creator == n
    ensures WellFormed(AppendClock(log, LocalClockEvent(c, [])))
  {
    hide Ok, WellFormed, EventsOf, ClocksOn, ChainKept;
    FreshToStore(st, H, n, log.live, c.hash);
    forall r | r in c.refs
      ensures r.hash != c.hash
    {
      assert Resolves(H, r);
    }
    AppendWellFormed(log, LocalClockEvent(c, []));
  }

  lemma AppendInOrder(H: History, n: NodeId, log: Log, c: ClockEvent, now: Timestamp)
    requires WellFormed(log) && ChainBuild.LiveReal(H, n, log.live) && InOrder(H, log.live) && IndexOf(H, c.hash) == -1
    ensures InOrder(H + [Ck(c, now)], AppendClock(log, LocalClockEvent(c, [])).live)
  {
    var x := Ck(c, now);
    var G, live := H + [x], AppendClock(log, LocalClockEvent(c, [])).live;
    forall e, f | e in live && f in live && e.at < f.at
      ensures IndexOf(G, e.ce.base.hash) < IndexOf(G, f.ce.base.hash)
    {
      assert e in log.live && (f in log.live || f == Entry(log.next, LocalClockEvent(c, [])));
      hide WellFormed, IndexOf;
      KnownStays(H, x, n, log.live, e);
      if f in log.live {
        KnownStays(H, x, n, log.live, f);
      } else {
        IndexOfAppend(H, x, c.hash);
      }
    }
  }

  lemma KnownStays(H: History, x: Item, n: NodeId, live: seq<Entry>, e: Entry)
    requires ChainBuild.LiveReal(H, n, live) && e in live
    ensures 0 <= IndexOf(H, e.ce.base.hash) < |H| && IndexOf(H + [x], e.ce.base.hash) == IndexOf(H, e.ce.base.hash)
  {
    var i :| 0 <= i < |H| && H[i].Ck? && H[i].c == e.ce.base;
    assert H[i] in H && H[i].Hash() == e.ce.base.hash;
    IndexOfAppend(H, x, e.ce.base.hash);
  }

  lemma LatestIsReal(H: History, c: ClockEvent, now: Timestamp)
    ensures HasClock(H + [Ck(c, now)], c)
  {
    assert (H + [Ck(c, now)])[|H|] == Ck(c, now);
  }

  lemma AppendLive(G: History, n: NodeId, live: seq<Entry>, e: Entry)
    requires ChainBuild.LiveReal(G, n, live) && HasClock(G, e.ce.base) && e.ce.base.creator == n
    ensures ChainBuild.LiveReal(G, n, live + [e])
  {
  }

  lemma AppendEdges(G: History, n: NodeId, live: seq<Entry>, e: Entry)
    requires EdgesTruthful(G, n, live) && e.ce.referencing == []
    ensures EdgesTruthful(G, n, live + [e])
  {
  }

  lemma TickPublishesNothing(H: History, c: ClockEvent, now: Timestamp, n: NodeId)
    ensures EventsOf(H + [Ck(c, now)], n) == EventsOf(H, n)
  {
    assert Front(H + [Ck(c, now)]) == H;
  }

  lemma AppendReal(st: Setup, H: History, n: NodeId, log: Log, c: ClockEvent, now: Timestamp)
    requires n in st.cfg && StoreOk(st, H, n, log) && Ok(st, H) && ItemOk(st, H, Ck(c, now)) && c.creator == n
    ensures var G := H + [Ck(c, now)]; var log' := AppendClock(log, LocalClockEvent(c, []));
      && WellFormed(log') && log'.events == EventsOf(G, n)
      && ChainBuild.LiveReal(G, n, log'.live) && EdgesTruthful(G, n, log'.live) && InOrder(G, log'.live)
  {
    hide Ok, WellFormed, ChainKept, InOrder, HasClock, EventsOf, ChainBuild.LiveReal, EdgesTruthful, IndexOf;
    var x := Ck(c, now);
    var G, e := H + [x], Entry(log.next, LocalClockEvent(c, []));
    AppendStays(st, H, n, log, c, now);
    AppendInOrder(H, n, log, c, now);
    StoreGrows(H, x, n, log.live);
    LatestIsReal(H, c, now);
    TickPublishesNothing(H, c, now, n);
    AppendLive(G, n, log.live, e);
    AppendEdges(G, n, log.live, e);
  }

  lemma AppendKeeps(st: Setup, H: History, n: NodeId, log: Log, c: ClockEvent, now: Timestamp)
    requires n in st.cfg && StoreOk(st, H, n, log) && Ok(st, H) && Ok(st, H + [Ck(c, now)]) && c.creator == n
    ensures Appended(st, H + [Ck(c, now)], n, AppendClock(log, LocalClockEvent(c, [])), c.chain)
  {
    OkAppend(st, H, Ck(c, now));
    AppendReal(st, H, n, log, c, now);
    forall k: nat | k != c.chain
      ensures ChainKept(st, H + [Ck(c, now)], n, AppendClock(log, LocalClockEvent(c, [])).live, k)
    {
      AppendOnChain(st, H, n, log, c, now, k);
    }
    AppendOnChain(st, H, n, log, c, now, c.chain);
  }

  /** A full ring that takes one more and drops its oldest holds the newest of them all. */
  lemma LastNSlides<T>(s: seq<T>, x: T, k: nat)
    requires k > 0
    ensures LastN(LastN(s, k) + [x], k) == LastN(s + [x], k)
  {
  }

  lemma TrimmedChain(st: Setup, H: History, n: NodeId, log: Log, chain: nat, c: nat)
    requires n in st.cfg && Appended(st, H, n, log, chain) && st.cfg[n].Keep(chain) > 0
    ensures ChainKept(st, H, n, KeepNewest(log.live, chain, st.cfg[n].Keep(chain)), c)
  {
    hide OnChain, KeepNewest, ClocksOn, WellFormed, EventsOf, ChainBuild.LiveReal, EdgesTruthful, InOrder, LastN;
    KeepNewestOnChain(log.live, chain, st.cfg[n].Keep(chain), c);
    if c == chain {
      var L := ClocksOn(H, n, chain);
      assert L == Front(L) + [Last(L)];
      LastNSlides(Front(L), Last(L), st.cfg[n].Keep(chain));
    } else {
      assert ChainKept(st, H, n, log.live, c);
    }
  }

  lemma UntrimmedChain(st: Setup, H: History, n: NodeId, log: Log, chain: nat, c: nat)
    requires n in st.cfg && Appended(st, H, n, log, chain) && st.cfg[n].Keep(chain) == 0
    ensures ChainKept(st, H, n, log.live, c)
  {
    if c == chain {
      var L := ClocksOn(H, n, chain);
      assert L == Front(L) + [Last(L)];
    }
  }

  lemma TrimKeeps(st: Setup, H: History, n: NodeId, log: Log, chain: nat)
    requires n in st.cfg && Appended(st, H, n, log, chain)
    ensures StoreOk(st, H, n, Prune(log, chain, st.cfg[n].Keep(chain)))
  {
    var keep := st.cfg[n].Keep(chain);
    KeepNewestWellFormed(log, chain, keep);
    KeepNewestThins(log.live, chain, keep);
    forall c: nat
      ensures ChainKept(st, H, n, Prune(log, chain, keep).live, c)
    {
      if keep > 0 {
        TrimmedChain(st, H, n, log, chain, c);
      } else {
        UntrimmedChain(st, H, n, log, chain, c);
      }
    }
  }

  lemma TickTails(st: Setup, H: History, n: NodeId, s: NodeState, c: ClockEvent, now: Timestamp)
    requires NodeOk(st, H, n, s) && c.creator == n && c.chain < |s.tails|
    ensures TailsOk(st, H + [Ck(c, now)], n, Prune(AppendClock(s.log, LocalClockEvent(c, [])), c.chain, s.cfg.Keep(c.chain)).live, s.tails[c.chain := []])
  {
    hide StoreOk, DiscOk, TipsKnown, TailOk;
    var e := Entry(s.log.next, LocalClockEvent(c, []));
    var live := Prune(AppendClock(s.log, e.ce), c.chain, s.cfg.Keep(c.chain)).live;
    PruneDrops(AppendClock(s.log, e.ce), c.chain, s.cfg.Keep(c.chain));
    var tails := s.tails[c.chain := []];
    forall k | 0 <= k < |tails|
      ensures TailOk(H + [Ck(c, now)], n, live, k, tails[k])
    {
      TickTail(H, n, s.log.live, s.log.live + [e], k, s.tails[k], c, now);
      if k == c.chain {
        EmptyTail(H, n, live, c, now);
      } else {
        TailThins(H + [Ck(c, now)], n, s.log.live + [e], live, k, s.tails[k]);
      }
    }
  }

  lemma TickTail(H: History, n: NodeId, live: seq<Entry>, live': seq<Entry>, k: nat, tail: seq<Event>, c: ClockEvent, now: Timestamp)
    requires TailOk(H, n, live, k, tail) && |live'| > 0 && live' == live + [Last(live')] && Last(live').ce.base == c
    ensures k != c.chain ==> TailOk(H + [Ck(c, now)], n, live', k, tail)
  {
    AppendFacts(H, Ck(c, now));
  }

  lemma EmptyTail(H: History, n: NodeId, live: seq<Entry>, c: ClockEvent, now: Timestamp)
    requires c.creator == n
    ensures TailOk(H + [Ck(c, now)], n, live, c.chain, [])
  {
    AppendFacts(H, Ck(c, now));
  }

  /** Dropping clock events leaves fewer references. */
  lemma TailThins(H: History, n: NodeId, live: seq<Entry>, kept: seq<Entry>, c: nat, tail: seq<Event>)
    requires TailOk(H, n, live, c, tail) && forall e :: e in kept ==> e in live
    ensures TailOk(H, n, kept, c, tail)
  {
  }

  lemma TailsThin(st: Setup, H: History, n: NodeId, live: seq<Entry>, kept: seq<Entry>, tails: seq<seq<Event>>)
    requires n in st.cfg && TailsOk(st, H, n, live, tails) && forall e :: e in kept ==> e in live
    ensures TailsOk(st, H, n, kept, tails)
  {
    hide TailOk;
    forall c | 0 <= c < |tails|
      ensures TailOk(H, n, kept, c, tails[c])
    {
      TailThins(H, n, live, kept, c, tails[c]);
    }
  }

  lemma PruneDrops(log: Log, chain: nat, keep: nat)
    ensures forall e :: e in Prune(log, chain, keep).live ==> e in log.live
  {
    if keep > 0 {
      KeepNewestThins(log.live, chain, keep);
    }
  }

  lemma TickKeeps(st: Setup, H: History, n: NodeId, s: NodeState, chain: nat, salt: nat, now: Timestamp)
    requires Ok(st, H) && NodeOk(st, H, n, s) && chain < |s.tails|
    requires Ok(st, H + [Ck(NewClock(s, st.cr, chain, salt, now), now)])
    ensures NodeOk(st, H + [Ck(NewClock(s, st.cr, chain, salt, now), now)], n, Tick(s, st.cr, chain, salt, now).0)
  {
    var c := NewClock(s, st.cr, chain, salt, now);
    var x := Ck(c, now);
    AppendKeeps(st, H, n, s.log, c, now);
    TrimKeeps(st, H + [x], n, AppendClock(s.log, LocalClockEvent(c, [])), chain);
    TickTails(st, H, n, s, c, now);
    NeighborsGrow(H, x, s.nbrs);
    DiscGrows(st.cr, n, H, x, s.disc);
  }

  lemma NotificationTrue(H: History, s: NodeState, cr: Crypto, chain: nat, salt: nat, now: Timestamp, nb: Neighbor)
    requires chain < |s.tails| && nb in s.nbrs
    ensures var c := NewClock(s, cr, chain, salt, now);
      NoteTrue(H + [Ck(c, now)], s.id, nb.id, chain, c.hash, NeighborTip(nb, chain))
  {
    var c := NewClock(s, cr, chain, salt, now);
    if NeighborTip(nb, chain) != [] {
      NeighborRefsComplete(s.nbrs, chain, nb);
    }
    var G := H + [Ck(c, now)];
    assert G[|H|].Ck? && G[|H|].c == c;
  }

  lemma NotificationsTrue(H: History, s: NodeState, cr: Crypto, chain: nat, salt: nat, now: Timestamp)
    requires chain < |s.tails|
    ensures NetOk(H + [Ck(NewClock(s, cr, chain, salt, now), now)], Posted(s.id, Tick(s, cr, chain, salt, now).1, []))
  {
    var c := NewClock(s, cr, chain, salt, now);
    var out := Notifications(s.nbrs, c);
    forall p | p in Posted(s.id, out, [])
      ensures PacketOk(H + [Ck(c, now)], p)
    {
      var i :| 0 <= i < |out| && p == Posted(s.id, out, [])[i];
      assert out[i] == Send(s.nbrs[i].id, ClockNotification(chain, c.hash, NeighborTip(s.nbrs[i], chain)));
      NotificationTrue(H, s, cr, chain, salt, now, s.nbrs[i]);
    }
  }

  // ---------------------------------------------------------------------------
  // notification
  // ---------------------------------------------------------------------------

  lemma UpdateEntry(H: History, n: NodeId, log: Log, ce: LocalClockEvent, edge: EventReference, i: nat)
    requires WellFormed(log) && EdgesTruthful(H, n, log.live) && i < |log.live|
    requires exists e :: e in log.live && e.ce == ce
    requires TruthfulEdge(H, n, ce.base.hash, edge)
    ensures var e' := Update(log.live, ce.(referencing := ce.referencing + [edge]))[i];
      && e'.at == log.live[i].at && e'.ce.base == log.live[i].ce.base
      && forall r :: r in e'.ce.referencing ==> TruthfulEdge(H, n, e'.ce.base.hash, r)
  {
    hide TruthfulEdge;
    var e0 :| e0 in log.live && e0.ce == ce;
    assert log.live[i] in log.live;
    if log.live[i].ce.base.hash == ce.base.hash {
      SameHashSamePlace(log, e0, log.live[i]);
    }
  }

  lemma SameHashSamePlace(log: Log, e: Entry, f: Entry)
    requires WellFormed(log) && e in log.live && f in log.live && e.ce.base.hash == f.ce.base.hash
    ensures e == f
  {
    var i :| 0 <= i < |log.live| && log.live[i] == e;
    var j :| 0 <= j < |log.live| && log.live[j] == f;
    assert log.live[i].at == log.live[j].at;
  }

  lemma SameBasesInOrder(H: History, a: seq<Entry>, b: seq<Entry>)
    requires SameBases(a, b) && InOrder(H, a)
    ensures InOrder(H, b)
  {
    forall e, f | e in b && f in b && e.at < f.at
      ensures IndexOf(H, e.ce.base.hash) < IndexOf(H, f.ce.base.hash)
    {
      var i :| 0 <= i < |b| && b[i] == e;
      var j :| 0 <= j < |b| && b[j] == f;
      assert a[i] in a && a[j] in a;
    }
  }

  lemma SameBasesReal(H: History, n: NodeId, a: seq<Entry>, b: seq<Entry>)
    requires SameBases(a, b) && ChainBuild.LiveReal(H, n, a)
    ensures ChainBuild.LiveReal(H, n, b)
  {
    forall e | e in b
      ensures HasClock(H, e.ce.base) && e.ce.base.creator == n
    {
      var i :| 0 <= i < |b| && b[i] == e;
      assert a[i] in a;
    }
  }

  /** Replacing learned edges by other truthful ones keeps the store honest. */
  lemma SameBasesKeeps(st: Setup, H: History, n: NodeId, log: Log, live': seq<Entry>)
    requires n in st.cfg && StoreOk(st, H, n, log) && SameBases(log.live, live') && EdgesTruthful(H, n, live')
    ensures StoreOk(st, H, n, log.(live := live'))
  {
    SameBasesWellFormed(log, log.(live := live'));
    SameBasesReal(H, n, log.live, live');
    SameBasesInOrder(H, log.live, live');
    forall c: nat
      ensures ChainKept(st, H, n, live', c)
    {
      SameBasesOnChain(log.live, live', c);
      assert ChainKept(st, H, n, log.live, c);
    }
  }

  lemma UpdateKeeps(st: Setup, H: History, n: NodeId, log: Log, ce: LocalClockEvent, edge: EventReference)
    requires n in st.cfg && StoreOk(st, H, n, log)
    requires exists e :: e in log.live && e.ce == ce
    requires TruthfulEdge(H, n, ce.base.hash, edge)
    ensures StoreOk(st, H, n, log.(live := Update(log.live, ce.(referencing := ce.referencing + [edge]))))
  {
    var live' := Update(log.live, ce.(referencing := ce.referencing + [edge]));
    forall i | 0 <= i < |live'|
      ensures live'[i].at == log.live[i].at && live'[i].ce.base == log.live[i].ce.base
      ensures forall r :: r in live'[i].ce.referencing ==> TruthfulEdge(H, n, live'[i].ce.base.hash, r)
    {
      UpdateEntry(H, n, log, ce, edge, i);
    }
    SameBasesKeeps(st, H, n, log, live');
  }

  lemma EdgeKeeps(st: Setup, H: History, n: NodeId, log: Log, from: NodeId, chain: nat, h: Hash, theirs: Hash)
    requires n in st.cfg && Ok(st, H) && StoreOk(st, H, n, log) && NoteTrue(H, from, n, chain, h, theirs)
    ensures StoreOk(st, H, n, log.(live := LearnEdge(log.live, EventReference(from, h), theirs)))
  {
    var local := ByHash(log.live, theirs);
    if local.Some? && EventReference(from, h) !in local.value.ce.referencing {
      assert theirs != [] by {
        ChainBuild.ClockPlace(st, H, local.value.ce.base);
        OkAt(st, H, IndexOf(H, theirs));
      }
      assert TruthfulEdge(H, n, theirs, EventReference(from, h));
      UpdateKeeps(st, H, n, log, local.value.ce, EventReference(from, h));
    }
  }

  lemma TipKeeps(H: History, nbrs: seq<Neighbor>, from: NodeId, to: NodeId, chain: nat, h: Hash, theirs: Hash)
    requires forall x :: x in nbrs ==> TipsKnown(H, x)
    requires NoteTrue(H, from, to, chain, h, theirs)
    ensures forall x :: x in LearnTip(nbrs, from, chain, h) ==> TipsKnown(H, x)
  {
    assert IsClockOn(H, EventReference(from, h), chain);
    var k := NeighborAt(nbrs, from);
    if k >= 0 {
      var nb := nbrs[k].(tips := SetTip(nbrs[k].tips, chain, h));
      assert nbrs[k] in nbrs;
      assert TipsKnown(H, nb);
    }
  }

  lemma NotificationKeeps(st: Setup, H: History, n: NodeId, s: NodeState, from: NodeId, chain: nat, h: Hash, theirs: Hash)
    requires Ok(st, H) && NodeOk(st, H, n, s) && NoteTrue(H, from, n, chain, h, theirs)
    ensures NodeOk(st, H, n, OnNotification(s, from, chain, h, theirs))
  {
    TipKeeps(H, s.nbrs, from, n, chain, h, theirs);
    EdgeKeeps(st, H, n, s.log, from, chain, h, theirs);
    EdgeTails(st, H, n, s.log, s.tails, EventReference(from, h), theirs);
  }

  lemma EdgeSameBases(log: Log, edge: EventReference, theirs: Hash)
    requires WellFormed(log)
    ensures SameBases(log.live, LearnEdge(log.live, edge, theirs))
  {
    var local := ByHash(log.live, theirs);
    if local.Some? {
      forall f | f in log.live && f.ce.base.hash == local.value.ce.base.hash
        ensures f == local.value
      {
        SameHashSamePlace(log, local.value, f);
      }
    }
  }

  lemma SameBasesReferenced(a: seq<Entry>, b: seq<Entry>, h: Hash, c: nat)
    requires SameBases(a, b) && ReferencedBy(b, h, c)
    ensures ReferencedBy(a, h, c)
  {
    var e :| e in b && e.ce.base.chain == c && Mentions(e.ce.base.refs, h);
    var i :| 0 <= i < |b| && b[i] == e;
    assert a[i] in a;
  }

  /** A learned edge changes nothing a clock event itself references. */
  lemma EdgeTails(st: Setup, H: History, n: NodeId, log: Log, tails: seq<seq<Event>>, edge: EventReference, theirs: Hash)
    requires n in st.cfg && WellFormed(log) && TailsOk(st, H, n, log.live, tails)
    ensures TailsOk(st, H, n, LearnEdge(log.live, edge, theirs), tails)
  {
    hide ReferencedBy, LearnEdge, WellFormed;
    var live' := LearnEdge(log.live, edge, theirs);
    EdgeSameBases(log, edge, theirs);
    forall c | 0 <= c < |tails|
      ensures TailOk(H, n, live', c, tails[c])
    {
      assert TailOk(H, n, log.live, c, tails[c]);
      forall e | e in tails[c] && ReferencedBy(live', e.hash, c)
        ensures false
      {
        SameBasesReferenced(log.live, live', e.hash, c);
      }
    }
  }

  // ---------------------------------------------------------------------------
  // requests, responses, queries
  // ---------------------------------------------------------------------------

  lemma SeedReal(H: History, e: Event)
    requires HasEvent(H, e)
    ensures RealChain(H, EventChain(e, [], []))
  {
  }

  lemma RealAttaches(st: Setup, H: History, n: NodeId, s: NodeState, ch: EventChain)
    requires Ok(st, H) && NodeOk(st, H, n, s) && RealChain(H, ch)
    ensures Attachable(Trust(st.cr, n, Some(H)), s.log.live, ch)
  {
    ChainBuild.EncloseReal(st, H, s.log.live, n, ch);
  }

  lemma {:induction false} ForwardsAreRequests(nbrs: seq<Neighbor>, self: NodeId, hops: seq<NodeId>, incoming: seq<NodeId>, msg: Payload)
    requires msg.ChainRequest?
    ensures forall x :: x in Forwards(nbrs, self, hops, incoming, msg) ==> x.msg == msg
  {
    if hops != [] {
      ForwardsAreRequests(nbrs, self, Front(hops), incoming, msg);
    }
  }

  lemma FloodIsRequests(s: NodeState, m: Payload, rnd: nat -> nat)
    requires m.ChainRequest?
    ensures forall x :: x in FloodRequest(s, m, rnd) ==> x.msg.ChainRequest?
  {
    var hops := Router.NextHops(s.cfg, s.id, s.log.live, s.nbrs, s.routes, s.timed, m.event.creator, m.range, rnd);
    ForwardsAreRequests(s.nbrs, s.id, hops, m.path, ChainRequest(m.originator, m.event, m.range, m.hopLimit, m.path + [s.id]));
  }

  /** What a node may send: requests, or responses carrying real chains. */
  ghost predicate SendsReal(H: History, out: seq<Send>) {
    forall x :: x in out ==> x.msg.ChainRequest? || (x.msg.ChainResponse? && RealChain(H, x.msg.eventChain))
  }

  lemma SeenIsIrrelevant(st: Setup, H: History, n: NodeId, s: NodeState, seen: SeenTable)
    requires NodeOk(st, H, n, s)
    ensures NodeOk(st, H, n, s.(seen := seen))
  {
  }

  lemma OwnStore(st: Setup, H: History, n: NodeId, s: NodeState)
    requires NodeOk(st, H, n, s)
    ensures s.id == n && WellFormed(s.log) && s.log.events == EventsOf(H, n) && ChainBuild.LiveReal(H, n, s.log.live)
  {
  }

  lemma CreatorRepliesReal(st: Setup, H: History, n: NodeId, s: NodeState, from: NodeId, m: Payload, now: Timestamp, rnd: nat -> nat)
    requires Ok(st, H) && NodeOk(st, H, n, s) && m.ChainRequest? && m.event.creator == n
    ensures OnRequest(s, from, m, now, rnd).0 == s && SendsReal(H, OnRequest(s, from, m, now, rnd).1)
  {
    hide NodeOk, Ok, RealChain, ChainBuild.Splice, EventsOf, EventByHash, HasEvent, ChainBuild.LiveReal, Router.IsNeighbor, WellFormed, FloodRequest;
    OwnStore(st, H, n, s);
    var local := EventByHash(s.log.events, m.event.hash);
    if local.Some? {
      EventsOfMembers(H, n, local.value);
      SeedReal(H, local.value);
      ChainBuild.SpliceReal(st, H, s.log, n, from, EventChain(local.value, [], []));
    }
  }

  lemma RequestKeeps(st: Setup, H: History, n: NodeId, s: NodeState, from: NodeId, m: Payload, now: Timestamp, rnd: nat -> nat)
    requires Ok(st, H) && NodeOk(st, H, n, s) && m.ChainRequest?
    ensures NodeOk(st, H, n, OnRequest(s, from, m, now, rnd).0) && SendsReal(H, OnRequest(s, from, m, now, rnd).1)
  {
    if m.event.creator == n {
      CreatorRepliesReal(st, H, n, s, from, m, now, rnd);
    } else {
      SeenIsIrrelevant(st, H, n, s, OnRequest(s, from, m, now, rnd).0.seen);
      FloodIsRequests(s, m, rnd);
    }
  }

  lemma ResponseKeeps(st: Setup, H: History, n: NodeId, s: NodeState, from: NodeId, m: Payload)
    requires Ok(st, H) && NodeOk(st, H, n, s) && m.ChainResponse? && RealChain(H, m.eventChain)
    ensures NodeOk(st, H, n, OnResponse(s, st.cr, from, m).0) && SendsReal(H, OnResponse(s, st.cr, from, m).1)
  {
    hide StoreOk, TailsOk, TipsKnown, DiscOk, Ok, RealChain, ChainBuild.Splice, ChainBuild.LiveReal;
    hide Discovery.ComeHome, Router.IsNeighbor, EventsOf, WellFormed;
    OwnStore(st, H, n, s);
    if m.originator == n {
      RealAttaches(st, H, n, s, m.eventChain);
      ComeHomeOk(Trust(st.cr, n, Some(H)), s.disc, s.log.live, m.eventChain);
    } else if m.path != [] {
      ChainBuild.SpliceReal(st, H, s.log, n, from, m.eventChain);
    }
  }

  lemma PacketKeeps(st: Setup, H: History, n: NodeId, s: NodeState, p: Packet, now: Timestamp, rnd: nat -> nat)
    requires Ok(st, H) && NodeOk(st, H, n, s) && PacketOk(H, p) && p.to == n
    ensures NodeOk(st, H, n, OnPacket(s, st.cr, p.from, p.msg, now, rnd).0)
    ensures SendsReal(H, OnPacket(s, st.cr, p.from, p.msg, now, rnd).1)
  {
    if Router.IsNeighbor(s.nbrs, p.from) {
      match p.msg
      case ClockNotification(chain, h, theirs) => NotificationKeeps(st, H, n, s, p.from, chain, h, theirs);
      case ChainRequest(_, _, _, _, _) => RequestKeeps(st, H, n, s, p.from, p.msg, now, rnd);
      case ChainResponse(_, _, _) => ResponseKeeps(st, H, n, s, p.from, p.msg);
    }
  }

  lemma QueryKeeps(st: Setup, H: History, n: NodeId, s: NodeState, e: Event, range: TimeRange, w: Discovery.Waiter, now: Timestamp, rnd: nat -> nat)
    requires Ok(st, H) && NodeOk(st, H, n, s) && (e.creator == n ==> HasEvent(H, e))
    ensures var (s', out) := DiscoverChain(s, st.cr, e, range, w, now, rnd); NodeOk(st, H, n, s') && SendsReal(H, out)
  {
    if e.creator == n {
      SeedReal(H, e);
      RealAttaches(st, H, n, s, EventChain(e, [], []));
    }
    AskChainOk(Trust(st.cr, n, Some(H)), s.disc, s.log.live, e, range, w, now);
    FloodIsRequests(s, Request(s, e, range), rnd);
  }

  lemma BoundsKeeps(st: Setup, H: History, n: NodeId, s: NodeState, e: Event, range: TimeRange, tok: nat, now: Timestamp, rnd: nat -> nat)
    requires Ok(st, H) && NodeOk(st, H, n, s) && (e.creator == n ==> HasEvent(H, e))
    ensures var (s', out) := DiscoverBounds(s, st.cr, e, range, tok, now, rnd); NodeOk(st, H, n, s') && SendsReal(H, out)
  {
    if e.creator == n {
      SeedReal(H, e);
      RealAttaches(st, H, n, s, EventChain(e, [], []));
    }
    AskBoundsOk(Trust(st.cr, n, Some(H)), s.disc, s.log.live, e, range, tok, now);
    FloodIsRequests(s, Request(s, e, range), rnd);
  }

  lemma JoinOrderOk(t: Trust, d: Discovery.Disc, live: seq<Entry>, e1: Event, e2: Event, range: TimeRange, tok: nat, now: Timestamp)
    requires DiscOk(t, d) && Discovery.OrderAt(d.orders, e1.hash, e2.hash) >= 0
    ensures DiscOk(t, Discovery.AskOrder(d, t.cr, t.id, live, e1, e2, range, tok, now))
  {
    assert OrderOk(t, d.orders[Discovery.OrderAt(d.orders, e1.hash, e2.hash)]);
  }

  lemma OrderKeeps(st: Setup, H: History, n: NodeId, s: NodeState, e1: Event, e2: Event, range: TimeRange, tok: nat, now: Timestamp,
                   rnd1: nat -> nat, rnd2: nat -> nat)
    requires Ok(st, H) && NodeOk(st, H, n, s)
    requires (e1.creator == n ==> HasEvent(H, e1)) && (e2.creator == n ==> HasEvent(H, e2))
    ensures var (s', out) := DiscoverOrder(s, st.cr, e1, e2, range, tok, now, rnd1, rnd2); NodeOk(st, H, n, s') && SendsReal(H, out)
  {
    if Discovery.OrderAt(s.disc.orders, e1.hash, e2.hash) >= 0 {
      JoinOrderOk(Trust(st.cr, n, Some(H)), s.disc, s.log.live, e1, e2, range, tok, now);
    } else {
      var s1 := s.(disc := s.disc.(orders := s.disc.orders + [Discovery.OrderEntry(now, e1, e2, Undetermined, Discovery.InProgress, [tok])]));
      QueryKeeps(st, H, n, s1, e1, range, Discovery.Node, now, rnd1);
      var s2 := DiscoverChain(s1, st.cr, e1, range, Discovery.Node, now, rnd1).0;
      QueryKeeps(st, H, n, s2, e2, range, Discovery.Node, now, rnd2);
    }
  }

  lemma {:induction false} PruneAllKeeps(st: Setup, H: History, n: NodeId, log: Log, k: nat)
    requires n in st.cfg && StoreOk(st, H, n, log)
    ensures StoreOk(st, H, n, PruneAll(log, st.cfg[n], k))
  {
    hide StoreOk;
    if k > 0 {
      PruneAllKeeps(st, H, n, log, k - 1);
      PruneKeeps(st, H, n, PruneAll(log, st.cfg[n], k - 1), k - 1);
    }
  }

  // ---------------------------------------------------------------------------
  // every step, every run
  // ---------------------------------------------------------------------------

  lemma StartInv(st: Setup)
    ensures Inv(st, Start(st))
  {
    var w := Start(st);
    forall n | n in w.nodes
      ensures NodeOk(st, w.H, n, w.nodes[n])
    {
      assert w.nodes[n] == Fresh(n, st.cfg[n]);
      forall c: nat
        ensures ChainKept(st, [], n, EMPTY_LOG.live, c)
      {
      }
    }
  }

  lemma NodeReplaced(st: Setup, H: History, nodes: map<NodeId, NodeState>, n: NodeId, s: NodeState)
    requires NodesOk(st, H, nodes) && n in nodes && NodeOk(st, H, n, s)
    ensures NodesOk(st, H, nodes[n := s])
  {
    hide NodeOk;
    var nodes' := nodes[n := s];
    assert nodes'.Keys == nodes.Keys;
    forall m | m in nodes'
      ensures NodeOk(st, H, m, nodes'[m])
    {
      if m != n {
        assert nodes'[m] == nodes[m];
      }
    }
  }

  lemma NodesGrow(st: Setup, H: History, x: Item, nodes: map<NodeId, NodeState>, s: NodeState)
    requires NodesOk(st, H, nodes) && x.Creator() in nodes && NodeOk(st, H + [x], x.Creator(), s)
    ensures NodesOk(st, H + [x], nodes[x.Creator() := s])
  {
    hide NodeOk;
    var nodes' := nodes[x.Creator() := s];
    assert nodes'.Keys == nodes.Keys;
    forall m | m in nodes'
      ensures NodeOk(st, H + [x], m, nodes'[m])
    {
      if m != x.Creator() {
        OtherNodeGrows(st, H, x, m, nodes[m]);
      }
    }
  }

  lemma NetGrows(H: History, x: Item, net: seq<Packet>)
    requires NetOk(H, net)
    ensures NetOk(H + [x], net)
  {
    forall p | p in net
      ensures PacketOk(H + [x], p)
    {
      PacketGrows(H, x, p);
    }
  }

  lemma PostedReal(H: History, n: NodeId, out: seq<Send>, trail: seq<NodeId>)
    requires SendsReal(H, out)
    ensures NetOk(H, Posted(n, out, trail))
  {
    forall p | p in Posted(n, out, trail)
      ensures PacketOk(H, p)
    {
      var i :| 0 <= i < |out| && p == Posted(n, out, trail)[i];
      assert out[i] in out;
    }
  }

  lemma OverlayKeeps(st: Setup, H: History, n: NodeId, s: NodeState, peer: NodeId, dest: NodeId, hop: NodeId, validity: TimeRange)
    requires NodeOk(st, H, n, s)
    ensures NodeOk(st, H, n, AddNeighbor(s, peer))
    ensures NodeOk(st, H, n, LearnRoute(s, dest, hop))
    ensures NodeOk(st, H, n, LearnRouteAt(s, dest, hop, validity))
  {
    assert TipsKnown(H, Neighbor(peer, []));
    hide StoreOk, TailsOk, DiscOk, TipsKnown, Router.IsNeighbor;
  }

  lemma GcKeeps(st: Setup, H: History, n: NodeId, s: NodeState)
    requires NodeOk(st, H, n, s)
    ensures NodeOk(st, H, n, Gc(s))
  {
    PruneAllKeeps(st, H, n, s.log, |s.cfg.keeps|);
    PruneAllDrops(s.log, s.cfg, |s.cfg.keeps|);
    TailsThin(st, H, n, s.log.live, Gc(s).log.live, s.tails);
  }

  lemma {:induction false} PruneAllDrops(log: Log, cfg: NodeConfig, k: nat)
    ensures forall e :: e in PruneAll(log, cfg, k).live ==> e in log.live
  {
    if k > 0 {
      PruneAllDrops(log, cfg, k - 1);
      PruneDrops(PruneAll(log, cfg, k - 1), k - 1, cfg.Keep(k - 1));
    }
  }

  lemma ExpireKeeps(st: Setup, H: History, n: NodeId, s: NodeState, now: Timestamp)
    requires NodeOk(st, H, n, s)
    ensures NodeOk(st, H, n, ExpireAll(s, now))
  {
    PurgeOk(Trust(st.cr, n, Some(H)), s.disc, now - s.cfg.expiry);
  }

  // ---------------------------------------------------------------------------
  // restart
  // ---------------------------------------------------------------------------

  /** What is in a chain's tail was published after every tick of that chain. */
  lemma {:induction false} TailAfterTicks(H: History, n: NodeId, c: nat, e: Event, j: nat)
    requires e in TailOf(H, n, c) && j < |H| && TickOn(H, j, n, c)
    ensures exists k :: j < k < |H| && H[k].Ev? && H[k].e == e
  {
    if e in TailOf(Front(H), n, c) && j < |H| - 1 {
      TailAfterTicks(Front(H), n, c, e, j);
      var k :| j < k < |H| - 1 && Front(H)[k].Ev? && Front(H)[k].e == e;
      assert H[k] == Front(H)[k];
    } else if j == |H| - 1 {
      assert false;
    } else {
      assert Last(H).Ev? && Last(H).e == e;
    }
  }

  /** ... so no clock event of the chain references it. */
  lemma TailUnreferenced(st: Setup, H: History, n: NodeId, live: seq<Entry>, c: nat, e: Event)
    requires Ok(st, H) && ChainBuild.LiveReal(H, n, live) && e in TailOf(H, n, c)
    ensures !ReferencedBy(live, e.hash, c)
  {
    if ReferencedBy(live, e.hash, c) {
      var f :| f in live && f.ce.base.chain == c && Mentions(f.ce.base.refs, e.hash);
      var j :| 0 <= j < |H| && H[j].Ck? && H[j].c == f.ce.base;
      var m :| 0 <= m < |f.ce.base.refs| && f.ce.base.refs[m].hash == e.hash;
      ReferencesGoBack(st, H, j, f.ce.base.refs[m]);
      assert TickOn(H, j, n, c);
      TailAfterTicks(H, n, c, e, j);
      var k :| j < k < |H| && H[k].Ev? && H[k].e == e;
      Unique(st, H, k);
    }
  }

  lemma {:induction false} RebuildSplits(P: seq<Event>, T: seq<Event>, live: seq<Entry>, c: nat)
    requires forall e :: e in T ==> !ReferencedBy(live, e.hash, c)
    ensures RebuiltTail(P + T, live, c) == RebuiltTail(P, live, c) + T
  {
    if T == [] {
      assert P + T == P;
    } else {
      RebuildSplits(P, Front(T), live, c);
      assert Front(P + T) == P + Front(T) && Last(P + T) == Last(T);
      assert !ReferencedBy(live, Last(T).hash, c);
    }
  }

  lemma {:induction false} RebuiltIsSuffix(events: seq<Event>, live: seq<Entry>, c: nat)
    ensures var r := RebuiltTail(events, live, c); |r| <= |events| && r == events[|events| - |r|..]
    ensures forall e :: e in RebuiltTail(events, live, c) ==> !ReferencedBy(live, e.hash, c)
  {
    hide ReferencedBy;
    if events != [] {
      RebuiltIsSuffix(Front(events), live, c);
    }
  }

  /** What a restart rebuilds covers every event the chain has not referenced yet. */
  lemma RebuiltTailOk(st: Setup, H: History, n: NodeId, log: Log, c: nat)
    requires n in st.cfg && Ok(st, H) && StoreOk(st, H, n, log)
    ensures TailOk(H, n, log.live, c, RebuiltTail(log.events, log.live, c))
  {
    hide ReferencedBy, Ok, WellFormed, ChainKept, EdgesTruthful, InOrder, EventsOf, TailOf, RebuiltTail;
    var E, T := log.events, TailOf(H, n, c);
    forall e | e in T
      ensures !ReferencedBy(log.live, e.hash, c)
    {
      TailUnreferenced(st, H, n, log.live, c, e);
    }
    TailIsSuffix(H, n, c);
    var P := E[..|E| - |T|];
    assert E == P + T;
    RebuildSplits(P, T, log.live, c);
    RebuiltIsSuffix(E, log.live, c);
  }

  lemma RestartKeeps(st: Setup, H: History, n: NodeId, s: NodeState)
    requires Ok(st, H) && NodeOk(st, H, n, s)
    ensures NodeOk(st, H, n, Restarted(s))
  {
    hide Ok, StoreOk, TailOk, TipsKnown, RebuiltTail;
    var tails := RebuiltTails(s.log, s.cfg.NumChains());
    forall c | 0 <= c < |tails|
      ensures TailOk(H, n, s.log.live, c, tails[c])
    {
      RebuiltTailOk(st, H, n, s.log, c);
    }
  }

  /** The acting node is honest afterwards, in the history as it is afterwards, and so is
      everything it sends. */
  ghost predicate EffectOk(st: Setup, w: World, a: Action)
    requires Enabled(st, w, a) && IsNodeStep(a)
  {
    var (s, out) := Effect(st, w, a);
    && NodeOk(st, Recorded(st, w, a), Actor(w, a), s)
    && NetOk(Recorded(st, w, a), Posted(Actor(w, a), out, TrailOf(w, a)))
  }

  lemma OverlayEffect(st: Setup, w: World, a: Action)
    requires Inv(st, w) && Enabled(st, w, a) && (a.AddPeer? || a.AddRoute? || a.AddTimedRoute?)
    ensures EffectOk(st, w, a)
  {
    hide NodeOk, PacketOk, Ok, AddNeighbor, LearnRoute, LearnRouteAt;
    var n, s := a.n, w.nodes[a.n];
    if a.AddPeer? {
      OverlayKeeps(st, w.H, n, s, a.peer, n, n, TimeRange(0, 0));
    } else if a.AddRoute? {
      OverlayKeeps(st, w.H, n, s, n, a.dest, a.hop, TimeRange(0, 0));
    } else {
      OverlayKeeps(st, w.H, n, s, n, a.dest, a.hop, a.validity);
    }
  }

  lemma QuietEffect(st: Setup, w: World, a: Action)
    requires Inv(st, w) && Enabled(st, w, a) && (a.DoGc? || a.DoExpire? || a.Restart?)
    ensures EffectOk(st, w, a)
  {
    hide NodeOk, PacketOk, Ok, Gc, ExpireAll, Restarted;
    if a.DoGc? {
      GcKeeps(st, w.H, a.n, w.nodes[a.n]);
    } else if a.Restart? {
      RestartKeeps(st, w.H, a.n, w.nodes[a.n]);
    } else {
      ExpireKeeps(st, w.H, a.n, w.nodes[a.n], a.now);
    }
  }

  lemma PublishEffect(st: Setup, w: World, a: Action)
    requires Inv(st, w) && HonestSigner(st.cr) && Enabled(st, w, a) && a.DoPublish?
    ensures Ok(st, Recorded(st, w, a)) && EffectOk(st, w, a)
  {
    hide NodeOk, PacketOk, Publish, Ok;
    PublishedIsOk(st, w.H, a.n, w.nodes[a.n], a.data, a.salt, a.now);
    PublishKeeps(st, w.H, a.n, w.nodes[a.n], a.data, a.salt, a.now);
  }

  lemma TickEffect(st: Setup, w: World, a: Action)
    requires Inv(st, w) && HonestSigner(st.cr) && Enabled(st, w, a) && a.DoTick?
    ensures Ok(st, Recorded(st, w, a)) && EffectOk(st, w, a)
  {
    assert w.nodes[a.n].id == a.n;
    hide NodeOk, PacketOk, Tick, Ok, NewClock;
    TickedIsOk(st, w.H, a.n, w.nodes[a.n], a.chain, a.salt, a.now);
    TickKeeps(st, w.H, a.n, w.nodes[a.n], a.chain, a.salt, a.now);
    NotificationsTrue(w.H, w.nodes[a.n], st.cr, a.chain, a.salt, a.now);
  }

  lemma DeliverEffect(st: Setup, w: World, a: Action)
    requires Inv(st, w) && Enabled(st, w, a) && a.Deliver?
    ensures EffectOk(st, w, a)
  {
    hide NodeOk, OnPacket, Ok;
    var p := w.net[a.k];
    assert p in w.net;
    PacketKeeps(st, w.H, p.to, w.nodes[p.to], p, a.now, a.rnd);
    PostedReal(w.H, p.to, Effect(st, w, a).1, TrailOf(w, a));
  }

  lemma QueryEffect(st: Setup, w: World, a: Action)
    requires Inv(st, w) && Enabled(st, w, a) && (a.QueryChain? || a.QueryBounds? || a.QueryOrder?)
    ensures EffectOk(st, w, a)
  {
    hide NodeOk, PacketOk, DiscoverChain, DiscoverBounds, DiscoverOrder;
    var n, s := a.n, w.nodes[a.n];
    if a.QueryChain? {
      QueryKeeps(st, w.H, n, s, a.event, a.range, Discovery.Client(a.tok), a.now, a.rnd);
    } else if a.QueryBounds? {
      BoundsKeeps(st, w.H, n, s, a.event, a.range, a.tok, a.now, a.rnd);
    } else {
      OrderKeeps(st, w.H, n, s, a.event, a.event2, a.range, a.tok, a.now, a.rnd, a.rnd2);
    }
    PostedReal(w.H, n, Effect(st, w, a).1, []);
  }

  lemma AnyEffect(st: Setup, w: World, a: Action)
    requires Inv(st, w) && HonestSigner(st.cr) && Enabled(st, w, a) && IsNodeStep(a)
    ensures Ok(st, Recorded(st, w, a)) && EffectOk(st, w, a)
  {
    hide NodeOk, PacketOk, Effect, EffectOk, Ok;
    if a.DoPublish? {
      PublishEffect(st, w, a);
    } else if a.DoTick? {
      TickEffect(st, w, a);
    } else if a.Deliver? {
      DeliverEffect(st, w, a);
    } else if a.QueryChain? || a.QueryBounds? || a.QueryOrder? {
      QueryEffect(st, w, a);
    } else if a.DoGc? || a.DoExpire? || a.Restart? {
      QuietEffect(st, w, a);
    } else {
      OverlayEffect(st, w, a);
    }
  }

  /** The history either stays or gains one item of node `n`; everything that was true stays true. */
  lemma CarryOver(st: Setup, H: History, H': History, nodes: map<NodeId, NodeState>, net: seq<Packet>, n: NodeId, s: NodeState)
    requires H' == H || (|H'| > 0 && H' == H + [Last(H')] && Last(H').Creator() == n)
    requires NodesOk(st, H, nodes) && NetOk(H, net) && n in nodes && NodeOk(st, H', n, s)
    ensures NodesOk(st, H', nodes[n := s]) && NetOk(H', net)
  {
    hide NodeOk, PacketOk, NodesOk, NetOk;
    if H' == H {
      NodeReplaced(st, H, nodes, n, s);
    } else {
      NodesGrow(st, H, Last(H'), nodes, s);
      NetGrows(H, Last(H'), net);
    }
  }

  lemma RecordedGrows(st: Setup, w: World, a: Action)
    requires NodesOk(st, w.H, w.nodes) && Enabled(st, w, a) && IsNodeStep(a)
    ensures var H' := Recorded(st, w, a);
      H' == w.H || (|H'| > 0 && H' == w.H + [Last(H')] && Last(H').Creator() == Actor(w, a))
  {
    if a.DoPublish? || a.DoTick? {
      assert w.nodes[a.n].id == a.n;
    }
  }

  lemma RemainingOk(w: World, a: Action, H: History)
    requires NetOk(H, w.net) && (a.Deliver? || a.Lose? ==> a.k < |w.net|)
    ensures NetOk(H, Remaining(w, a))
  {
    hide PacketOk;
  }

  lemma StepInv(st: Setup, w: World, a: Action)
    requires Inv(st, w) && HonestSigner(st.cr) && Enabled(st, w, a)
    ensures Inv(st, Step(st, w, a))
  {
    hide NodeOk, PacketOk, Ok, Effect, Recorded, NodesOk;
    if IsNodeStep(a) {
      AnyEffect(st, w, a);
      RecordedGrows(st, w, a);
      CarryOver(st, w.H, Recorded(st, w, a), w.nodes, w.net, Actor(w, a), Effect(st, w, a).0);
      RemainingOk(w, a, Recorded(st, w, a));
    } else {
      RemainingOk(w, a, w.H);
      assert w.net[a.k] in w.net;
    }
  }

  lemma {:induction false} RunInv(st: Setup, run: seq<Action>, w: World)
    requires HonestSigner(st.cr) && Runs(st, run, w)
    ensures Inv(st, w)
  {
    hide Inv, Step;
    if run == [] {
      StartInv(st);
    } else {
      var v :| Runs(st, Front(run), v) && Enabled(st, v, Last(run)) && w == Step(st, v, Last(run));
      RunInv(st, Front(run), v);
      StepInv(st, v, Last(run));
    }
  }

  lemma ReachableInv(st: Setup, w: World)
    requires HonestSigner(st.cr) && Reachable(st, w)
    ensures Inv(st, w)
  {
    hide Inv, Runs;
    var run: seq<Action> :| Runs(st, run, w);
    RunInv(st, run, w);
  }
}
