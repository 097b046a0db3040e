/** What a hop's splice means in an honest network: its legs run along one chain of the node, and
    their ends are cross-linked with the neighbour, so that the neighbour can carry on. */
module Hops {
  import opened Domain
  import opened Hashing
  import opened History
  import opened Log
  import opened NodeModel
  import opened Network
  import opened Invariant
  import opened Walks
  import ChainBuild
  import Hydrate
  import Preservation

  // ---------------------------------------------------------------------------
  // places on a chain
  // ---------------------------------------------------------------------------

  /** A node's clock events on one chain were created in their order. */
  lemma {:induction false} ChainInOrder(st: Setup, H: History, n: NodeId, c: nat, i: nat, j: nat)
    requires Ok(st, H) && i < j < |ClocksOn(H, n, c)|
    ensures var L := ClocksOn(H, n, c); 0 <= IndexOf(H, L[i].hash) < IndexOf(H, L[j].hash)
    decreases j
  {
    var L := ClocksOn(H, n, c);
    if i < j - 1 {
      ChainInOrder(st, H, n, c, i, j - 1);
    }
    ChainLinked(st, H, n, c, j);
    ClocksOnMembers(H, n, c, L[j]);
    ChainBuild.ClockPlace(st, H, L[j]);
    assert L[j].refs[0] in L[j].refs;
  }

  /** A live clock event has its place on its chain. */
  lemma PlaceOnChain(st: Setup, H: History, n: NodeId, log: Log, e: Entry) returns (k: nat)
    requires n in st.cfg && StoreOk(st, H, n, log) && e in log.live
    ensures var L := ClocksOn(H, n, e.ce.base.chain); k < |L| && L[k] == e.ce.base
  {
    ClocksOnMembers(H, n, e.ce.base.chain, e.ce.base);
    var L := ClocksOn(H, n, e.ce.base.chain);
    k :| 0 <= k < |L| && L[k] == e.ce.base;
  }

  lemma {:induction false} LiveOnChain(live: seq<Entry>, e: Entry)
    requires e in live
    ensures e.ce.base in OnChain(live, e.ce.base.chain)
  {
    if e != Last(live) {
      assert e in Front(live);
      LiveOnChain(Front(live), e);
    }
  }

  /** What comes later on the chain than a live clock event is live too. */
  lemma LaterIsLive(st: Setup, H: History, n: NodeId, log: Log, e: Entry, k: nat, m: nat) returns (f: Entry)
    requires n in st.cfg && Ok(st, H) && StoreOk(st, H, n, log) && e in log.live
    requires var L := ClocksOn(H, n, e.ce.base.chain); k <= m < |L| && L[k] == e.ce.base
    ensures f in log.live && f.ce.base == ClocksOn(H, n, e.ce.base.chain)[m]
  {
    hide Ok, ClocksOn, OnChain, WellFormed, ChainBuild.LiveReal, EdgesTruthful, InOrder, EventsOf, IndexOf;
    var c := e.ce.base.chain;
    var L, S := ClocksOn(H, n, c), OnChain(log.live, c);
    assert ChainKept(st, H, n, log.live, c);
    LiveOnChain(log.live, e);
    var a := SuffixStart(L, S, st.cfg[n].Keep(c));
    var i :| 0 <= i < |S| && S[i] == e.ce.base;
    assert L[a + i] == L[k];
    SamePlace(st, H, n, c, a + i, k);
    assert S[m - a] == L[m];
    Hydrate.OnChainMembers(log.live, c, L[m]);
    f :| f in log.live && f.ce.base == L[m];
  }

  lemma SuffixStart(L: seq<ClockEvent>, S: seq<ClockEvent>, keep: nat) returns (a: nat)
    requires S == Retained(L, keep)
    ensures a <= |L| && S == L[a..]
  {
    a := |L| - |S|;
  }

  lemma SamePlace(st: Setup, H: History, n: NodeId, c: nat, i: nat, j: nat)
    requires Ok(st, H) && i < |ClocksOn(H, n, c)| && j < |ClocksOn(H, n, c)| && ClocksOn(H, n, c)[i] == ClocksOn(H, n, c)[j]
    ensures i == j
  {
    if i < j {
      ChainInOrder(st, H, n, c, i, j);
    } else if j < i {
      ChainInOrder(st, H, n, c, j, i);
    }
  }

  // ---------------------------------------------------------------------------
  // predecessors and successors
  // ---------------------------------------------------------------------------

  /** What a clock event references: clock events of its own chain, or events of its creator. */
  lemma TickReference(st: Setup, H: History, j: nat, r: EventReference)
    requires Ok(st, H) && j < |H| && H[j].Ck? && r in H[j].c.refs
    ensures IsClockOn(H, r, H[j].c.chain) || exists k :: 0 <= k < |H| && H[k].Ev? && EventRef(H[k].e) == r && r.creator == H[j].c.creator
  {
    var c, G := H[j].c, H[..j];
    var t := TickRefsAt(st, H, j);
    var i :| 0 <= i < |c.refs| && c.refs[i] == r;
    var prev := LastRef(ClocksOn(G, c.creator, c.chain));
    hide Ok, IsClockOn, EventsOf, ClocksOn, TailOf;
    if i < |prev| {
      assert c.refs[..|prev|][i] == r;
      LastIsClock(G, c.creator, c.chain, r);
      ClockOnPrefix(H, j, r, c.chain);
    } else if i < |c.refs| - t {
      ClockOnPrefix(H, j, r, c.chain);
    } else {
      var E := EventsOf(G, c.creator);
      var pinned := E[|E| - t..];
      assert c.refs[|c.refs| - t..][i - (|c.refs| - t)] == r;
      var e := pinned[i - (|c.refs| - t)];
      assert r == EventRef(e) && e in E;
      PublishedEarlier(H, j, c.creator, e);
    }
  }

  lemma LastIsClock(H: History, n: NodeId, c: nat, r: EventReference)
    requires r in LastRef(ClocksOn(H, n, c))
    ensures IsClockOn(H, r, c)
  {
    var x := Last(ClocksOn(H, n, c));
    ClocksOnMembers(H, n, c, x);
    var i :| 0 <= i < |H| && H[i].Ck? && H[i].c == x;
    assert ClockRef(H[i].c) == r;
  }

  lemma ClockOnPrefix(H: History, j: nat, r: EventReference, c: nat)
    requires j <= |H| && IsClockOn(H[..j], r, c)
    ensures IsClockOn(H, r, c)
  {
    var i :| 0 <= i < |H[..j]| && H[..j][i].Ck? && H[..j][i].c.chain == c && ClockRef(H[..j][i].c) == r;
    assert H[i] == H[..j][i];
  }

  lemma PublishedEarlier(H: History, j: nat, n: NodeId, e: Event)
    requires j <= |H| && e in EventsOf(H[..j], n)
    ensures e.creator == n && exists k :: 0 <= k < |H| && H[k].Ev? && H[k].e == e
  {
    EventsOfMembers(H[..j], n, e);
    var k :| 0 <= k < |H[..j]| && H[..j][k].Ev? && H[..j][k].e == e;
    assert H[k] == H[..j][k];
  }

  /** An own clock event that a clock event references is one of its chain. */
  lemma OwnReferenceSameChain(st: Setup, H: History, n: NodeId, log: Log, e: Entry, f: Entry, r: EventReference)
    requires n in st.cfg && Ok(st, H) && StoreOk(st, H, n, log) && e in log.live && f in log.live
    requires r in e.ce.base.refs && r.hash == f.ce.base.hash
    ensures f.ce.base.chain == e.ce.base.chain && IndexOf(H, f.ce.base.hash) < IndexOf(H, e.ce.base.hash)
  {
    hide StoreOk, Ok;
    LiveIsReal(st, H, n, log, e);
    LiveIsReal(st, H, n, log, f);
    ChainBuild.ClockPlace(st, H, e.ce.base);
    ChainBuild.ClockPlace(st, H, f.ce.base);
    TickReference(st, H, IndexOf(H, e.ce.base.hash), r);
    if IsClockOn(H, r, e.ce.base.chain) {
      var i :| 0 <= i < |H| && H[i].Ck? && H[i].c.chain == e.ce.base.chain && ClockRef(H[i].c) == r;
      Unique(st, H, i);
    } else {
      var k :| 0 <= k < |H| && H[k].Ev? && EventRef(H[k].e) == r;
      Unique(st, H, k);
    }
  }

  lemma LiveIsReal(st: Setup, H: History, n: NodeId, log: Log, e: Entry)
    requires n in st.cfg && StoreOk(st, H, n, log) && e in log.live
    ensures HasClock(H, e.ce.base) && e.ce.base.creator == n
  {
  }

  /** The predecessor is the clock event just before on the same chain. */
  lemma PredecessorIsPrevious(st: Setup, H: History, n: NodeId, log: Log, f: Entry, e: Entry, k: nat)
    requires n in st.cfg && Ok(st, H) && StoreOk(st, H, n, log) && e in log.live && PredecessorOf(log.live, n, f, e)
    requires var L := ClocksOn(H, n, e.ce.base.chain); k < |L| && L[k] == e.ce.base
    ensures k > 0 && f in log.live && f.ce.base == ClocksOn(H, n, e.ce.base.chain)[k - 1]
  {
    hide Ok, StoreOk, IndexOf, ClocksOn;
    var refs, c := e.ce.base.refs, e.ce.base.chain;
    var L := ClocksOn(H, n, c);
    var i :| NamesLive(log.live, n, refs, i, f) && Dead(log.live, n, refs[..i]);
    OwnReferenceSameChain(st, H, n, log, e, f, refs[i]);
    var m := PlaceOnChain(st, H, n, log, f);
    if m >= k {
      NotLater(st, H, n, c, k, m);
    }
    if m < k - 1 {
      var g := LaterIsLive(st, H, n, log, f, m, k - 1);
      ChainLinked(st, H, n, c, k);
      LiveIsReal(st, H, n, log, g);
      StillFirst(log.live, n, refs, i, f, g);
      SameHolder(st, H, n, log, f, g);
      SamePlace(st, H, n, c, m, k - 1);
    }
  }

  /** If the first reference names a live clock event, that is the one found. */
  lemma StillFirst(live: seq<Entry>, n: NodeId, refs: seq<EventReference>, i: int, f: Entry, g: Entry)
    requires NamesLive(live, n, refs, i, f) && Dead(live, n, refs[..i])
    requires g in live && refs[0] == EventReference(n, g.ce.base.hash)
    ensures i == 0 && f.ce.base.hash == g.ce.base.hash
  {
  }

  lemma SameHolder(st: Setup, H: History, n: NodeId, log: Log, f: Entry, g: Entry)
    requires n in st.cfg && StoreOk(st, H, n, log) && f in log.live && g in log.live && f.ce.base.hash == g.ce.base.hash
    ensures f == g
  {
    Preservation.SameHashSamePlace(log, f, g);
  }

  lemma NotLater(st: Setup, H: History, n: NodeId, c: nat, k: nat, m: nat)
    requires Ok(st, H) && k <= m < |ClocksOn(H, n, c)|
    ensures var L := ClocksOn(H, n, c); IndexOf(H, L[k].hash) <= IndexOf(H, L[m].hash)
  {
    if k < m {
      ChainInOrder(st, H, n, c, k, m);
    }
  }

  /** The successor is the clock event just after on the same chain. */
  lemma SuccessorIsNext(st: Setup, H: History, n: NodeId, log: Log, e: Entry, f: Entry, k: nat)
    requires n in st.cfg && Ok(st, H) && StoreOk(st, H, n, log) && e in log.live && SuccessorOf(log.live, n, e, f)
    requires var L := ClocksOn(H, n, e.ce.base.chain); k < |L| && L[k] == e.ce.base
    ensures var L := ClocksOn(H, n, e.ce.base.chain); k + 1 < |L| && f in log.live && f.ce.base == L[k + 1]
  {
    hide Ok, StoreOk, IndexOf, ClocksOn;
    var c := e.ce.base.chain;
    var L := ClocksOn(H, n, c);
    var r :| r in f.ce.base.refs && r.hash == e.ce.base.hash;
    OwnReferenceSameChain(st, H, n, log, f, e, r);
    var m := PlaceOnChain(st, H, n, log, f);
    if m <= k {
      NotLater(st, H, n, c, m, k);
    }
    if m > k + 1 {
      var g := LaterIsLive(st, H, n, log, e, k, k + 1);
      ChainLinked(st, H, n, c, k + 1);
      LiveIsReal(st, H, n, log, g);
      OnItsChain(H, n, c, k + 1);
      assert g.ce.base.refs[0] in g.ce.base.refs;
      assert Succeeds(log.live, n, e, g);
      ChainInOrder(st, H, n, c, k + 1, m);
      OrderedBySeq(st, H, n, log, f, g);
    }
  }

  lemma OnItsChain(H: History, n: NodeId, c: nat, k: nat)
    requires k < |ClocksOn(H, n, c)|
    ensures ClocksOn(H, n, c)[k].chain == c
  {
    ClocksOnMembers(H, n, c, ClocksOn(H, n, c)[k]);
  }

  lemma OrderedBySeq(st: Setup, H: History, n: NodeId, log: Log, f: Entry, g: Entry)
    requires n in st.cfg && StoreOk(st, H, n, log) && f in log.live && g in log.live && f.at <= g.at
    ensures IndexOf(H, f.ce.base.hash) <= IndexOf(H, g.ce.base.hash)
  {
    hide IndexOf;
    if f.at == g.at {
      var i :| 0 <= i < |log.live| && log.live[i] == f;
      var j :| 0 <= j < |log.live| && log.live[j] == g;
      assert i == j;
    }
  }

  // ---------------------------------------------------------------------------
  // the legs of a hop
  // ---------------------------------------------------------------------------

  /** A path of predecessors is a stretch of one chain, walked backward ... */
  lemma {:induction false} BackPathOnChain(st: Setup, H: History, n: NodeId, log: Log, p: seq<Entry>, k: nat, i: nat)
    requires n in st.cfg && Ok(st, H) && StoreOk(st, H, n, log) && BackPath(log.live, n, p) && p[0] in log.live
    requires var L := ClocksOn(H, n, p[0].ce.base.chain); k < |L| && L[k] == p[0].ce.base
    requires i < |p|
    ensures i <= k && p[i] in log.live && p[i].ce.base == ClocksOn(H, n, p[0].ce.base.chain)[k - i]
  {
    hide Ok, StoreOk, PredecessorOf;
    if i > 0 {
      BackPathOnChain(st, H, n, log, p, k, i - 1);
      OnItsChain(H, n, p[0].ce.base.chain, k - (i - 1));
      PredecessorIsPrevious(st, H, n, log, p[i], p[i - 1], k - (i - 1));
    }
  }

  /** ... and a path of successors one walked forward. */
  lemma {:induction false} ForwardPathOnChain(st: Setup, H: History, n: NodeId, log: Log, p: seq<Entry>, k: nat, i: nat)
    requires n in st.cfg && Ok(st, H) && StoreOk(st, H, n, log) && ForwardPath(log.live, n, p) && p[0] in log.live
    requires var L := ClocksOn(H, n, p[0].ce.base.chain); k < |L| && L[k] == p[0].ce.base
    requires i < |p|
    ensures var L := ClocksOn(H, n, p[0].ce.base.chain); k + i < |L| && p[i] in log.live && p[i].ce.base == L[k + i]
  {
    hide Ok, StoreOk, SuccessorOf;
    if i > 0 {
      ForwardPathOnChain(st, H, n, log, p, k, i - 1);
      OnItsChain(H, n, p[0].ce.base.chain, k + (i - 1));
      SuccessorIsNext(st, H, n, log, p[i - 1], p[i], k + (i - 1));
    }
  }

  /** The neighbour made a clock event, on the same chain, that this one references. */
  ghost predicate ReferencesClockOf(H: History, c: ClockEvent, nb: NodeId) {
    exists r :: r in c.refs && r.creator == nb && IsClockOn(H, r, c.chain)
  }

  /** The neighbour made a clock event that references this one. */
  ghost predicate ReferencedByClockOf(H: History, c: ClockEvent, nb: NodeId) {
    exists i :: 0 <= i < |H| && H[i].Ck? && H[i].c.creator == nb && ClockRef(c) in H[i].c.refs
  }

  lemma LinkIsClock(st: Setup, H: History, n: NodeId, log: Log, e: Entry, nb: NodeId)
    requires n in st.cfg && Ok(st, H) && StoreOk(st, H, n, log) && e in log.live && nb != n && Links(e.ce.base.refs, nb)
    ensures ReferencesClockOf(H, e.ce.base, nb)
  {
    hide Ok, StoreOk, IndexOf, IsClockOn;
    var r :| r in e.ce.base.refs && r.creator == nb;
    LiveIsReal(st, H, n, log, e);
    ChainBuild.ClockPlace(st, H, e.ce.base);
    TickReference(st, H, IndexOf(H, e.ce.base.hash), r);
  }

  lemma EdgeIsClock(st: Setup, H: History, n: NodeId, log: Log, e: Entry, nb: NodeId)
    requires n in st.cfg && StoreOk(st, H, n, log) && e in log.live && Links(e.ce.referencing, nb)
    ensures ReferencedByClockOf(H, e.ce.base, nb)
  {
    var r :| r in e.ce.referencing && r.creator == nb;
    assert TruthfulEdge(H, n, e.ce.base.hash, r);
    var i :| 0 <= i < |H| && H[i].Ck? && ClockRef(H[i].c) == r && EventReference(n, e.ce.base.hash) in H[i].c.refs;
  }

  /** The lower leg is a stretch of one chain that begins with the newest clock event, at or
      before the one attached, that references a clock event of the neighbour. */
  lemma LowerLegOnChain(st: Setup, H: History, n: NodeId, log: Log, nb: NodeId, front: seq<EventReference>, p: seq<Entry>) returns (c: nat, k: nat)
    requires n in st.cfg && Ok(st, H) && StoreOk(st, H, n, log) && nb != n && LowerLeg(log.live, n, nb, front, p)
    ensures var L := ClocksOn(H, n, c);
      && k < |L| && |p| <= k + 1 && Flipped(p) == L[k + 1 - |p|..k + 1] && ReferencesClockOf(H, L[k + 1 - |p|], nb)
      && forall i :: k + 1 - |p| < i <= k ==> !Links(L[i].refs, nb)
  {
    hide Ok, StoreOk, Links, ReferencesClockOf, PredecessorOf, ClocksOn;
    FirstIsLive(log.live, n, front, p[0]);
    c := p[0].ce.base.chain;
    k := PlaceOnChain(st, H, n, log, p[0]);
    var L := ClocksOn(H, n, c);
    forall i | 0 <= i < |p|
      ensures i <= k && p[i] in log.live && p[i].ce.base == L[k - i]
    {
      BackPathOnChain(st, H, n, log, p, k, i);
    }
    assert |p| - 1 <= k;
    LinkIsClock(st, H, n, log, Last(p), nb);
    var low := k + 1 - |p|;
    forall i | low < i <= k
      ensures !Links(L[i].refs, nb)
    {
      assert p[k - i].ce.base == L[i];
    }
    assert Flipped(p) == L[low..k + 1] by {
      FlippedStretch(p, L, k);
    }
  }

  lemma FirstIsLive(live: seq<Entry>, n: NodeId, front: seq<EventReference>, f: Entry)
    requires FirstNamed(live, n, front, f)
    ensures f in live
  {
  }

  lemma FlippedStretch(p: seq<Entry>, L: seq<ClockEvent>, k: nat)
    requires p != [] && |p| <= k + 1 <= |L| && forall i :: 0 <= i < |p| ==> p[i].ce.base == L[k - i]
    ensures Flipped(p) == L[k + 1 - |p|..k + 1]
  {
    var low := k + 1 - |p|;
    forall i | 0 <= i < |p|
      ensures Flipped(p)[i] == L[low..k + 1][i]
    {
      assert p[|p| - 1 - i].ce.base == L[k - (|p| - 1 - i)];
    }
  }

  /** The upper leg is a stretch of one chain that ends in the oldest clock event, at or after
      the one attached, that the neighbour is known to reference. */
  lemma UpperLegOnChain(st: Setup, H: History, n: NodeId, log: Log, nb: NodeId, back: Hash, q: seq<Entry>) returns (c: nat, k: nat)
    requires n in st.cfg && Ok(st, H) && StoreOk(st, H, n, log) && UpperLeg(log.live, n, nb, back, q)
    ensures var L := ClocksOn(H, n, c);
      k + |q| <= |L| && Bases(q) == L[k..k + |q|] && ReferencedByClockOf(H, L[k + |q| - 1], nb)
  {
    hide Ok, StoreOk, Links, ReferencedByClockOf, SuccessorOf, ClocksOn, OldestNaming;
    OldestIsLive(log.live, back, q[0]);
    c := q[0].ce.base.chain;
    k := PlaceOnChain(st, H, n, log, q[0]);
    var L := ClocksOn(H, n, c);
    forall i | 0 <= i < |q|
      ensures k + i < |L| && q[i] in log.live && q[i].ce.base == L[k + i]
    {
      ForwardPathOnChain(st, H, n, log, q, k, i);
    }
    assert k + (|q| - 1) < |L|;
    EdgeIsClock(st, H, n, log, Last(q), nb);
  }

  ghost predicate TiedTo(H: History, ch: EventChain, nb: NodeId) {
    && ch.lower != [] && ReferencesClockOf(H, ch.lower[0], nb)
    && ch.upper != [] && ReferencedByClockOf(H, Last(ch.upper), nb)
  }

  /** A chain that a hop passes on toward another node is tied to that node at both ends: its
      first clock event references one of the node's clock events, and its last is referenced by
      one. */
  lemma SpliceTiesToNeighbor(st: Setup, w: World, n: NodeId, nb: NodeId, ch: EventChain)
    requires HonestSigner(st.cr) && Reachable(st, w) && n in w.nodes && nb != n
    ensures var r := ChainBuild.Splice(w.nodes[n].log, n, nb, ch);
      r.Some? ==> TiedTo(w.H, r.value, nb)
  {
    hide Reachable, ChainBuild.Splice, Ok, StoreOk, WellFormed, LowerLeg, UpperLeg, ReferencesClockOf, ReferencedByClockOf;
    Preservation.ReachableInv(st, w);
    var s := w.nodes[n];
    assert NodeOk(st, w.H, n, s);
    StoreIsWellFormed(st, w.H, n, s.log);
    SpliceIsExact(s.log, n, nb, ch);
    if ChainBuild.Splice(s.log, n, nb, ch).Some? {
      var p, q :| HasLegs(s.log, n, nb, ch, p, q);
      LegsNotEmpty(s.log, n, nb, ch, p, q);
      var c, k := LowerLegOnChain(st, w.H, n, s.log, nb, FrontRefs(ch), p);
      var c', k' := UpperLegOnChain(st, w.H, n, s.log, nb, BackHash(ch), q);
      assert (Flipped(p) + ch.lower)[0] == Flipped(p)[0];
      assert Last(ch.upper + Bases(q)) == Last(Bases(q));
    }
  }

  lemma StoreIsWellFormed(st: Setup, H: History, n: NodeId, log: Log)
    requires n in st.cfg && StoreOk(st, H, n, log)
    ensures WellFormed(log)
  {
  }

  lemma LegsNotEmpty(log: Log, id: NodeId, nb: NodeId, ch: EventChain, p: seq<Entry>, q: seq<Entry>)
    requires HasLegs(log, id, nb, ch, p, q)
    ensures p != [] && q != []
  {
  }
}
