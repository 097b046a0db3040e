/** Snapshot and restore: a node's durable state as one blob, and what loading it rebuilds. */
module Snapshot {
  import opened Domain
  import opened Hashing
  import opened History
  import opened Log
  import opened NodeModel
  import opened Network
  import opened Invariant
  import opened Ring
  import opened Wire
  import BigEndian
  import Codec
  import Hydrate
  import Overlay
  import Preservation
  import Router

  const SNAPSHOT_VERSION: nat := 3

  datatype Route = Route(dst: NodeId, hop: NodeId)

  /** What a snapshot holds. The first chain's tail is written but not used on loading. */
  datatype Image = Image(events: seq<Event>, clocks: seq<LocalClockEvent>, tail: seq<Event>, nbrs: seq<Neighbor>, routes: seq<Route>)

  // ---------------------------------------------------------------------------
  // layout
  // ---------------------------------------------------------------------------

  /** A 64-bit count, then that many elements; no guard against large counts. */
  function Many<T>(enc: T -> Bytes, xs: seq<T>): (b: Bytes) {
    U64(|xs|) + List(enc, xs)
  }

  function ParseMany<T>(dec: Bytes -> Parsed<T>, b: Bytes): (r: Parsed<seq<T>>) {
    var p := ParseInt(b, 8);
    if p.Fail? then Fail else ParseList(dec, p.rest, p.value)
  }

  function LocalBytes(c: LocalClockEvent): (b: Bytes) {
    ClockBytes(c.base) + Refs(c.referencing)
  }

  function ParseLocal(b: Bytes): (r: Parsed<LocalClockEvent>) {
    var p1 := ParseClock(b);
    if p1.Fail? then Fail else
    var p2 := ParseRefs(p1.rest);
    if p2.Fail? then Fail else Got(LocalClockEvent(p1.value, p2.value), p2.rest)
  }

  function NeighborBytes(n: Neighbor): (b: Bytes) {
    n.id.bytes + Many(Blob, n.tips)
  }

  function ParseNeighbor(b: Bytes): (r: Parsed<Neighbor>) {
    var p1 := ParseId(b);
    if p1.Fail? then Fail else
    var p2 := ParseMany(ParseBlob, p1.rest);
    if p2.Fail? then Fail else Got(Neighbor(p1.value, p2.value), p2.rest)
  }

  function RouteBytes(r: Route): (b: Bytes) {
    r.dst.bytes + r.hop.bytes
  }

  function ParseRoute(b: Bytes): (r: Parsed<Route>) {
    var p1 := ParseId(b);
    if p1.Fail? then Fail else
    var p2 := ParseId(p1.rest);
    if p2.Fail? then Fail else Got(Route(p1.value, p2.value), p2.rest)
  }

  function ImageBytes(m: Image): (b: Bytes) {
    U64(SNAPSHOT_VERSION) + (Many(EventBytes, m.events) + (Many(LocalBytes, m.clocks) +
      (Many(EventBytes, m.tail) + (Many(NeighborBytes, m.nbrs) + Many(RouteBytes, m.routes)))))
  }

  function ParseOverlay(b: Bytes): (r: Parsed<(seq<Neighbor>, seq<Route>)>) {
    var p1 := ParseMany(ParseNeighbor, b);
    if p1.Fail? then Fail else
    var p2 := ParseMany(ParseRoute, p1.rest);
    if p2.Fail? then Fail else Got((p1.value, p2.value), p2.rest)
  }

  function ParseImage(b: Bytes): (r: Parsed<Image>) {
    var p0 := ParseInt(b, 8);
    if p0.Fail? || p0.value != SNAPSHOT_VERSION then Fail else
    var p1 := ParseMany(ParseEvent, p0.rest);
    if p1.Fail? then Fail else
    var p2 := ParseMany(ParseLocal, p1.rest);
    if p2.Fail? then Fail else
    var p3 := ParseMany(ParseEvent, p2.rest);
    if p3.Fail? then Fail else
    var p4 := ParseOverlay(p3.rest);
    if p4.Fail? then Fail else
    Got(Image(p1.value, p2.value, p3.value, p4.value.0, p4.value.1), p4.rest)
  }

  // ---------------------------------------------------------------------------
  // round trip
  // ---------------------------------------------------------------------------

  ghost predicate LocalFits(c: LocalClockEvent) {
    ClockFits(c.base) && RefsFit(c.referencing)
  }

  ghost predicate NeighborFits(n: Neighbor) {
    IdFits(n.id) && |n.tips| < U64_MODULUS && forall h :: h in n.tips ==> Short(|h|)
  }

  ghost predicate RouteFits(r: Route) {
    IdFits(r.dst) && IdFits(r.hop)
  }

  ghost predicate EventsFit(es: seq<Event>) {
    |es| < U64_MODULUS && forall e :: e in es ==> EventFits(e)
  }

  ghost predicate ImageFits(m: Image) {
    && EventsFit(m.events) && EventsFit(m.tail)
    && |m.clocks| < U64_MODULUS && (forall c :: c in m.clocks ==> LocalFits(c))
    && |m.nbrs| < U64_MODULUS && (forall n :: n in m.nbrs ==> NeighborFits(n))
    && |m.routes| < U64_MODULUS && (forall r :: r in m.routes ==> RouteFits(r))
  }

  lemma ManyRoundTrip<T(!new)>(enc: T -> Bytes, dec: Bytes -> Parsed<T>, xs: seq<T>, rest: Bytes)
    requires |xs| < U64_MODULUS && forall x :: x in xs ==> Inverse(enc, dec, x)
    ensures ParseMany(dec, Many(enc, xs) + rest) == Got(xs, rest)
  {
    hide List, ParseList, U64, ParseInt;
    assert Many(enc, xs) + rest == U64(|xs|) + (List(enc, xs) + rest);
    U64RoundTrip(|xs|, List(enc, xs) + rest);
    ListRoundTrip(enc, dec, xs, rest);
  }

  lemma EventsRoundTrip(es: seq<Event>, rest: Bytes)
    requires EventsFit(es)
    ensures ParseMany(ParseEvent, Many(EventBytes, es) + rest) == Got(es, rest)
  {
    hide EventBytes, ParseEvent, EventFits;
    forall e | e in es
      ensures Inverse(EventBytes, ParseEvent, e)
    {
      forall tail {
        EventRoundTrip(e, tail);
      }
    }
    ManyRoundTrip(EventBytes, ParseEvent, es, rest);
  }

  lemma LocalRoundTrip(c: LocalClockEvent)
    requires LocalFits(c)
    ensures Inverse(LocalBytes, ParseLocal, c)
  {
    hide ClockBytes, ParseClock, Refs, ParseRefs;
    forall tail
      ensures ParseLocal(LocalBytes(c) + tail) == Got(c, tail)
    {
      assert LocalBytes(c) + tail == ClockBytes(c.base) + (Refs(c.referencing) + tail);
      ClockRoundTripWith(c.base, Refs(c.referencing) + tail);
      RefsRoundTrip(c.referencing, tail);
    }
  }

  lemma NeighborRoundTrip(n: Neighbor)
    requires NeighborFits(n)
    ensures Inverse(NeighborBytes, ParseNeighbor, n)
  {
    hide Many, ParseMany, ParseId;
    forall h | h in n.tips
      ensures Inverse(Blob, ParseBlob, h)
    {
      forall tail {
        BlobRoundTrip(h, tail);
      }
    }
    forall tail
      ensures ParseNeighbor(NeighborBytes(n) + tail) == Got(n, tail)
    {
      assert NeighborBytes(n) + tail == n.id.bytes + (Many(Blob, n.tips) + tail);
      IdRoundTrip(n.id, Many(Blob, n.tips) + tail);
      ManyRoundTrip(Blob, ParseBlob, n.tips, tail);
    }
  }

  lemma RouteRoundTrip(r: Route)
    requires RouteFits(r)
    ensures Inverse(RouteBytes, ParseRoute, r)
  {
    hide ParseId;
    forall tail
      ensures ParseRoute(RouteBytes(r) + tail) == Got(r, tail)
    {
      assert RouteBytes(r) + tail == r.dst.bytes + (r.hop.bytes + tail);
      IdRoundTrip(r.dst, r.hop.bytes + tail);
      IdRoundTrip(r.hop, tail);
    }
  }

  lemma PartsInvert(m: Image)
    requires ImageFits(m)
    ensures forall c :: c in m.clocks ==> Inverse(LocalBytes, ParseLocal, c)
    ensures forall n :: n in m.nbrs ==> Inverse(NeighborBytes, ParseNeighbor, n)
    ensures forall r :: r in m.routes ==> Inverse(RouteBytes, ParseRoute, r)
  {
    hide Inverse, LocalFits, NeighborFits, RouteFits, EventsFit;
    forall c | c in m.clocks {
      LocalRoundTrip(c);
    }
    forall n | n in m.nbrs {
      NeighborRoundTrip(n);
    }
    forall r | r in m.routes {
      RouteRoundTrip(r);
    }
  }

  lemma PartsParse(m: Image, b: Bytes, t1: Bytes, t2: Bytes, t3: Bytes, t4: Bytes, t5: Bytes, rest: Bytes)
    requires ParseInt(b, 8) == Got(SNAPSHOT_VERSION, t1)
    requires ParseMany(ParseEvent, t1) == Got(m.events, t2)
    requires ParseMany(ParseLocal, t2) == Got(m.clocks, t3)
    requires ParseMany(ParseEvent, t3) == Got(m.tail, t4)
    requires ParseMany(ParseNeighbor, t4) == Got(m.nbrs, t5)
    requires ParseMany(ParseRoute, t5) == Got(m.routes, rest)
    ensures ParseImage(b) == Got(m, rest)
  {
  }

  /** A snapshot reads back as what was written. */
  lemma ImageRoundTrip(m: Image, rest: Bytes)
    requires ImageFits(m)
    ensures ParseImage(ImageBytes(m) + rest) == Got(m, rest)
  {
    PartsInvert(m);
    hide Inverse, Many, ParseMany, U64, ParseInt, EventsFit, LocalFits, NeighborFits, RouteFits, ParseImage;
    var v, e, c, t, n, r := U64(SNAPSHOT_VERSION), Many(EventBytes, m.events), Many(LocalBytes, m.clocks),
                            Many(EventBytes, m.tail), Many(NeighborBytes, m.nbrs), Many(RouteBytes, m.routes);
    ManyRoundTrip(RouteBytes, ParseRoute, m.routes, rest);
    ManyRoundTrip(NeighborBytes, ParseNeighbor, m.nbrs, r + rest);
    EventsRoundTrip(m.tail, n + (r + rest));
    ManyRoundTrip(LocalBytes, ParseLocal, m.clocks, t + (n + (r + rest)));
    EventsRoundTrip(m.events, c + (t + (n + (r + rest))));
    U64RoundTrip(SNAPSHOT_VERSION, e + (c + (t + (n + (r + rest)))));
    RegroupSix(v, e, c, t, n, r, rest);
    PartsParse(m, ImageBytes(m) + rest, e + (c + (t + (n + (r + rest)))), c + (t + (n + (r + rest))),
               t + (n + (r + rest)), n + (r + rest), r + rest, rest);
  }

  lemma RegroupSix(a: Bytes, b: Bytes, c: Bytes, d: Bytes, e: Bytes, f: Bytes, rest: Bytes)
    ensures (a + (b + (c + (d + (e + f))))) + rest == a + (b + (c + (d + (e + (f + rest)))))
  {
    Regroup([], a, b, c, d, e, f, rest);
    assert [] + (a + (b + (c + (d + (e + f))))) == a + (b + (c + (d + (e + f))));
    assert [] + (a + (b + (c + (d + (e + (f + rest)))))) == a + (b + (c + (d + (e + (f + rest)))));
  }

  // ---------------------------------------------------------------------------
  // taking and loading
  // ---------------------------------------------------------------------------

  /** `rs` lists the route table, each destination once. */
  ghost predicate Lists(rs: seq<Route>, routes: map<NodeId, NodeId>) {
    && (forall i, j :: 0 <= i < j < |rs| ==> rs[i].dst != rs[j].dst)
    && (forall i :: 0 <= i < |rs| ==> rs[i].dst in routes && routes[rs[i].dst] == rs[i].hop)
    && (forall d :: d in routes ==> exists i :: 0 <= i < |rs| && rs[i].dst == d)
  }

  /** The image of a node, its route table listed as `rs`. */
  function ImageOf(s: NodeState, rs: seq<Route>): Image
    requires s.tails != []
  {
    Image(s.log.events, Records(s.log.live), s.tails[0], s.nbrs, rs)
  }

  function LoadNeighbors(ns: seq<Neighbor>): seq<Neighbor> {
    if ns == [] then [] else PutNeighbor(LoadNeighbors(Front(ns)), Last(ns))
  }

  function LoadRoutes(rs: seq<Route>): map<NodeId, NodeId> {
    if rs == [] then map[] else LoadRoutes(Front(rs))[Last(rs).dst := Last(rs).hop]
  }

  function LoadClocks(log: Log, cs: seq<LocalClockEvent>): Log {
    if cs == [] then log else AppendClock(LoadClocks(log, Front(cs)), Last(cs))
  }

  /** Replace the store's content by the image, appending in order, and rehydrate. */
  ghost function Load(s: NodeState, m: Image): NodeState {
    var log := LoadClocks(Log(m.events, [], 0), m.clocks);
    s.(log := log, nbrs := LoadNeighbors(m.nbrs), routes := LoadRoutes(m.routes), timed := map[],
       tails := RebuiltTails(log, s.cfg.NumChains()))
  }

  // ---------------------------------------------------------------------------
  // what loading rebuilds
  // ---------------------------------------------------------------------------

  lemma {:induction false} LoadedClocks(events: seq<Event>, cs: seq<LocalClockEvent>)
    ensures var log := LoadClocks(Log(events, [], 0), cs);
      && log.events == events && log.next == |cs| && |log.live| == |cs|
      && forall i :: 0 <= i < |cs| ==> log.live[i] == Entry(i, cs[i])
  {
    if cs != [] {
      LoadedClocks(events, Front(cs));
    }
  }

  lemma {:induction false} SameChains(a: seq<Entry>, b: seq<Entry>, c: nat)
    requires Records(a) == Records(b)
    ensures OnChain(a, c) == OnChain(b, c)
  {
    if a != [] {
      assert |a| == |b|;
      assert Records(Front(a)) == Records(Front(b)) && Last(a).ce == Last(b).ce by {
        assert Records(a)[|a| - 1] == Records(b)[|a| - 1];
        assert forall i :: 0 <= i < |a| - 1 ==> Records(a)[i] == Records(b)[i];
      }
      SameChains(Front(a), Front(b), c);
    }
  }

  lemma SameReferenced(a: seq<Entry>, b: seq<Entry>, h: Hash, c: nat)
    requires Records(a) == Records(b) && ReferencedBy(a, h, c)
    ensures ReferencedBy(b, h, c)
  {
    var e :| e in a && e.ce.base.chain == c && Mentions(e.ce.base.refs, h);
    var i :| 0 <= i < |a| && a[i] == e;
    assert Records(a)[i] == Records(b)[i];
    assert b[i] in b && b[i].ce == e.ce;
  }

  lemma {:induction false} SameTail(events: seq<Event>, a: seq<Entry>, b: seq<Entry>, c: nat)
    requires Records(a) == Records(b)
    ensures RebuiltTail(events, a, c) == RebuiltTail(events, b, c)
  {
    if events != [] {
      SameTail(Front(events), a, b, c);
      if ReferencedBy(a, Last(events).hash, c) {
        SameReferenced(a, b, Last(events).hash, c);
      }
      if ReferencedBy(b, Last(events).hash, c) {
        SameReferenced(b, a, Last(events).hash, c);
      }
    }
  }

  lemma LoadLast(ns: seq<Neighbor>)
    requires ns != []
    ensures LoadNeighbors(ns) == PutNeighbor(LoadNeighbors(Front(ns)), Last(ns))
  {
  }

  lemma {:induction false} LoadedNeighbors(ns: seq<Neighbor>)
    requires Overlay.Sorted(ns)
    ensures LoadNeighbors(ns) == ns
  {
    if ns != [] {
      hide LoadNeighbors, NeighborAt, Overlay.Placed, Overlay.Sorted;
      Overlay.PlacedLast(ns);
      LoadedNeighbors(Front(ns));
      LoadLast(ns);
      Unlisted(Front(ns), Last(ns).id);
    }
  }

  lemma Unlisted(ns: seq<Neighbor>, id: NodeId)
    requires forall x :: x in ns ==> x.id != id
    ensures NeighborAt(ns, id) < 0
  {
  }

  // ---------------------------------------------------------------------------
  // neighbours stay in order
  // ---------------------------------------------------------------------------

  lemma TipKeepsOrder(nbrs: seq<Neighbor>, from: NodeId, chain: nat, h: Hash)
    requires Overlay.Sorted(nbrs)
    ensures Overlay.Sorted(LearnTip(nbrs, from, chain, h))
  {
    var r := LearnTip(nbrs, from, chain, h);
    assert forall i :: 0 <= i < |nbrs| ==> r[i].id == nbrs[i].id;
  }

  lemma AddKeepsOrder(s: NodeState, m: NodeId)
    requires Overlay.Sorted(s.nbrs)
    ensures Overlay.Sorted(AddNeighbor(s, m).nbrs)
  {
    if !Router.IsNeighbor(s.nbrs, m) {
      forall x | x in s.nbrs
        ensures x.id != m
      {
        var i :| 0 <= i < |s.nbrs| && s.nbrs[i] == x;
      }
      Overlay.PlacedSorted(s.nbrs, Neighbor(m, []));
    }
  }

  lemma PacketKeepsOrder(s: NodeState, cr: Crypto, from: NodeId, m: Payload, now: Timestamp, rnd: nat -> nat)
    requires Overlay.Sorted(s.nbrs)
    ensures Overlay.Sorted(OnPacket(s, cr, from, m, now, rnd).0.nbrs)
  {
    hide Overlay.Sorted, LearnTip;
    if m.ClockNotification? {
      TipKeepsOrder(s.nbrs, from, m.chain, m.hash);
    }
  }

  lemma EffectKeepsOrder(st: Setup, w: World, a: Action)
    requires Enabled(st, w, a) && IsNodeStep(a) && Overlay.Sorted(w.nodes[Actor(w, a)].nbrs)
    ensures Overlay.Sorted(Effect(st, w, a).0.nbrs)
  {
    hide Overlay.Sorted, OnPacket, AddNeighbor, NewClock, NewEvent;
    var s := w.nodes[Actor(w, a)];
    if a.AddPeer? {
      AddKeepsOrder(s, a.peer);
    } else if a.Deliver? {
      PacketKeepsOrder(s, st.cr, w.net[a.k].from, w.net[a.k].msg, a.now, a.rnd);
    }
  }

  ghost predicate AllSorted(nodes: map<NodeId, NodeState>) {
    forall n :: n in nodes ==> Overlay.Sorted(nodes[n].nbrs)
  }

  lemma {:induction false} RunKeepsOrder(st: Setup, run: seq<Action>, w: World)
    requires Runs(st, run, w)
    ensures AllSorted(w.nodes)
  {
    if run != [] {
      var v :| Runs(st, Front(run), v) && Enabled(st, v, Last(run)) && w == Step(st, v, Last(run));
      RunKeepsOrder(st, Front(run), v);
      StepKeepsOrder(st, v, Last(run));
    }
  }

  lemma StepKeepsOrder(st: Setup, w: World, a: Action)
    requires Enabled(st, w, a) && AllSorted(w.nodes)
    ensures AllSorted(Step(st, w, a).nodes)
  {
    hide Overlay.Sorted, Effect, Posted, Recorded, TrailOf, Remaining;
    if IsNodeStep(a) {
      EffectKeepsOrder(st, w, a);
    }
  }

  // ---------------------------------------------------------------------------
  // routes
  // ---------------------------------------------------------------------------

  lemma {:induction false} LoadedRoutes(rs: seq<Route>, d: NodeId)
    requires forall i, j :: 0 <= i < j < |rs| ==> rs[i].dst != rs[j].dst
    ensures d in LoadRoutes(rs) <==> exists i :: 0 <= i < |rs| && rs[i].dst == d
    ensures forall i :: 0 <= i < |rs| && rs[i].dst == d ==> d in LoadRoutes(rs) && LoadRoutes(rs)[d] == rs[i].hop
  {
    if rs != [] {
      var front := Front(rs);
      LoadedRoutes(front, d);
      if exists i :: 0 <= i < |rs| && rs[i].dst == d {
        var i :| 0 <= i < |rs| && rs[i].dst == d;
        assert i < |front| ==> front[i].dst == d;
      }
      if exists i :: 0 <= i < |front| && front[i].dst == d {
        var i :| 0 <= i < |front| && front[i].dst == d;
        assert rs[i].dst == d;
      }
      forall i | 0 <= i < |rs| && rs[i].dst == d
        ensures d in LoadRoutes(rs) && LoadRoutes(rs)[d] == rs[i].hop
      {
        if i < |front| {
          assert front[i].dst == d;
        }
      }
    }
  }

  lemma RoutesReproduced(rs: seq<Route>, routes: map<NodeId, NodeId>)
    requires Lists(rs, routes)
    ensures LoadRoutes(rs) == routes
  {
    forall d
      ensures d in LoadRoutes(rs) <==> d in routes
      ensures d in routes ==> LoadRoutes(rs)[d] == routes[d]
    {
      LoadedRoutes(rs, d);
    }
  }

  /** On a node that has pruned nothing, restoring its own snapshot reproduces its events, its
      clock events with their reverse edges, every chain's tip and tail, its neighbours and its
      routes; timed routes are not in the snapshot and come back empty. The dedup and discovery
      tables are not touched. */
  lemma RestoreReproduces(st: Setup, w: World, n: NodeId, rs: seq<Route>, rest: Bytes)
    requires HonestSigner(st.cr) && Reachable(st, w) && n in w.nodes
    requires forall c: nat :: Hydrate.Complete(w.H, n, w.nodes[n].log.live, c)
    requires Lists(rs, w.nodes[n].routes)
    requires w.nodes[n].tails != [] && ImageFits(ImageOf(w.nodes[n], rs))
    ensures var s := w.nodes[n]; var p := ParseImage(ImageBytes(ImageOf(s, rs)) + rest);
      && p.Got?
      && var r := Load(s, p.value);
      && r.log.events == s.log.events && Records(r.log.live) == Records(s.log.live)
      && (forall c :: OnChain(r.log.live, c) == OnChain(s.log.live, c))
      && r == s.(log := r.log, timed := map[])
  {
    hide ImageFits, ParseImage, ImageBytes;
    var s := w.nodes[n];
    var m := ImageOf(s, rs);
    ImageRoundTrip(m, rest);
    Preservation.ReachableInv(st, w);
    var run: seq<Action> :| Runs(st, run, w);
    RunKeepsOrder(st, run, w);
    LoadedClocks(m.events, m.clocks);
    LoadedNeighbors(m.nbrs);
    RoutesReproduced(m.routes, s.routes);
    var log := LoadClocks(Log(m.events, [], 0), m.clocks);
    hide LoadClocks, LoadNeighbors, LoadRoutes;
    forall c
      ensures OnChain(log.live, c) == OnChain(s.log.live, c)
    {
      SameChains(log.live, s.log.live, c);
    }
    TailsReproduced(st, w.H, n, s, log);
  }

  lemma TailsReproduced(st: Setup, H: History, n: NodeId, s: NodeState, log: Log)
    requires Ok(st, H) && NodeOk(st, H, n, s)
    requires forall c: nat :: Hydrate.Complete(H, n, s.log.live, c)
    requires log.events == s.log.events && Records(log.live) == Records(s.log.live)
    ensures RebuiltTails(log, s.cfg.NumChains()) == s.tails
  {
    forall c | 0 <= c < |s.tails|
      ensures RebuiltTail(log.events, log.live, c) == s.tails[c]
    {
      SameTail(s.log.events, log.live, s.log.live, c);
      Hydrate.UnprunedTailsSurvive(st, H, n, s, c);
    }
  }

  // ---------------------------------------------------------------------------
  // the code
  // ---------------------------------------------------------------------------

  method PutEvents(w: Codec.Writer, es: seq<Event>)
    modifies w
    ensures w.buf == old(w.buf) + Many(EventBytes, es)
  {
    hide U64, EventBytes;
    w.PutU64(|es|);
    for i := 0 to |es|
      invariant w.buf == old(w.buf) + (U64(|es|) + List(EventBytes, es[..i]))
    {
      w.PutEvent(es[i]);
      assert Front(es[..i + 1]) == es[..i];
    }
    assert es[..|es|] == es;
  }

  method PutLocals(w: Codec.Writer, cs: seq<LocalClockEvent>)
    modifies w
    ensures w.buf == old(w.buf) + Many(LocalBytes, cs)
  {
    hide U64, ClockBytes, Refs;
    w.PutU64(|cs|);
    for i := 0 to |cs|
      invariant w.buf == old(w.buf) + (U64(|cs|) + List(LocalBytes, cs[..i]))
    {
      w.PutClock(cs[i].base);
      w.PutRefs(cs[i].referencing);
      assert Front(cs[..i + 1]) == cs[..i];
    }
    assert cs[..|cs|] == cs;
  }

  method PutTips(w: Codec.Writer, tips: seq<Hash>)
    modifies w
    ensures w.buf == old(w.buf) + Many(Blob, tips)
  {
    hide U64, Blob;
    w.PutU64(|tips|);
    for i := 0 to |tips|
      invariant w.buf == old(w.buf) + (U64(|tips|) + List(Blob, tips[..i]))
    {
      w.PutBlob(tips[i]);
      assert Front(tips[..i + 1]) == tips[..i];
    }
    assert tips[..|tips|] == tips;
  }

  lemma ManyIs<T>(enc: T -> Bytes, xs: seq<T>)
    ensures Many(enc, xs) == U64(|xs|) + List(enc, xs)
  {
  }

  method PutNeighbors(w: Codec.Writer, ns: seq<Neighbor>)
    modifies w
    ensures w.buf == old(w.buf) + Many(NeighborBytes, ns)
  {
    hide U64, Many;
    assert Many(NeighborBytes, ns) == U64(|ns|) + List(NeighborBytes, ns) by {
      ManyIs(NeighborBytes, ns);
    }
    w.PutU64(|ns|);
    for i := 0 to |ns|
      invariant w.buf == old(w.buf) + (U64(|ns|) + List(NeighborBytes, ns[..i]))
    {
      w.PutId(ns[i].id);
      PutTips(w, ns[i].tips);
      assert Front(ns[..i + 1]) == ns[..i];
    }
    assert ns[..|ns|] == ns;
  }

  method PutRoutes(w: Codec.Writer, rs: seq<Route>)
    modifies w
    ensures w.buf == old(w.buf) + Many(RouteBytes, rs)
  {
    hide U64;
    w.PutU64(|rs|);
    for i := 0 to |rs|
      invariant w.buf == old(w.buf) + (U64(|rs|) + List(RouteBytes, rs[..i]))
    {
      w.PutId(rs[i].dst);
      w.PutId(rs[i].hop);
      assert Front(rs[..i + 1]) == rs[..i];
    }
    assert rs[..|rs|] == rs;
  }

  method Write(m: Image) returns (b: Bytes)
    ensures b == ImageBytes(m)
  {
    hide U64, Many;
    var w := new Codec.Writer();
    w.PutU64(SNAPSHOT_VERSION);
    PutEvents(w, m.events);
    PutLocals(w, m.clocks);
    PutEvents(w, m.tail);
    PutNeighbors(w, m.nbrs);
    PutRoutes(w, m.routes);
    Codec.RegroupEvent([], U64(SNAPSHOT_VERSION), Many(EventBytes, m.events), Many(LocalBytes, m.clocks),
                       Many(EventBytes, m.tail), Many(NeighborBytes, m.nbrs), Many(RouteBytes, m.routes));
    b := w.buf;
  }

  method GetEvents(r: Codec.Reader) returns (es: Option<seq<Event>>)
    requires r.Valid()
    modifies r
    ensures r.Valid() && Codec.Reads(ParseMany(ParseEvent, old(r.Left())), es, r.Left())
  {
    hide ParseInt, ParseEvent;
    var n := r.GetInt(8);
    if n == None { return None; }
    ghost var start := r.Left();
    var out := [];
    for i := 0 to n.value
      invariant r.Valid() && ParseList(ParseEvent, start, i) == Got(out, r.Left())
    {
      var x := r.GetEvent();
      if x == None {
        Codec.ListFails(ParseEvent, start, i + 1, n.value);
        return None;
      }
      out := out + [x.value];
    }
    es := Some(out);
  }

  method GetLocal(r: Codec.Reader) returns (c: Option<LocalClockEvent>)
    requires r.Valid()
    modifies r
    ensures r.Valid() && Codec.Reads(ParseLocal(old(r.Left())), c, r.Left())
  {
    hide ParseClock, ParseRefs;
    var base := r.GetClock();
    if base == None { return None; }
    var refs := r.GetRefs();
    if refs == None { return None; }
    c := Some(LocalClockEvent(base.value, refs.value));
  }

  method GetLocals(r: Codec.Reader) returns (cs: Option<seq<LocalClockEvent>>)
    requires r.Valid()
    modifies r
    ensures r.Valid() && Codec.Reads(ParseMany(ParseLocal, old(r.Left())), cs, r.Left())
  {
    hide ParseInt, ParseLocal;
    var n := r.GetInt(8);
    if n == None { return None; }
    ghost var start := r.Left();
    var out := [];
    for i := 0 to n.value
      invariant r.Valid() && ParseList(ParseLocal, start, i) == Got(out, r.Left())
    {
      var x := GetLocal(r);
      if x == None {
        Codec.ListFails(ParseLocal, start, i + 1, n.value);
        return None;
      }
      out := out + [x.value];
    }
    cs := Some(out);
  }

  method GetNeighbor(r: Codec.Reader) returns (nb: Option<Neighbor>)
    requires r.Valid()
    modifies r
    ensures r.Valid() && Codec.Reads(ParseNeighbor(old(r.Left())), nb, r.Left())
  {
    hide ParseInt, ParseId, ParseBlob;
    var id := r.GetId();
    if id == None { return None; }
    var n := r.GetInt(8);
    if n == None { return None; }
    ghost var start := r.Left();
    var tips := [];
    for i := 0 to n.value
      invariant r.Valid() && ParseList(ParseBlob, start, i) == Got(tips, r.Left())
    {
      var x := r.GetBlob();
      if x == None {
        Codec.ListFails(ParseBlob, start, i + 1, n.value);
        return None;
      }
      tips := tips + [x.value];
    }
    nb := Some(Neighbor(id.value, tips));
  }

  method GetNeighbors(r: Codec.Reader) returns (ns: Option<seq<Neighbor>>)
    requires r.Valid()
    modifies r
    ensures r.Valid() && Codec.Reads(ParseMany(ParseNeighbor, old(r.Left())), ns, r.Left())
  {
    hide ParseInt, ParseNeighbor;
    var n := r.GetInt(8);
    if n == None { return None; }
    ghost var start := r.Left();
    var out := [];
    for i := 0 to n.value
      invariant r.Valid() && ParseList(ParseNeighbor, start, i) == Got(out, r.Left())
    {
      var x := GetNeighbor(r);
      if x == None {
        Codec.ListFails(ParseNeighbor, start, i + 1, n.value);
        return None;
      }
      out := out + [x.value];
    }
    ns := Some(out);
  }

  method GetRoutes(r: Codec.Reader) returns (rs: Option<seq<Route>>)
    requires r.Valid()
    modifies r
    ensures r.Valid() && Codec.Reads(ParseMany(ParseRoute, old(r.Left())), rs, r.Left())
  {
    hide ParseInt, ParseId;
    var n := r.GetInt(8);
    if n == None { return None; }
    ghost var start := r.Left();
    var out := [];
    for i := 0 to n.value
      invariant r.Valid() && ParseList(ParseRoute, start, i) == Got(out, r.Left())
    {
      var dst := r.GetId();
      if dst == None {
        Codec.ListFails(ParseRoute, start, i + 1, n.value);
        return None;
      }
      var hop := r.GetId();
      if hop == None {
        Codec.ListFails(ParseRoute, start, i + 1, n.value);
        return None;
      }
      out := out + [Route(dst.value, hop.value)];
    }
    rs := Some(out);
  }

  /** The image, or the error of a blob that is truncated or of another version. */
  method Read(b: Bytes) returns (m: Option<Image>)
    ensures m == (var p := ParseImage(b); if p.Got? then Some(p.value) else None)
  {
    hide ParseImage;
    var r := new Codec.Reader(b);
    m := GetImage(r);
  }

  method GetImage(r: Codec.Reader) returns (m: Option<Image>)
    requires r.Valid()
    modifies r
    ensures r.Valid() && Codec.Reads(ParseImage(old(r.Left())), m, r.Left())
  {
    hide ParseInt, ParseMany, ParseOverlay;
    var version := r.GetInt(8);
    if version == None || version.value != SNAPSHOT_VERSION { return None; }
    var events := GetEvents(r);
    if events == None { return None; }
    var clocks := GetLocals(r);
    if clocks == None { return None; }
    var tail := GetEvents(r);
    if tail == None { return None; }
    var overlay := GetOverlay(r);
    if overlay == None { return None; }
    m := Some(Image(events.value, clocks.value, tail.value, overlay.value.0, overlay.value.1));
  }

  method GetOverlay(r: Codec.Reader) returns (o: Option<(seq<Neighbor>, seq<Route>)>)
    requires r.Valid()
    modifies r
    ensures r.Valid() && Codec.Reads(ParseOverlay(old(r.Left())), o, r.Left())
  {
    hide ParseMany;
    var nbrs := GetNeighbors(r);
    if nbrs == None { return None; }
    var routes := GetRoutes(r);
    if routes == None { return None; }
    o := Some((nbrs.value, routes.value));
  }
}
