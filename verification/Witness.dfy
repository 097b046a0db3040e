/** Two runs of a single honest node. In one its clock steps back between two of its chains and
    an interval comes out inverted; in the other a tick prunes a chain and an event's lower
    bound moves later. Both run on a digest without collisions. */
module Witness {
  import opened Domain
  import opened Hashing
  import opened History
  import opened Log
  import opened NodeModel
  import opened Network
  import BigEndian
  import ChainBuild
  import Discovery
  import Invariant
  import LowerBound
  import Preservation
  import Ring
  import Validate

  /** The digest is the input itself behind one byte, so that it is injective and never empty. */
  function Plain(): Crypto {
    Crypto((b: Bytes) => [1] + b, (id: NodeId, h: Hash) => [], (h: Hash, s: Signature, id: NodeId) => true)
  }

  /** A network of one node with two chains, the first of them keeping `keep` clock events. */
  ghost function Alone(n: NodeId, keep: nat): Setup {
    Setup(Plain(), map[n := NodeConfig([keep, 0], 0, 0, StaticShortestPath, 0, 0)])
  }

  function Clock(n: NodeId, chain: nat, t: Timestamp, refs: seq<EventReference>): ClockEvent {
    ClockEvent(n, ClockHash(Plain(), chain, t, 0, refs), chain, t, 0, refs, [])
  }

  function Published(n: NodeId, refs: seq<EventReference>): Event {
    Event(n, EventHash(Plain(), [], 0, refs), [], 0, refs, [])
  }

  function At(at: nat, c: ClockEvent): Entry {
    Entry(at, LocalClockEvent(c, []))
  }

  // ---------------------------------------------------------------------------
  // one node alone
  // ---------------------------------------------------------------------------

  /** The node has this log and these tails; it has no neighbours and nothing is in flight. */
  ghost predicate Stands(st: Setup, n: NodeId, w: World, log: Log, tails: seq<seq<Event>>, H: History) {
    && n in st.cfg && w.net == [] && w.H == H
    && w.nodes == map[n := NodeState(n, st.cfg[n], log, [], map[], map[], tails, map[], Discovery.IDLE)]
  }

  lemma Starts(n: NodeId, keep: nat)
    ensures Stands(Alone(n, keep), n, Start(Alone(n, keep)), EMPTY_LOG, [[], []], [])
    ensures Runs(Alone(n, keep), [], Start(Alone(n, keep)))
  {
    var st := Alone(n, keep);
    assert Fresh(n, st.cfg[n]).tails == [[], []];
    assert Start(st).nodes == map[n := Fresh(n, st.cfg[n])];
  }

  lemma RunsOn(st: Setup, run: seq<Action>, w: World, a: Action)
    requires Runs(st, run, w) && Enabled(st, w, a)
    ensures Runs(st, run + [a], Step(st, w, a))
  {
    hide Step, Enabled;
    assert Front(run + [a]) == run && Last(run + [a]) == a;
  }

  /** The clock event the node's next tick creates. */
  function Next(n: NodeId, live: seq<Entry>, chain: nat, t: Timestamp, tail: seq<Event>): ClockEvent {
    var tip := Tip(live, chain);
    Clock(n, chain, if tip.Some? && t < tip.value.ce.base.timestamp then tip.value.ce.base.timestamp else t,
          TipRef(live, chain) + EventRefs(tail))
  }

  lemma Ticks(n: NodeId, keep: nat, w: World, log: Log, tails: seq<seq<Event>>, H: History, chain: nat, t: Timestamp)
    requires Stands(Alone(n, keep), n, w, log, tails, H) && chain < |tails|
    requires IndexOf(H, Next(n, log.live, chain, t, tails[chain]).hash) == -1
    ensures var st, a, c := Alone(n, keep), DoTick(n, chain, 0, t), Next(n, log.live, chain, t, tails[chain]);
      && Enabled(st, w, a)
      && Stands(st, n, Step(st, w, a), Prune(AppendClock(log, LocalClockEvent(c, [])), chain, st.cfg[n].Keep(chain)),
                tails[chain := []], H + [Ck(c, t)])
  {
    hide IndexOf, Tip, EventRefs, Prune, ClockHash;
    var st, a, c := Alone(n, keep), DoTick(n, chain, 0, t), Next(n, log.live, chain, t, tails[chain]);
    var s := w.nodes[n];
    assert TipRef(log.live, chain) + [] + EventRefs(tails[chain]) == TipRef(log.live, chain) + EventRefs(tails[chain]);
    assert NewClock(s, st.cr, chain, 0, t) == c;
    ClockHashLength(chain, c.timestamp, c.refs);
    assert Notifications([], c) == [];
    assert Posted(n, [], []) == [];
    assert w.nodes[n := Tick(s, st.cr, chain, 0, t).0] == map[n := Tick(s, st.cr, chain, 0, t).0];
  }

  lemma Publishes(n: NodeId, keep: nat, w: World, log: Log, tails: seq<seq<Event>>, H: History, t: Timestamp)
    requires Stands(Alone(n, keep), n, w, log, tails, H)
    requires IndexOf(H, Published(n, LiveTipRefs(log.live, 2)).hash) == -1
    ensures var st, a, e := Alone(n, keep), DoPublish(n, [], 0, t), Published(n, LiveTipRefs(log.live, 2));
      && Enabled(st, w, a)
      && Stands(st, n, Step(st, w, a), AppendEvent(log, e), PushAll(tails, e), H + [Ev(e, t)])
  {
    hide IndexOf, LiveTipRefs, EventHash;
    var st, a, e := Alone(n, keep), DoPublish(n, [], 0, t), Published(n, LiveTipRefs(log.live, 2));
    var s := w.nodes[n];
    assert NewEvent(s, st.cr, [], 0) == e;
    EventHashLength(e.refs);
    assert Posted(n, [], []) == [];
    assert w.nodes[n := Publish(s, st.cr, [], 0)] == map[n := Publish(s, st.cr, [], 0)];
  }

  // ---------------------------------------------------------------------------
  // hashes differ
  // ---------------------------------------------------------------------------

  /** The bytes the references contribute to a hash. */
  function Weight(refs: seq<EventReference>): nat {
    if refs == [] then 0 else |refs[0].creator.bytes| + |refs[0].hash| + Weight(refs[1..])
  }

  lemma {:induction false} RefBytesLength(refs: seq<EventReference>)
    ensures |RefBytes(refs)| == Weight(refs)
  {
    if refs != [] {
      RefBytesLength(refs[1..]);
    }
  }

  lemma ClockHashLength(chain: nat, t: Timestamp, refs: seq<EventReference>)
    ensures |ClockHash(Plain(), chain, t, 0, refs)| == 25 + Weight(refs)
  {
    RefBytesLength(refs);
  }

  lemma EventHashLength(refs: seq<EventReference>)
    ensures |EventHash(Plain(), [], 0, refs)| == 9 + Weight(refs)
  {
    RefBytesLength(refs);
  }

  /** The first ticks of two chains hash differently. */
  lemma ChainsDiffer(t: Timestamp, u: Timestamp)
    ensures ClockHash(Plain(), 0, t, 0, []) != ClockHash(Plain(), 1, u, 0, [])
  {
    var a, b := ClockHash(Plain(), 0, t, 0, []), ClockHash(Plain(), 1, u, 0, []);
    assert a[1..9] == U64(0) && b[1..9] == U64(1);
    Wide();
    BigEndian.DecodeEncode(0, 8);
    BigEndian.DecodeEncode(1, 8);
  }

  lemma Wide()
    ensures BigEndian.Pow256(8) > 1
  {
    assert BigEndian.Pow256(8) == 256 * BigEndian.Pow256(7);
  }

  lemma PushedOnce(e: Event)
    ensures PushAll([[], []], e) == [[e], [e]] && [] + [e] == [e]
  {
    var none: seq<seq<Event>> := [[], []];
    var r := PushAll(none, e);
    assert none[0] + [e] == [e] && none[1] + [e] == [e];
    assert r == [r[0], r[1]];
  }

  lemma NotYet(H: History, h: Hash)
    requires forall x :: x in H ==> x.Hash() != h
    ensures IndexOf(H, h) == -1
  {
  }

  // ---------------------------------------------------------------------------
  // the clock steps back
  // ---------------------------------------------------------------------------

  /** Chain 0 ticks at 20, an event is published, and then chain 1 ticks for the first time, at
      10: nothing on chain 1 holds its stamp up. */
  function BackRun(n: NodeId): seq<Action> {
    [DoTick(n, 0, 0, 20), DoPublish(n, [], 0, 20), DoTick(n, 1, 0, 10)]
  }

  function BackFirst(n: NodeId): ClockEvent {
    Clock(n, 0, 20, [])
  }

  function BackEvent(n: NodeId): Event {
    Published(n, [ClockRef(BackFirst(n))])
  }

  function BackSecond(n: NodeId): ClockEvent {
    Clock(n, 1, 10, [EventRef(BackEvent(n))])
  }

  lemma BackHashes(n: NodeId)
    ensures BackFirst(n).hash != BackEvent(n).hash && BackFirst(n).hash != BackSecond(n).hash && BackEvent(n).hash != BackSecond(n).hash
  {
    hide ClockHash, EventHash;
    ClockHashLength(0, 20, []);
    EventHashLength([ClockRef(BackFirst(n))]);
    ClockHashLength(1, 10, [EventRef(BackEvent(n))]);
  }

  /** The tips of a node whose first chain alone has ticked. */
  lemma OneTip(e: Entry)
    requires e.ce.base.chain == 0
    ensures TipRef([e], 0) == [ClockRef(e.ce.base)] && TipRef([e], 1) == []
    ensures LiveTipRefs([e], 2) == [ClockRef(e.ce.base)]
  {
    assert Front([e]) == [];
    assert TipRef([e], 0) == [ClockRef(e.ce.base)] && TipRef([e], 1) == [];
    assert LiveTipRefs([e], 1) == [] + [ClockRef(e.ce.base)];
    assert LiveTipRefs([e], 2) == LiveTipRefs([e], 1) + [];
  }

  lemma FirstTick(n: NodeId, keep: nat, t: Timestamp) returns (w: World)
    ensures var c := Clock(n, 0, t, []);
      && Runs(Alone(n, keep), [DoTick(n, 0, 0, t)], w)
      && Stands(Alone(n, keep), n, w, Log([], [At(0, c)], 1), [[], []], [Ck(c, t)])
  {
    hide Step, Enabled, Start, Runs, Stands, ClockHash, Prune, AppendClock;
    var st, c := Alone(n, keep), Clock(n, 0, t, []);
    Starts(n, keep);
    assert Next(n, [], 0, t, []) == c by {
      assert TipRef([], 0) + EventRefs([]) == [];
    }
    Ticks(n, keep, Start(st), EMPTY_LOG, [[], []], [], 0, t);
    RunsOn(st, [], Start(st), DoTick(n, 0, 0, t));
    w := Step(st, Start(st), DoTick(n, 0, 0, t));
    assert [] + [DoTick(n, 0, 0, t)] == [DoTick(n, 0, 0, t)] && [] + [Ck(c, t)] == [Ck(c, t)];
    var none: seq<seq<Event>> := [[], []];
    assert none[0 := []] == none;
    KeptAlone(c, keep);
  }

  lemma KeptAlone(c: ClockEvent, keep: nat)
    ensures Prune(AppendClock(EMPTY_LOG, LocalClockEvent(c, [])), 0, keep) == Log([], [At(0, c)], 1)
  {
    var live := [At(0, c)];
    assert [] + live == live && Front(live) == [];
    if keep > 0 {
      assert KeepNewest([], 0, keep) == [] == KeepNewest([], 0, keep - 1);
      assert KeepNewest(live, 0, keep) == [] + live;
    }
  }

  lemma BackPublished(n: NodeId) returns (w: World)
    ensures Runs(Alone(n, 0), [DoTick(n, 0, 0, 20), DoPublish(n, [], 0, 20)], w)
    ensures var c0, e := BackFirst(n), BackEvent(n);
      Stands(Alone(n, 0), n, w, Log([e], [At(0, c0)], 1), [[e], [e]], [Ck(c0, 20), Ev(e, 20)])
  {
    hide Step, Enabled, Start, Runs, Stands, ClockHash, EventHash, PushAll;
    var st, c0, e := Alone(n, 0), BackFirst(n), BackEvent(n);
    BackHashes(n);
    w := FirstTick(n, 0, 20);
    OneTip(At(0, c0));
    NotYet([Ck(c0, 20)], e.hash);
    Publishes(n, 0, w, Log([], [At(0, c0)], 1), [[], []], [Ck(c0, 20)], 20);
    RunsOn(st, [DoTick(n, 0, 0, 20)], w, DoPublish(n, [], 0, 20));
    w := Step(st, w, DoPublish(n, [], 0, 20));
    PushedOnce(e);
    assert [DoTick(n, 0, 0, 20)] + [DoPublish(n, [], 0, 20)] == [DoTick(n, 0, 0, 20), DoPublish(n, [], 0, 20)];
    assert [Ck(c0, 20)] + [Ev(e, 20)] == [Ck(c0, 20), Ev(e, 20)];
  }

  lemma BackReached(n: NodeId) returns (w: World)
    ensures Runs(Alone(n, 0), BackRun(n), w)
    ensures var e := BackEvent(n);
      Stands(Alone(n, 0), n, w, Log([e], [At(0, BackFirst(n)), At(1, BackSecond(n))], 2), [[e], []],
             [Ck(BackFirst(n), 20), Ev(e, 20), Ck(BackSecond(n), 10)])
  {
    hide Step, Enabled, Start, Runs, Stands, ClockHash, EventHash;
    var st, c0, e, c1 := Alone(n, 0), BackFirst(n), BackEvent(n), BackSecond(n);
    var H, done := [Ck(c0, 20), Ev(e, 20)], [DoTick(n, 0, 0, 20), DoPublish(n, [], 0, 20)];
    BackHashes(n);
    w := BackPublished(n);
    OneTip(At(0, c0));
    assert Next(n, [At(0, c0)], 1, 10, [e]) == c1 by {
      assert Front([At(0, c0)]) == [] && EventRefs([e]) == [EventRef(e)] && [] + [EventRef(e)] == [EventRef(e)];
    }
    NotYet(H, c1.hash);
    Ticks(n, 0, w, Log([e], [At(0, c0)], 1), [[e], [e]], H, 1, 10);
    RunsOn(st, done, w, DoTick(n, 1, 0, 10));
    w := Step(st, w, DoTick(n, 1, 0, 10));
    assert done + [DoTick(n, 1, 0, 10)] == BackRun(n);
    assert H + [Ck(c1, 10)] == [Ck(c0, 20), Ev(e, 20), Ck(c1, 10)];
    assert [At(0, c0)] + [At(1, c1)] == [At(0, c0), At(1, c1)];
    assert [[e], [e]][1 := []] == [[e], []];
  }

  /** Of two entries with different hashes, each is the one found under its hash. */
  lemma OnlyHolder(live: seq<Entry>, i: nat)
    requires |live| == 2 && i < 2 && live[0].ce.base.hash != live[1].ce.base.hash
    ensures ByHash(live, live[i].ce.base.hash) == Some(live[i])
  {
    assert live[i] in live;
    var f := ByHash(live, live[i].ce.base.hash);
    assert f.Some? && f.value in live;
  }

  /** Asked about its own event, the node attaches both ends. */
  lemma BackEnclosed(n: NodeId)
    ensures var e := BackEvent(n); var live := [At(0, BackFirst(n)), At(1, BackSecond(n))];
      ChainBuild.Enclose(live, n, EventChain(e, [], [])) == (EventChain(e, [BackFirst(n)], [BackSecond(n)]), true)
  {
    hide ClockHash, EventHash;
    var c0, e, c1 := BackFirst(n), BackEvent(n), BackSecond(n);
    var live := [At(0, c0), At(1, c1)];
    assert Front(live) == [At(0, c0)] && Front([At(0, c0)]) == [];
    BackHashes(n);
    OnlyHolder(live, 0);
    assert FirstOwn(live, n, e.refs) == Some(At(0, c0));
    assert !Mentions([], e.hash);
    assert c1.refs[0].hash == e.hash;
    assert Mentions(c1.refs, e.hash);
    assert FirstReferencing(live, e.hash) == Some(At(1, c1));
    assert [c0] + [] == [c0] && [] + [c1] == [c1];
  }

  /** Every other check passes on this chain of honestly created items, yet it is "before"
      itself: without the inversion check the compared order is no order. The query about the
      event is aborted. */
  lemma InversionCheckIsNeeded(n: NodeId, range: TimeRange, tok: nat, now: Timestamp, rnd: nat -> nat) returns (w: World, ch: EventChain)
    ensures var st := Alone(n, 0);
      && HonestSigner(st.cr) && Runs(st, BackRun(n), w) && n in w.nodes && RealChain(w.H, ch)
      && ChainBuild.Enclose(w.nodes[n].log.live, n, EventChain(ch.event, [], [])) == (ch, true)
      && Validate.Encloses(ch, n) && Validate.ChainIntact(st.cr, ch) && Validate.ChainLinked(ch)
      && Validate.Compare(ch, ch) == Before && !Validate.Sound(st.cr, ch, n)
      && Enabled(st, w, QueryChain(n, ch.event, range, tok, now, rnd))
      && Discovery.ChainFailed(tok, ch.event) in Step(st, w, QueryChain(n, ch.event, range, tok, now, rnd)).nodes[n].disc.answers
  {
    hide Runs, ClockHash, EventHash, Invariant.StoreOk, Invariant.TailsOk, Ok, ChainBuild.Enclose, Step, Enabled;
    var st, e := Alone(n, 0), BackEvent(n);
    w := BackReached(n);
    ch := EventChain(e, [BackFirst(n)], [BackSecond(n)]);
    BackEnclosed(n);
    assert Reachable(st, w);
    Preservation.ReachableInv(st, w);
    BackIsReal(n, w);
    BackAborts(n, w, range, tok, now, rnd);
  }

  lemma BackIsReal(n: NodeId, w: World)
    requires Invariant.Inv(Alone(n, 0), w) && n in w.nodes
    requires w.H == [Ck(BackFirst(n), 20), Ev(BackEvent(n), 20), Ck(BackSecond(n), 10)]
    ensures var st, ch := Alone(n, 0), EventChain(BackEvent(n), [BackFirst(n)], [BackSecond(n)]);
      && RealChain(w.H, ch) && Validate.Encloses(ch, n) && Validate.ChainIntact(st.cr, ch) && Validate.ChainLinked(ch)
      && Validate.Compare(ch, ch) == Before && !Validate.Sound(st.cr, ch, n)
  {
    hide ClockHash, EventHash, Invariant.NodesOk, Ok;
    var st, ch := Alone(n, 0), EventChain(BackEvent(n), [BackFirst(n)], [BackSecond(n)]);
    assert w.H[0].Ck? && w.H[1].Ev? && w.H[2].Ck?;
    assert RealChain(w.H, ch);
    ChainBuild.RealChainIsSound(st, w.H, ch, n);
  }

  lemma BackAborts(n: NodeId, w: World, range: TimeRange, tok: nat, now: Timestamp, rnd: nat -> nat)
    requires Stands(Alone(n, 0), n, w, Log([BackEvent(n)], [At(0, BackFirst(n)), At(1, BackSecond(n))], 2), [[BackEvent(n)], []],
                    [Ck(BackFirst(n), 20), Ev(BackEvent(n), 20), Ck(BackSecond(n), 10)])
    ensures var st, a := Alone(n, 0), QueryChain(n, BackEvent(n), range, tok, now, rnd);
      Enabled(st, w, a) && Discovery.ChainFailed(tok, BackEvent(n)) in Step(st, w, a).nodes[n].disc.answers
  {
    hide ClockHash, EventHash, ChainBuild.Enclose;
    var st, e, a := Alone(n, 0), BackEvent(n), QueryChain(n, BackEvent(n), range, tok, now, rnd);
    assert w.H[1].Ev? && w.H[1].e == e;
    BackEnclosed(n);
    var x := Discovery.NewChain(e, range, Discovery.Client(tok), now);
    assert [] + [x] == [x] && Front([Discovery.Client(tok)]) == [];
  }

  // ---------------------------------------------------------------------------
  // a tick moves a lower bound later
  // ---------------------------------------------------------------------------

  /** Chain 0 ticks at 10 and chain 1 at 20, an event pins both tips, chain 0 ticks again. It
      keeps one clock event. */
  function RingRun(n: NodeId): seq<Action> {
    [DoTick(n, 0, 0, 10), DoTick(n, 1, 0, 20), DoPublish(n, [], 0, 20)]
  }

  function RingFirst(n: NodeId): ClockEvent {
    Clock(n, 0, 10, [])
  }

  function RingOther(n: NodeId): ClockEvent {
    Clock(n, 1, 20, [])
  }

  function RingEvent(n: NodeId): Event {
    Published(n, [ClockRef(RingFirst(n)), ClockRef(RingOther(n))])
  }

  function RingSecond(n: NodeId): ClockEvent {
    Clock(n, 0, 30, [ClockRef(RingFirst(n)), EventRef(RingEvent(n))])
  }

  lemma WeightOfTwo(r: EventReference, q: EventReference)
    ensures Weight([r, q]) == |r.creator.bytes| + |r.hash| + |q.creator.bytes| + |q.hash|
  {
    assert [r, q][1..] == [q] && [q][1..] == [];
    assert Weight([q]) == |q.creator.bytes| + |q.hash|;
  }

  lemma RingHashes(n: NodeId)
    ensures var c0, c1, e, c2 := RingFirst(n).hash, RingOther(n).hash, RingEvent(n).hash, RingSecond(n).hash;
      c0 != c1 && c0 != e && c1 != e && c0 != c2 && c1 != c2 && e != c2
  {
    hide ClockHash, EventHash;
    ChainsDiffer(10, 20);
    ClockHashLength(0, 10, []);
    ClockHashLength(1, 20, []);
    WeightOfTwo(ClockRef(RingFirst(n)), ClockRef(RingOther(n)));
    EventHashLength(RingEvent(n).refs);
    WeightOfTwo(ClockRef(RingFirst(n)), EventRef(RingEvent(n)));
    ClockHashLength(0, 30, RingSecond(n).refs);
  }

  /** The tips of a node both of whose chains have ticked once. */
  lemma TwoTips(e: Entry, f: Entry)
    requires e.ce.base.chain == 0 && f.ce.base.chain == 1
    ensures Tip([e, f], 0) == Some(e) && TipRef([e, f], 0) == [ClockRef(e.ce.base)] && TipRef([e, f], 1) == [ClockRef(f.ce.base)]
    ensures LiveTipRefs([e, f], 2) == [ClockRef(e.ce.base), ClockRef(f.ce.base)]
  {
    var live := [e, f];
    assert e in live && f in live;
    assert Tip(live, 0).Some? && Tip(live, 0).value in live;
    assert Tip(live, 1).Some? && Tip(live, 1).value in live;
    assert LiveTipRefs(live, 1) == [] + [ClockRef(e.ce.base)];
    assert LiveTipRefs(live, 2) == LiveTipRefs(live, 1) + [ClockRef(f.ce.base)];
  }

  lemma RingTicked(n: NodeId) returns (w: World)
    ensures Runs(Alone(n, 1), [DoTick(n, 0, 0, 10), DoTick(n, 1, 0, 20)], w)
    ensures var c0, c1 := RingFirst(n), RingOther(n);
      Stands(Alone(n, 1), n, w, Log([], [At(0, c0), At(1, c1)], 2), [[], []], [Ck(c0, 10), Ck(c1, 20)])
  {
    hide Step, Enabled, Start, Runs, Stands, ClockHash, EventHash;
    var st, c0, c1 := Alone(n, 1), RingFirst(n), RingOther(n);
    RingHashes(n);
    w := FirstTick(n, 1, 10);
    OneTip(At(0, c0));
    assert Next(n, [At(0, c0)], 1, 20, []) == c1 by {
      var unpinned: seq<Event> := [];
      assert TipRef([At(0, c0)], 1) + EventRefs(unpinned) == [];
      assert Front([At(0, c0)]) == [];
    }
    NotYet([Ck(c0, 10)], c1.hash);
    Ticks(n, 1, w, Log([], [At(0, c0)], 1), [[], []], [Ck(c0, 10)], 1, 20);
    RunsOn(st, [DoTick(n, 0, 0, 10)], w, DoTick(n, 1, 0, 20));
    w := Step(st, w, DoTick(n, 1, 0, 20));
    assert [DoTick(n, 0, 0, 10)] + [DoTick(n, 1, 0, 20)] == [DoTick(n, 0, 0, 10), DoTick(n, 1, 0, 20)];
    assert [Ck(c0, 10)] + [Ck(c1, 20)] == [Ck(c0, 10), Ck(c1, 20)];
    var none: seq<seq<Event>> := [[], []];
    assert none[1 := []] == none && [At(0, c0)] + [At(1, c1)] == [At(0, c0), At(1, c1)];
  }

  lemma RingReached(n: NodeId) returns (w: World)
    ensures Runs(Alone(n, 1), RingRun(n), w)
    ensures var e := RingEvent(n);
      Stands(Alone(n, 1), n, w, Log([e], [At(0, RingFirst(n)), At(1, RingOther(n))], 2), [[e], [e]],
             [Ck(RingFirst(n), 10), Ck(RingOther(n), 20), Ev(e, 20)])
  {
    hide Step, Enabled, Start, Runs, Stands, ClockHash, EventHash, PushAll;
    var st, c0, c1, e := Alone(n, 1), RingFirst(n), RingOther(n), RingEvent(n);
    var H, done := [Ck(c0, 10), Ck(c1, 20)], [DoTick(n, 0, 0, 10), DoTick(n, 1, 0, 20)];
    RingHashes(n);
    w := RingTicked(n);
    TwoTips(At(0, c0), At(1, c1));
    NotYet(H, e.hash);
    Publishes(n, 1, w, Log([], [At(0, c0), At(1, c1)], 2), [[], []], H, 20);
    RunsOn(st, done, w, DoPublish(n, [], 0, 20));
    w := Step(st, w, DoPublish(n, [], 0, 20));
    assert done + [DoPublish(n, [], 0, 20)] == RingRun(n);
    assert H + [Ev(e, 20)] == [Ck(c0, 10), Ck(c1, 20), Ev(e, 20)];
    PushedOnce(e);
  }

  lemma RingTicks(n: NodeId, w: World)
    requires var e := RingEvent(n);
      Stands(Alone(n, 1), n, w, Log([e], [At(0, RingFirst(n)), At(1, RingOther(n))], 2), [[e], [e]],
             [Ck(RingFirst(n), 10), Ck(RingOther(n), 20), Ev(e, 20)])
    ensures var st, a, e := Alone(n, 1), DoTick(n, 0, 0, 30), RingEvent(n);
      && Enabled(st, w, a)
      && Stands(st, n, Step(st, w, a), Log([e], [At(1, RingOther(n)), At(2, RingSecond(n))], 3), [[], [e]],
                [Ck(RingFirst(n), 10), Ck(RingOther(n), 20), Ev(e, 20), Ck(RingSecond(n), 30)])
  {
    hide Step, Enabled, Stands, ClockHash, EventHash, TipRef, Tip;
    var c0, c1, e, c2 := RingFirst(n), RingOther(n), RingEvent(n), RingSecond(n);
    var live, H := [At(0, c0), At(1, c1)], [Ck(c0, 10), Ck(c1, 20), Ev(e, 20)];
    RingHashes(n);
    TwoTips(At(0, c0), At(1, c1));
    assert Next(n, live, 0, 30, [e]) == c2 by {
      assert EventRefs([e]) == [EventRef(e)] && [ClockRef(c0)] + [EventRef(e)] == c2.refs;
    }
    NotYet(H, c2.hash);
    Ticks(n, 1, w, Log([e], live, 2), [[e], [e]], H, 0, 30);
    assert H + [Ck(c2, 30)] == [Ck(c0, 10), Ck(c1, 20), Ev(e, 20), Ck(c2, 30)];
    assert [[e], [e]][0 := []] == [[], [e]];
    OneKept(At(0, c0), At(1, c1), At(2, c2));
    assert live + [At(2, c2)] == [At(0, c0), At(1, c1), At(2, c2)];
  }

  lemma OneKept(x: Entry, y: Entry, z: Entry)
    requires x.ce.base.chain == z.ce.base.chain != y.ce.base.chain
    ensures KeepNewest([x, y, z], x.ce.base.chain, 1) == [y, z]
  {
    var c := x.ce.base.chain;
    assert Front([x]) == [] && Front([x, y]) == [x] && Front([x, y, z]) == [x, y];
    assert KeepNewest([x], c, 0) == [];
    assert KeepNewest([x, y], c, 0) == [y];
  }

  /** On a node whose clock never goes backward, one more tick moves the lower bound of an event
      it published from 10 to 20. */
  lemma PruningCanTightenLower(n: NodeId) returns (v: World, w: World)
    ensures var st := Alone(n, 1); var ch := EventChain(RingEvent(n), [], []);
      && HonestSigner(st.cr) && Runs(st, RingRun(n), v) && Runs(st, RingRun(n) + [DoTick(n, 0, 0, 30)], w) && Monotone(w.H, n)
      && n in v.nodes && n in w.nodes && HasEvent(v.H, ch.event)
      && LowerBound.LowerStamp(v.nodes[n].log.live, n, ch) == Some(10)
      && LowerBound.LowerStamp(w.nodes[n].log.live, n, ch) == Some(20)
  {
    hide Step, Enabled, Runs, ClockHash, EventHash, Monotone;
    var st, c0, c1, e, c2 := Alone(n, 1), RingFirst(n), RingOther(n), RingEvent(n), RingSecond(n);
    v := RingReached(n);
    RingTicks(n, v);
    RunsOn(st, RingRun(n), v, DoTick(n, 0, 0, 30));
    w := Step(st, v, DoTick(n, 0, 0, 30));
    assert v.H[2].Ev? && v.H[2].e == e;
    RingSteady(n);
    RingHashes(n);
    OnlyHolder([At(0, c0), At(1, c1)], 0);
    OnlyHolder([At(1, c1), At(2, c2)], 0);
    Absent([At(1, c1), At(2, c2)], c0.hash);
    FirstOfTwo([At(0, c0), At(1, c1)], n, e);
    FirstOfTwo([At(1, c1), At(2, c2)], n, e);
  }

  lemma RingSteady(n: NodeId)
    ensures Monotone([Ck(RingFirst(n), 10), Ck(RingOther(n), 20), Ev(RingEvent(n), 20), Ck(RingSecond(n), 30)], n)
  {
    hide ClockHash, EventHash;
  }

  lemma Absent(live: seq<Entry>, h: Hash)
    requires |live| == 2 && live[0].ce.base.hash != h && live[1].ce.base.hash != h
    ensures ByHash(live, h) == None
  {
  }

  lemma FirstOfTwo(live: seq<Entry>, n: NodeId, e: Event)
    requires |e.refs| == 2 && e.refs[0].creator == e.refs[1].creator == n
    ensures var a, b := ByHash(live, e.refs[0].hash), ByHash(live, e.refs[1].hash);
      LowerBound.LowerStamp(live, n, EventChain(e, [], [])) ==
        if a.Some? then Some(a.value.ce.base.timestamp) else if b.Some? then Some(b.value.ce.base.timestamp) else None
  {
    hide ByHash;
    var last := [e.refs[1]];
    assert e.refs[1..] == last && last[1..] == [];
    assert FirstOwn(live, n, last) == ByHash(live, e.refs[1].hash);
  }
}
