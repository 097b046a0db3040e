/** A node can always bound its own events while one chain's two pins around them survive,
    however far its other chains are pruned. */
module Bounds {
  import opened Domain
  import opened Hashing
  import opened History
  import opened Log
  import opened NodeModel
  import opened Network
  import opened DiscoveryLaws
  import opened Invariant
  import opened Preservation
  import ChainBuild
  import Discovery
  import Validate

  /** No tick of node `n` on chain `c` strictly between items `i` and `j`. */
  ghost predicate Quiet(H: History, i: int, j: int, n: NodeId, c: nat)
    requires -1 <= i <= j <= |H|
  {
    forall m :: i < m < j ==> !TickOn(H, m, n, c)
  }

  /** An event stays in a chain's tail until that chain's next tick ... */
  lemma {:induction false} TailHolds(H: History, n: NodeId, c: nat, k: nat, j: nat)
    requires k < j <= |H| && H[k].Ev? && H[k].e.creator == n && Quiet(H, k, j, n, c)
    ensures H[k].e in TailOf(H[..j], n, c)
    decreases j
  {
    var P := H[..j];
    assert Front(P) == H[..j - 1] && Last(P) == H[j - 1];
    if j > k + 1 {
      TailHolds(H, n, c, k, j - 1);
      assert !TickOn(H, j - 1, n, c);
    }
  }

  /** ... which therefore references it. */
  lemma TickPinsEvent(st: Setup, H: History, n: NodeId, c: nat, k: nat, j: nat)
    requires Ok(st, H) && k < j < |H| && H[k].Ev? && H[k].e.creator == n && TickOn(H, j, n, c) && Quiet(H, k, j, n, c)
    ensures EventRef(H[k].e) in H[j].c.refs
  {
    hide Ok, EventsOf, TailOf, ClocksOn, IsClockOn, Quiet, LastRef;
    TailHolds(H, n, c, k, j);
    var G := H[..j];
    TailIsSuffix(G, n, c);
    var t := TickRefsAt(st, H, j);
    PinnedInSuffix(EventsOf(G, n), TailOf(G, n, c), t, H[j].c.refs, H[k].e);
  }

  lemma PinnedInSuffix(events: seq<Event>, tail: seq<Event>, t: nat, refs: seq<EventReference>, e: Event)
    requires |tail| <= t <= |events| && events[|events| - |tail|..] == tail && e in tail
    requires t <= |refs| && refs[|refs| - t..] == EventRefs(events[|events| - t..])
    ensures EventRef(e) in refs
  {
    var i :| 0 <= i < |tail| && tail[i] == e;
    var pinned := events[|events| - t..];
    assert pinned[t - |tail| + i] == e;
    assert EventRefs(pinned)[t - |tail| + i] == EventRef(e);
    assert refs[|refs| - t..][t - |tail| + i] == refs[|refs| - |tail| + i];
  }

  lemma {:induction false} TipStays(H: History, n: NodeId, c: nat, i: nat, k: nat)
    requires i < k <= |H| && TickOn(H, i, n, c) && Quiet(H, i, k, n, c)
    ensures ClocksOn(H[..k], n, c) != [] && Last(ClocksOn(H[..k], n, c)) == H[i].c
    decreases k
  {
    var P := H[..k];
    assert Front(P) == H[..k - 1] && Last(P) == H[k - 1];
    if k > i + 1 {
      TipStays(H, n, c, i, k - 1);
      assert !TickOn(H, k - 1, n, c);
    }
  }

  lemma {:induction false} TipRefsContain(H: History, n: NodeId, K: nat, c: nat, r: EventReference)
    requires c < K && r in LastRef(ClocksOn(H, n, c))
    ensures r in TipRefs(H, n, K)
  {
    hide ClocksOn, LastRef;
    var older, newest := TipRefs(H, n, K - 1), LastRef(ClocksOn(H, n, K - 1));
    assert TipRefs(H, n, K) == older + newest;
    if c < K - 1 {
      TipRefsContain(H, n, K - 1, c, r);
    }
  }

  /** An event references the tip of every chain that had one. */
  lemma EventPinsTip(st: Setup, H: History, n: NodeId, c: nat, i: nat, k: nat)
    requires Ok(st, H) && n in st.cfg && c < st.cfg[n].NumChains()
    requires i < k < |H| && TickOn(H, i, n, c) && Quiet(H, i, k, n, c) && H[k].Ev? && H[k].e.creator == n
    ensures ClockRef(H[i].c) in H[k].e.refs
  {
    OkAt(st, H, k);
    TipStays(H, n, c, i, k);
    TipRefsContain(H[..k], n, st.cfg[n].NumChains(), c, ClockRef(H[i].c));
  }

  ghost predicate IsLive(live: seq<Entry>, c: ClockEvent) {
    exists e :: e in live && e.ce.base == c
  }

  /** Both local bounds attach whenever one chain's pins around the event are live. */
  lemma PinsAttach(st: Setup, H: History, n: NodeId, live: seq<Entry>, c: nat, i: nat, k: nat, j: nat)
    requires Ok(st, H) && n in st.cfg && c < st.cfg[n].NumChains()
    requires i < k < j < |H| && TickOn(H, i, n, c) && TickOn(H, j, n, c) && H[k].Ev? && H[k].e.creator == n
    requires Quiet(H, i, k, n, c) && Quiet(H, k, j, n, c)
    requires IsLive(live, H[i].c) && IsLive(live, H[j].c)
    ensures ChainBuild.Enclose(live, n, EventChain(H[k].e, [], [])).1
  {
    var e := H[k].e;
    EventPinsTip(st, H, n, c, i, k);
    var lo :| lo in live && lo.ce.base == H[i].c;
    assert ByHash(live, H[i].c.hash).Some?;
    assert FirstOwn(live, n, e.refs).Some?;
    TickPinsEvent(st, H, n, c, k, j);
    var hi :| hi in live && hi.ce.base == H[j].c;
    var m :| 0 <= m < |H[j].c.refs| && H[j].c.refs[m] == EventRef(e);
    assert Mentions(hi.ce.base.refs, e.hash);
    assert FirstReferencing(live, e.hash).Some?;
  }

  /** The publisher's readings, at publications and ticks alike, never go backward. */
  ghost predicate Steady(H: History, n: NodeId) {
    forall i, j :: 0 <= i < j < |H| && H[i].Creator() == n && H[j].Creator() == n ==> H[i].now <= H[j].now
  }

  /** A real enclosing chain of the event's own creator brackets the moment of publication. */
  lemma BracketsPublication(st: Setup, H: History, n: NodeId, ch: EventChain)
    requires Ok(st, H) && RealChain(H, ch) && Validate.Encloses(ch, n) && ch.event.creator == n && Steady(H, n)
    ensures IndexOf(H, ch.event.hash) >= 0
    ensures var t := H[IndexOf(H, ch.event.hash)].now; ch.lower[0].timestamp <= t <= Last(ch.upper).timestamp
  {
    ChainBuild.EnclosureIsTrue(st, H, ch);
    StampIsReading(st, H, n, IndexOf(H, ch.lower[0].hash));
    StampIsReading(st, H, n, IndexOf(H, Last(ch.upper).hash));
  }

  /** A fresh query by an event's own creator completes on the spot, with an interval that
      encloses the moment of publication, as long as one chain had a tip then, has ticked since,
      and still holds those two clock events. */
  lemma OwnEventsStayBounded(st: Setup, w: World, n: NodeId, c: nat, i: nat, k: nat, j: nat,
                             range: TimeRange, tok: nat, now: Timestamp, rnd: nat -> nat)
    requires HonestSigner(st.cr) && Reachable(st, w) && n in w.nodes && n in st.cfg && Steady(w.H, n)
    requires c < st.cfg[n].NumChains()
    requires i < k < j < |w.H| && TickOn(w.H, i, n, c) && TickOn(w.H, j, n, c) && w.H[k].Ev? && w.H[k].e.creator == n
    requires Quiet(w.H, i, k, n, c) && Quiet(w.H, k, j, n, c)
    requires IsLive(w.nodes[n].log.live, w.H[i].c) && IsLive(w.nodes[n].log.live, w.H[j].c)
    requires Discovery.ChainAt(w.nodes[n].disc.chains, w.H[k].e.hash) < 0
    ensures var e := w.H[k].e;
      var (s, out) := DiscoverChain(w.nodes[n], st.cr, e, range, Discovery.Client(tok), now, rnd);
      var ch := ChainBuild.Enclose(w.nodes[n].log.live, n, EventChain(e, [], [])).0;
      && out == [] && s.disc.answers == w.nodes[n].disc.answers + [Discovery.ChainDone(tok, e, ch)]
      && |ch.lower| == 1 && |ch.upper| == 1
      && ch.lower[0].timestamp <= w.H[k].now <= ch.upper[0].timestamp
  {
    ReachableInv(st, w);
    OwnQueryCompletes(st, w.H, n, w.nodes[n], c, i, k, j, range, tok, now);
  }

  lemma OwnQueryCompletes(st: Setup, H: History, n: NodeId, s: NodeState, c: nat, i: nat, k: nat, j: nat, range: TimeRange, tok: nat, now: Timestamp)
    requires Ok(st, H) && NodeOk(st, H, n, s) && Steady(H, n) && c < st.cfg[n].NumChains()
    requires i < k < j < |H| && TickOn(H, i, n, c) && TickOn(H, j, n, c) && H[k].Ev? && H[k].e.creator == n
    requires Quiet(H, i, k, n, c) && Quiet(H, k, j, n, c)
    requires IsLive(s.log.live, H[i].c) && IsLive(s.log.live, H[j].c)
    requires Discovery.ChainAt(s.disc.chains, H[k].e.hash) < 0
    ensures var e := H[k].e;
      var d := Discovery.AskChain(s.disc, st.cr, n, s.log.live, e, range, Discovery.Client(tok), now);
      var ch := ChainBuild.Enclose(s.log.live, n, EventChain(e, [], [])).0;
      && d.answers == s.disc.answers + [Discovery.ChainDone(tok, e, ch)]
      && |ch.lower| == 1 && |ch.upper| == 1
      && ch.lower[0].timestamp <= H[k].now <= ch.upper[0].timestamp
  {
    var e := H[k].e;
    var seed := EventChain(e, [], []);
    PinsAttach(st, H, n, s.log.live, c, i, k, j);
    SeedReal(H, e);
    ChainBuild.EncloseReal(st, H, s.log.live, n, seed);
    var ch := ChainBuild.Enclose(s.log.live, n, seed).0;
    ChainBuild.RealChainIsSound(st, H, ch, n);
    Unique(st, H, k);
    BracketsPublication(st, H, n, ch);
    FirstAnswer(s.disc, st.cr, n, s.log.live, e, range, tok, now);
  }

  lemma FirstAnswer(d: Discovery.Disc, cr: Crypto, id: NodeId, live: seq<Entry>, e: Event, range: TimeRange, tok: nat, now: Timestamp)
    requires Discovery.ChainAt(d.chains, e.hash) < 0 && e.creator == id
    requires var (ch, attached) := ChainBuild.Enclose(live, id, EventChain(e, [], [])); attached && Validate.Sound(cr, ch, id)
    ensures Discovery.AskChain(d, cr, id, live, e, range, Discovery.Client(tok), now).answers
      == d.answers + [Discovery.ChainDone(tok, e, ChainBuild.Enclose(live, id, EventChain(e, [], [])).0)]
  {
    var ch := ChainBuild.Enclose(live, id, EventChain(e, [], [])).0;
    var ws := [Discovery.Client(tok)];
    assert Front(ws) == [] && Last(ws) == Discovery.Client(tok);
    var i := |d.chains|;
    var d1 := d.(chains := d.chains + [Discovery.NewChain(e, range, Discovery.Client(tok), now)]);
    var d2 := d1.(chains := d1.chains[i := d1.chains[i].(chain := ch)]);
    var d3 := d2.(chains := d2.chains[i := d2.chains[i].(state := Discovery.Completed)]);
    assert Discovery.Conclude(d1, i, ch, true, cr, id) == Discovery.TellAllDone(d3, ws, e, ch);
    assert Discovery.TellAllDone(d3, ws, e, ch) == Discovery.TellDone(d3, Discovery.Client(tok), e, ch);
  }

  // ---------------------------------------------------------------------------
  // pruning and the bounds
  // ---------------------------------------------------------------------------

  /** Whatever is dropped from the store, the upper bound of an event never moves earlier. */
  lemma PruningNeverTightensUpper(st: Setup, H: History, n: NodeId, log: Log, live': seq<Entry>, ch: EventChain)
    requires Ok(st, H) && n in st.cfg && StoreOk(st, H, n, log) && Monotone(H, n)
    requires forall e :: e in live' ==> e in log.live
    requires ChainBuild.AddUpper(live', ch).Some?
    ensures ChainBuild.AddUpper(log.live, ch).Some?
    ensures Last(ChainBuild.AddUpper(log.live, ch).value.upper).timestamp <= Last(ChainBuild.AddUpper(live', ch).value.upper).timestamp
  {
    var h := if ch.upper == [] then ch.event.hash else Last(ch.upper).hash;
    var late := FirstReferencing(live', h).value;
    assert late in log.live && Mentions(late.ce.base.refs, h);
    assert FirstReferencing(log.live, h).Some?;
    var first := FirstReferencing(log.live, h).value;
    OldestIsLowest(log.live, log.next, h, late);
    ChainBuild.ClockPlace(st, H, first.ce.base);
    ChainBuild.ClockPlace(st, H, late.ce.base);
    StampsOrdered(st, H, n, IndexOf(H, first.ce.base.hash), IndexOf(H, late.ce.base.hash));
  }
}
