/** Queries move on: a bounds query always stands where its chain query stands, and an order
    query where its two chain queries do. It completes when the second of them completes, in
    whichever order they do, and aborts as soon as one of them aborts. */
module Progress {
  import opened Domain
  import opened Hashing
  import opened Log
  import opened Discovery
  import opened DiscoveryLaws
  import ChainBuild
  import Validate

  // ---------------------------------------------------------------------------
  // the chain query behind a hash
  // ---------------------------------------------------------------------------

  function Look(cs: seq<ChainEntry>, h: Hash): (r: Option<ChainEntry>)
    ensures r.Some? ==> r.value in cs && r.value.event.hash == h
  {
    var i := ChainAt(cs, h);
    if i >= 0 then Some(cs[i]) else None
  }

  ghost predicate Completes(cs: seq<ChainEntry>, h: Hash) {
    Look(cs, h).Some? && Look(cs, h).value.state.Completed?
  }

  ghost predicate Aborts(cs: seq<ChainEntry>, h: Hash) {
    Look(cs, h).Some? && Look(cs, h).value.state.Aborted?
  }

  /** The chain query is in progress and the node itself waits on it. */
  ghost predicate Awaited(cs: seq<ChainEntry>, h: Hash) {
    Look(cs, h).Some? && Look(cs, h).value.state.InProgress? && Node in Look(cs, h).value.waiters
  }

  lemma {:induction false} LookUpdated(cs: seq<ChainEntry>, i: nat, e: ChainEntry, h: Hash)
    requires i < |cs| && e.event.hash == cs[i].event.hash && i == ChainAt(cs, cs[i].event.hash)
    ensures Look(cs[i := e], h) == if h == e.event.hash then Some(e) else Look(cs, h)
  {
    assert cs[i := e] == Front(cs[i := e]) + [Last(cs[i := e])];
    if i < |cs| - 1 {
      assert Front(cs[i := e]) == Front(cs)[i := e];
      LookUpdated(Front(cs), i, e, h);
    } else {
      assert Front(cs[i := e]) == Front(cs);
    }
  }

  lemma LookAppended(cs: seq<ChainEntry>, e: ChainEntry, h: Hash)
    ensures Look(cs + [e], h) == if h == e.event.hash then Some(e) else Look(cs, h)
  {
    assert Front(cs + [e]) == cs;
  }

  // ---------------------------------------------------------------------------
  // being in step
  // ---------------------------------------------------------------------------

  /** In the middle of an operation some hashes are pending: their chain queries count as in
      progress whatever they are. */
  type Pending = set<Hash>

  ghost predicate Done(cs: seq<ChainEntry>, u: Pending, h: Hash) {
    h !in u && Completes(cs, h)
  }

  ghost predicate Failed(cs: seq<ChainEntry>, u: Pending, h: Hash) {
    h !in u && Aborts(cs, h)
  }

  ghost predicate Underway(cs: seq<ChainEntry>, u: Pending, h: Hash) {
    h in u || Awaited(cs, h)
  }

  /** A bounds query is completed, with its chain's ends, exactly when its chain query is;
      aborted exactly when that is; and in progress only while the node waits on it. */
  ghost predicate BoundsInStep(cs: seq<ChainEntry>, u: Pending, b: BoundsEntry) {
    var h := b.event.hash;
    && (b.state.InProgress? ==> Underway(cs, u, h))
    && (b.state.Completed? ==> Done(cs, u, h) && Ends(Look(cs, h).value.chain, b.lower, b.upper))
    && (b.state.Aborted? ==> Failed(cs, u, h))
  }

  ghost predicate Ends(ch: EventChain, lower: Timestamp, upper: Timestamp) {
    Bounded(ch) && lower == ch.lower[0].timestamp && upper == Last(ch.upper).timestamp
  }

  /** An order query is completed, with the comparison of its two chains, exactly when both
      chain queries are; aborted exactly when one of them is; and otherwise in progress, the node
      waiting on each that is not done. */
  ghost predicate OrderInStep(cs: seq<ChainEntry>, u: Pending, o: OrderEntry) {
    var h1, h2 := o.event1.hash, o.event2.hash;
    && (o.state.InProgress? ==>
          && (Underway(cs, u, h1) || Done(cs, u, h1)) && (Underway(cs, u, h2) || Done(cs, u, h2))
          && !(Done(cs, u, h1) && Done(cs, u, h2)))
    && (o.state.Completed? ==>
          && Done(cs, u, h1) && Done(cs, u, h2)
          && o.order == Compared(Look(cs, h1).value.chain, Look(cs, h2).value.chain))
    && (o.state.Aborted? ==> Failed(cs, u, h1) || Failed(cs, u, h2))
  }

  ghost predicate BoundsFine(cs: seq<ChainEntry>, u: Pending, b: BoundsEntry) {
    BoundsInStep(cs, {}, b) || BoundsInStep(cs, u, b)
  }

  ghost predicate OrderFine(cs: seq<ChainEntry>, u: Pending, o: OrderEntry) {
    OrderInStep(cs, {}, o) || OrderInStep(cs, u, o)
  }

  /** A chain entry's chain is about its event, and bounded once completed. */
  ghost predicate ChainFine(e: ChainEntry) {
    e.chain.event.hash == e.event.hash && (e.state.Completed? ==> Bounded(e.chain))
  }

  ghost predicate OneBounds(bs: seq<BoundsEntry>) {
    forall i, j :: 0 <= i < j < |bs| ==> bs[i].event.hash != bs[j].event.hash
  }

  /** The tables are in step, up to what is pending. */
  ghost predicate InStep(d: Disc, u: Pending) {
    && (forall e :: e in d.chains ==> ChainFine(e))
    && (forall b :: b in d.bounds ==> BoundsFine(d.chains, u, b))
    && (forall o :: o in d.orders ==> OrderFine(d.chains, u, o))
    && OneBounds(d.bounds)
  }

  // ---------------------------------------------------------------------------
  // a completed chain is offered
  // ---------------------------------------------------------------------------

  /** What a completed chain decides, said without the order of its two events: an order query
      in progress one of whose events it is about is completed, with the comparison of the two
      chains, exactly when both are there; every other stays as it is. */
  lemma DecidedIsExact(d: Disc, o: OrderEntry, ch: EventChain)
    requires Look(d.chains, ch.event.hash).Some? && Look(d.chains, ch.event.hash).value.chain == ch && Completes(d.chains, ch.event.hash)
    ensures var h1, h2 := o.event1.hash, o.event2.hash;
      Decided(d, o, ch) ==
        if o.state.InProgress? && ch.event.hash in {h1, h2} && Completes(d.chains, h1) && Completes(d.chains, h2)
        then o.(order := Compared(Look(d.chains, h1).value.chain, Look(d.chains, h2).value.chain), state := Completed)
        else o
  {
  }

  lemma DecidedFine(d: Disc, o: OrderEntry, ch: EventChain, u: Pending)
    requires Look(d.chains, ch.event.hash).Some? && Look(d.chains, ch.event.hash).value.chain == ch && Completes(d.chains, ch.event.hash)
    requires OrderFine(d.chains, u, o)
    ensures OrderFine(d.chains, u - {ch.event.hash}, Decided(d, o, ch))
  {
    hide Decided;
    DecidedIsExact(d, o, ch);
  }

  /** All order entries are decided independently of each other. */
  lemma {:induction false} CompleteOrdersPointwise(d: Disc, ch: EventChain, k: nat)
    requires k <= |d.orders|
    ensures var r := CompleteOrders(d, ch, k);
      forall j :: 0 <= j < |d.orders| ==> r.orders[j] == if j < k then Decided(d, d.orders[j], ch) else d.orders[j]
  {
    hide Decided, CompleteOrders;
    OrdersStep(d, ch, k);
    if k > 0 {
      CompleteOrdersPointwise(d, ch, k - 1);
      var d1 := CompleteOrders(d, ch, k - 1);
      SameDecision(d, d1, d.orders[k - 1], ch);
      OfferedSets(d1, k - 1, ch);
    }
  }

  lemma SameDecision(d: Disc, d1: Disc, o: OrderEntry, ch: EventChain)
    requires d1.chains == d.chains
    ensures Decided(d1, o, ch) == Decided(d, o, ch)
  {
  }

  lemma OfferedSets(d: Disc, i: nat, ch: EventChain)
    requires i < |d.orders|
    ensures Offered(d, i, ch).orders == d.orders[i := Decided(d, d.orders[i], ch)]
  {
  }

  lemma CompleteBoundsFine(d: Disc, ch: EventChain, u: Pending)
    requires InStep(d, u)
    requires Look(d.chains, ch.event.hash).Some? && Look(d.chains, ch.event.hash).value.chain == ch && Completes(d.chains, ch.event.hash)
    ensures InStepBut(CompleteBounds(d, ch), u, ch.event.hash)
  {
    var h, r := ch.event.hash, CompleteBounds(d, ch);
    assert Bounded(ch) by {
      assert ChainFine(Look(d.chains, h).value);
    }
    var i := BoundsAt(d.bounds, h);
    forall b | b in r.bounds
      ensures BoundsFine(d.chains, u - {h}, b)
    {
      var j :| 0 <= j < |r.bounds| && r.bounds[j] == b;
      assert BoundsFine(d.chains, u, d.bounds[j]);
      if j != i && i >= 0 {
        assert d.bounds[j].event.hash != h;
      }
    }
  }

  /** Bounds are in step with `h` no longer pending, orders still with it pending. */
  ghost predicate InStepBut(d: Disc, u: Pending, h: Hash) {
    && (forall e :: e in d.chains ==> ChainFine(e))
    && (forall b :: b in d.bounds ==> BoundsFine(d.chains, u - {h}, b))
    && (forall o :: o in d.orders ==> OrderFine(d.chains, u, o))
    && OneBounds(d.bounds)
  }

  lemma CompletedInStep(d: Disc, ch: EventChain, u: Pending)
    requires InStep(d, u)
    requires Look(d.chains, ch.event.hash).Some? && Look(d.chains, ch.event.hash).value.chain == ch && Completes(d.chains, ch.event.hash)
    ensures InStep(OnChainCompleted(d, ch), u - {ch.event.hash})
  {
    hide OrderFine, BoundsFine, ChainFine, CompleteBounds, CompleteOrders, Decided;
    CompleteBoundsFine(d, ch, u);
    BoundsOnly(d, ch);
    var d1 := CompleteBounds(d, ch);
    CompleteOrdersPointwise(d1, ch, |d1.orders|);
    var r := OnChainCompleted(d, ch);
    forall o | o in r.orders
      ensures OrderFine(r.chains, u - {ch.event.hash}, o)
    {
      var j :| 0 <= j < |r.orders| && r.orders[j] == o;
      assert d1.orders[j] in d1.orders;
      DecidedFine(d1, d1.orders[j], ch, u);
    }
  }

  lemma BoundsOnly(d: Disc, ch: EventChain)
    ensures var r := CompleteBounds(d, ch); r.chains == d.chains && r.orders == d.orders
  {
  }

  // ---------------------------------------------------------------------------
  // an aborted chain is reported
  // ---------------------------------------------------------------------------

  function AbortedOrder(o: OrderEntry, h: Hash): OrderEntry {
    if o.state.InProgress? && (o.event1.hash == h || o.event2.hash == h) then o.(state := Aborted) else o
  }

  lemma {:induction false} AbortOrdersPointwise(d: Disc, h: Hash, k: nat)
    requires k <= |d.orders|
    ensures var r := AbortOrders(d, h, k);
      forall j :: 0 <= j < |d.orders| ==> r.orders[j] == if j < k then AbortedOrder(d.orders[j], h) else d.orders[j]
  {
    if k > 0 {
      AbortOrdersPointwise(d, h, k - 1);
    }
  }

  lemma AbortedOrderFine(cs: seq<ChainEntry>, o: OrderEntry, h: Hash, u: Pending)
    requires Aborts(cs, h) && OrderFine(cs, u, o)
    ensures OrderFine(cs, u - {h}, AbortedOrder(o, h))
  {
  }

  lemma AbortBoundsFine(d: Disc, h: Hash, u: Pending)
    requires InStep(d, u) && Aborts(d.chains, h)
    ensures InStepBut(AbortBounds(d, h), u, h)
  {
    var r := AbortBounds(d, h);
    var i := BoundsAt(d.bounds, h);
    forall b | b in r.bounds
      ensures BoundsFine(d.chains, u - {h}, b)
    {
      var j :| 0 <= j < |r.bounds| && r.bounds[j] == b;
      assert BoundsFine(d.chains, u, d.bounds[j]);
      if j != i && i >= 0 {
        assert d.bounds[j].event.hash != h;
      }
    }
  }

  lemma AbortedInStep(d: Disc, event: Event, u: Pending)
    requires InStep(d, u) && Aborts(d.chains, event.hash)
    ensures InStep(OnChainAborted(d, event), u - {event.hash})
  {
    hide OrderFine, BoundsFine, ChainFine, AbortBounds, AbortOrders, AbortedOrder;
    var h := event.hash;
    AbortBoundsFine(d, h, u);
    AbortBoundsOnly(d, h);
    var d1 := AbortBounds(d, h);
    AbortOrdersPointwise(d1, h, |d1.orders|);
    var r := OnChainAborted(d, event);
    forall o | o in r.orders
      ensures OrderFine(r.chains, u - {h}, o)
    {
      var j :| 0 <= j < |r.orders| && r.orders[j] == o;
      assert d1.orders[j] in d1.orders;
      AbortedOrderFine(d1.chains, d1.orders[j], h, u);
    }
  }

  lemma AbortBoundsOnly(d: Disc, h: Hash)
    ensures var r := AbortBounds(d, h); r.chains == d.chains && r.orders == d.orders
  {
  }

  // ---------------------------------------------------------------------------
  // telling the waiters
  // ---------------------------------------------------------------------------

  /** What is pending after telling: the hash no longer is once the node itself was told. */
  function Left(u: Pending, w: Waiter, h: Hash): Pending {
    if w.Node? then u - {h} else u
  }

  lemma InStepAnswers(d: Disc, u: Pending, answers: seq<Answer>)
    requires InStep(d, u)
    ensures InStep(d.(answers := answers), u)
  {
  }

  lemma TellDoneInStep(d: Disc, w: Waiter, event: Event, ch: EventChain, u: Pending)
    requires InStep(d, u)
    requires Look(d.chains, ch.event.hash).Some? && Look(d.chains, ch.event.hash).value.chain == ch && Completes(d.chains, ch.event.hash)
    ensures InStep(TellDone(d, w, event, ch), Left(u, w, ch.event.hash))
  {
    hide InStep, OnChainCompleted;
    match w
    case Node => CompletedInStep(d, ch, u);
    case Client(tok) => InStepAnswers(d, u, d.answers + [ChainDone(tok, event, ch)]);
  }

  lemma TellFailedInStep(d: Disc, w: Waiter, event: Event, u: Pending)
    requires InStep(d, u) && Aborts(d.chains, event.hash)
    ensures InStep(TellFailed(d, w, event), Left(u, w, event.hash))
  {
    hide InStep, OnChainAborted;
    match w
    case Node => AbortedInStep(d, event, u);
    case Client(tok) => InStepAnswers(d, u, d.answers + [ChainFailed(tok, event)]);
  }

  function LeftAll(u: Pending, ws: seq<Waiter>, h: Hash): Pending {
    if Node in ws then u - {h} else u
  }

  lemma LeftMore(u: Pending, ws: seq<Waiter>, h: Hash)
    requires ws != []
    ensures Left(LeftAll(u, Front(ws), h), Last(ws), h) == LeftAll(u, ws, h)
  {
    assert ws == Front(ws) + [Last(ws)];
  }

  lemma {:induction false} TellAllDoneInStep(d: Disc, ws: seq<Waiter>, event: Event, ch: EventChain, u: Pending)
    requires InStep(d, u)
    requires Look(d.chains, ch.event.hash).Some? && Look(d.chains, ch.event.hash).value.chain == ch && Completes(d.chains, ch.event.hash)
    ensures InStep(TellAllDone(d, ws, event, ch), LeftAll(u, ws, ch.event.hash))
  {
    hide InStep, TellDone;
    if ws != [] {
      TellAllDoneInStep(d, Front(ws), event, ch, u);
      LeftMore(u, ws, ch.event.hash);
      TellDoneInStep(TellAllDone(d, Front(ws), event, ch), Last(ws), event, ch, LeftAll(u, Front(ws), ch.event.hash));
    }
  }

  lemma {:induction false} TellAllFailedInStep(d: Disc, ws: seq<Waiter>, event: Event, u: Pending)
    requires InStep(d, u) && Aborts(d.chains, event.hash)
    ensures InStep(TellAllFailed(d, ws, event), LeftAll(u, ws, event.hash))
  {
    hide InStep, TellFailed;
    if ws != [] {
      TellAllFailedInStep(d, Front(ws), event, u);
      LeftMore(u, ws, event.hash);
      TellFailedInStep(TellAllFailed(d, Front(ws), event), Last(ws), event, LeftAll(u, Front(ws), event.hash));
    }
  }

  // ---------------------------------------------------------------------------
  // chain queries settle
  // ---------------------------------------------------------------------------

  lemma BoundsPends(cs: seq<ChainEntry>, cs': seq<ChainEntry>, u: Pending, h: Hash, b: BoundsEntry)
    requires BoundsFine(cs, u, b) && (forall g :: g != h ==> Look(cs', g) == Look(cs, g))
    requires Look(cs, h).Some? && Look(cs, h).value.state.InProgress?
    ensures BoundsFine(cs', u + {h}, b)
    ensures Node !in Look(cs, h).value.waiters ==> BoundsFine(cs', u, b)
  {
  }

  /** Seen through other tables and other pending hashes, one chain query stands as it did. */
  ghost predicate SideKept(cs: seq<ChainEntry>, u: Pending, cs': seq<ChainEntry>, u': Pending, g: Hash) {
    && (Done(cs, u, g) <==> Done(cs', u', g))
    && (Failed(cs, u, g) <==> Failed(cs', u', g))
    && (Underway(cs, u, g) ==> Underway(cs', u', g))
    && (Done(cs, u, g) ==> Look(cs, g) == Look(cs', g))
  }

  lemma OrderKept(cs: seq<ChainEntry>, u: Pending, cs': seq<ChainEntry>, u': Pending, o: OrderEntry)
    requires OrderInStep(cs, u, o) && SideKept(cs, u, cs', u', o.event1.hash) && SideKept(cs, u, cs', u', o.event2.hash)
    ensures OrderInStep(cs', u', o)
  {
    hide Underway, Failed, Look;
  }

  lemma SidePends(cs: seq<ChainEntry>, cs': seq<ChainEntry>, u: Pending, h: Hash, g: Hash)
    requires forall g :: g != h ==> Look(cs', g) == Look(cs, g)
    requires Look(cs, h).Some? && Look(cs, h).value.state.InProgress?
    ensures SideKept(cs, u, cs', u + {h}, g)
    ensures g != h || h in u ==> SideKept(cs, u, cs', u, g)
  {
  }

  lemma OrderPends(cs: seq<ChainEntry>, cs': seq<ChainEntry>, u: Pending, h: Hash, o: OrderEntry)
    requires OrderFine(cs, u, o) && (forall g :: g != h ==> Look(cs', g) == Look(cs, g))
    requires Look(cs, h).Some? && Look(cs, h).value.state.InProgress?
    ensures OrderFine(cs', u + {h}, o)
    ensures Node !in Look(cs, h).value.waiters ==> OrderFine(cs', u, o)
  {
    hide OrderInStep, SideKept, Look;
    var v: Pending := if OrderInStep(cs, {}, o) then {} else u;
    var h1, h2 := o.event1.hash, o.event2.hash;
    SidePends(cs, cs', v, h, h1);
    SidePends(cs, cs', v, h, h2);
    if h in {h1, h2} && h !in v {
      OrderKept(cs, v, cs', v + {h}, o);
      PendsMore(cs', u, v, h, o);
      if Node !in Look(cs, h).value.waiters {
        OnlyAborted(cs, cs', v, h, o);
      }
    } else {
      OrderKept(cs, v, cs', v, o);
      PendsElse(cs', u, v, h, o);
    }
  }

  lemma PendsMore(cs: seq<ChainEntry>, u: Pending, v: Pending, h: Hash, o: OrderEntry)
    requires OrderInStep(cs, v + {h}, o) && (v == {} || v == u)
    ensures OrderFine(cs, u + {h}, o)
  {
  }

  lemma PendsElse(cs: seq<ChainEntry>, u: Pending, v: Pending, h: Hash, o: OrderEntry)
    requires OrderInStep(cs, v, o) && (v == {} || v == u) && (h !in {o.event1.hash, o.event2.hash} || h in v)
    ensures OrderFine(cs, u + {h}, o) && OrderFine(cs, u, o)
  {
  }

  /** A query on a chain the node does not wait on can only have been aborted by its other chain. */
  lemma OnlyAborted(cs: seq<ChainEntry>, cs': seq<ChainEntry>, v: Pending, h: Hash, o: OrderEntry)
    requires OrderInStep(cs, v, o) && h in {o.event1.hash, o.event2.hash} && h !in v
    requires forall g :: g != h ==> Look(cs', g) == Look(cs, g)
    requires Look(cs, h).Some? && Look(cs, h).value.state.InProgress? && Node !in Look(cs, h).value.waiters
    ensures OrderInStep(cs', v, o)
  {
  }

  /** Setting the state of a chain query in progress makes its hash pending, unless the node does
      not wait on it. */
  lemma Pends(d: Disc, i: nat, e: ChainEntry, u: Pending)
    requires InStep(d, u) && i < |d.chains| && i == ChainAt(d.chains, e.event.hash) && d.chains[i].state.InProgress? && ChainFine(e)
    ensures var d1 := d.(chains := d.chains[i := e]);
      && InStep(d1, u + {e.event.hash})
      && (Node !in d.chains[i].waiters ==> InStep(d1, u))
      && Look(d1.chains, e.event.hash) == Some(e)
  {
    hide BoundsFine, OrderFine, Look;
    var h, d1 := e.event.hash, d.(chains := d.chains[i := e]);
    LookAt(d.chains, i, h);
    forall g
      ensures Look(d1.chains, g) == if g == h then Some(e) else Look(d.chains, g)
    {
      LookUpdated(d.chains, i, e, g);
    }
    forall b | b in d.bounds
      ensures BoundsFine(d1.chains, u + {h}, b) && (Node !in d.chains[i].waiters ==> BoundsFine(d1.chains, u, b))
    {
      BoundsPends(d.chains, d1.chains, u, h, b);
    }
    forall o | o in d.orders
      ensures OrderFine(d1.chains, u + {h}, o) && (Node !in d.chains[i].waiters ==> OrderFine(d1.chains, u, o))
    {
      OrderPends(d.chains, d1.chains, u, h, o);
    }
  }

  lemma LookAt(cs: seq<ChainEntry>, i: nat, h: Hash)
    requires i < |cs| && i == ChainAt(cs, h)
    ensures Look(cs, h) == Some(cs[i])
  {
  }

  lemma Unpended(u: Pending, ws: seq<Waiter>, h: Hash)
    ensures Node in ws ==> LeftAll(u + {h}, ws, h) == u - {h}
    ensures Node !in ws ==> LeftAll(u, ws, h) == u
  {
  }

  /** A chain query that settles leaves the tables in step: its hash is not pending if the node
      waited on it, and as it was otherwise. */
  lemma AbortChainInStep(d: Disc, i: nat, u: Pending)
    requires InStep(d, u) && i < |d.chains| && i == ChainAt(d.chains, d.chains[i].event.hash) && d.chains[i].state.InProgress?
    ensures InStep(AbortChain(d, i), LeftAll(u, d.chains[i].waiters, d.chains[i].event.hash))
  {
    hide InStep, TellAllFailed, LeftAll;
    var e := d.chains[i].(state := Aborted);
    var h, ws := e.event.hash, e.waiters;
    ChainIsFine(d, i, u);
    Pends(d, i, e, u);
    Unpended(u, ws, h);
    var d1 := d.(chains := d.chains[i := e]);
    if Node in ws {
      TellAllFailedInStep(d1, ws, e.event, u + {h});
      Unpended(u - {h}, ws, h);
      LeftIs(u, ws, h);
    } else {
      TellAllFailedInStep(d1, ws, e.event, u);
    }
  }

  lemma LeftIs(u: Pending, ws: seq<Waiter>, h: Hash)
    requires Node in ws
    ensures LeftAll(u, ws, h) == u - {h}
  {
  }

  lemma ChainIsFine(d: Disc, i: nat, u: Pending)
    requires InStep(d, u) && i < |d.chains|
    ensures ChainFine(d.chains[i])
  {
    assert d.chains[i] in d.chains;
  }

  lemma CompleteInStep(d: Disc, i: nat, u: Pending)
    requires InStep(d, u) && i < |d.chains| && i == ChainAt(d.chains, d.chains[i].event.hash) && d.chains[i].state.InProgress?
    requires Bounded(d.chains[i].chain)
    ensures var e := d.chains[i].(state := Completed);
      InStep(TellAllDone(d.(chains := d.chains[i := e]), e.waiters, e.event, e.chain), LeftAll(u, e.waiters, e.event.hash))
  {
    hide InStep, TellAllDone, LeftAll;
    var e := d.chains[i].(state := Completed);
    var h, ws := e.event.hash, e.waiters;
    ChainIsFine(d, i, u);
    Pends(d, i, e, u);
    Unpended(u, ws, h);
    var d1 := d.(chains := d.chains[i := e]);
    if Node in ws {
      TellAllDoneInStep(d1, ws, e.event, e.chain, u + {h});
      LeftIs(u, ws, h);
    } else {
      TellAllDoneInStep(d1, ws, e.event, e.chain, u);
    }
  }

  lemma ConcludeInStep(d: Disc, i: nat, ch: EventChain, attached: bool, cr: Crypto, id: NodeId, u: Pending)
    requires InStep(d, u) && i < |d.chains| && i == ChainAt(d.chains, d.chains[i].event.hash) && d.chains[i].state.InProgress?
    requires ch.event.hash == d.chains[i].event.hash
    ensures InStep(Conclude(d, i, ch, attached, cr, id), LeftAll(u, d.chains[i].waiters, d.chains[i].event.hash))
  {
    hide InStep, TellAllDone, LeftAll, AbortChain;
    var e := d.chains[i].(chain := ch);
    var d1 := d.(chains := d.chains[i := e]);
    Recorded(d, i, e, u);
    if attached && Validate.Sound(cr, ch, id) {
      CompleteInStep(d1, i, u);
    } else {
      AbortChainInStep(d1, i, u);
    }
  }

  /** Recording the chain found changes nothing a query in progress depends on. */
  lemma Recorded(d: Disc, i: nat, e: ChainEntry, u: Pending)
    requires InStep(d, u) && i < |d.chains| && i == ChainAt(d.chains, d.chains[i].event.hash) && d.chains[i].state.InProgress?
    requires ChainFine(e) && e.event == d.chains[i].event && e.state.InProgress? && forall w :: w in d.chains[i].waiters ==> w in e.waiters
    ensures var d1 := d.(chains := d.chains[i := e]);
      && InStep(d1, u) && i == ChainAt(d1.chains, e.event.hash)
      && (Node in e.waiters ==> InStep(d1, u - {e.event.hash}))
  {
    hide BoundsFine, OrderFine, Look;
    var h, d1 := e.event.hash, d.(chains := d.chains[i := e]);
    LookAt(d.chains, i, h);
    SameIndex(d.chains, i, e);
    forall g
      ensures Look(d1.chains, g) == if g == h then Some(e) else Look(d.chains, g)
    {
      LookUpdated(d.chains, i, e, g);
    }
    forall b | b in d.bounds
      ensures BoundsFine(d1.chains, u, b) && (Node in e.waiters ==> BoundsFine(d1.chains, u - {h}, b))
    {
      BoundsStays(d.chains, d1.chains, u, h, b);
    }
    forall o | o in d.orders
      ensures OrderFine(d1.chains, u, o) && (Node in e.waiters ==> OrderFine(d1.chains, u - {h}, o))
    {
      OrderStays(d.chains, d1.chains, u, h, o);
    }
  }

  ghost predicate MoreWaiting(cs: seq<ChainEntry>, cs': seq<ChainEntry>, h: Hash) {
    && Look(cs', h).Some? && Look(cs', h).value.state.InProgress?
    && (Look(cs, h).Some? ==> Look(cs, h).value.state.InProgress? && forall w :: w in Look(cs, h).value.waiters ==> w in Look(cs', h).value.waiters)
    && forall g :: g != h ==> Look(cs', g) == Look(cs, g)
  }

  lemma BoundsStays(cs: seq<ChainEntry>, cs': seq<ChainEntry>, u: Pending, h: Hash, b: BoundsEntry)
    requires BoundsFine(cs, u, b) && MoreWaiting(cs, cs', h)
    ensures BoundsFine(cs', u, b)
    ensures Node in Look(cs', h).value.waiters ==> BoundsFine(cs', u - {h}, b)
  {
  }

  lemma SideStays(cs: seq<ChainEntry>, cs': seq<ChainEntry>, u: Pending, h: Hash, g: Hash)
    requires MoreWaiting(cs, cs', h)
    ensures SideKept(cs, u, cs', u, g)
    ensures Node in Look(cs', h).value.waiters ==> SideKept(cs, u, cs', u - {h}, g)
  {
  }

  lemma OrderStays(cs: seq<ChainEntry>, cs': seq<ChainEntry>, u: Pending, h: Hash, o: OrderEntry)
    requires OrderFine(cs, u, o) && MoreWaiting(cs, cs', h)
    ensures OrderFine(cs', u, o)
    ensures Node in Look(cs', h).value.waiters ==> OrderFine(cs', u - {h}, o)
  {
    hide OrderInStep, SideKept, MoreWaiting, Look;
    WaitingFound(cs, cs', h);
    var v: Pending := if OrderInStep(cs, {}, o) then {} else u;
    SideStays(cs, cs', v, h, o.event1.hash);
    SideStays(cs, cs', v, h, o.event2.hash);
    OrderKept(cs, v, cs', v, o);
    if Node in Look(cs', h).value.waiters && v == u {
      OrderKept(cs, u, cs', u - {h}, o);
    }
  }

  lemma WaitingFound(cs: seq<ChainEntry>, cs': seq<ChainEntry>, h: Hash)
    requires MoreWaiting(cs, cs', h)
    ensures Look(cs', h).Some?
  {
  }

  lemma {:induction false} SameIndex(cs: seq<ChainEntry>, i: nat, e: ChainEntry)
    requires i < |cs| && e.event.hash == cs[i].event.hash && i == ChainAt(cs, cs[i].event.hash)
    ensures ChainAt(cs[i := e], e.event.hash) == i
  {
    if i < |cs| - 1 {
      assert Front(cs[i := e]) == Front(cs)[i := e];
      SameIndex(Front(cs), i, e);
    }
  }

  // ---------------------------------------------------------------------------
  // the entry points
  // ---------------------------------------------------------------------------

  lemma JoinInStep(d: Disc, i: nat, event: Event, w: Waiter, u: Pending)
    requires InStep(d, u) && i < |d.chains| && i == ChainAt(d.chains, event.hash)
    ensures InStep(Join(d, i, event, w), Left(u, w, event.hash))
  {
    hide InStep, TellDone, TellFailed;
    ChainIsFine(d, i, u);
    LookAt(d.chains, i, event.hash);
    var e := d.chains[i];
    match e.state {
      case InProgress => Recorded(d, i, e.(waiters := e.waiters + [w]), u);
      case Aborted => TellFailedInStep(d, w, event, u);
      case Completed => TellDoneInStep(d, w, event, e.chain, u);
    }
  }

  lemma NewChainInStep(d: Disc, e: ChainEntry, w: Waiter, u: Pending)
    requires InStep(d, u) && ChainAt(d.chains, e.event.hash) < 0 && ChainFine(e) && e.state.InProgress? && e.waiters == [w]
    ensures var d1 := d.(chains := d.chains + [e]);
      InStep(d1, Left(u, w, e.event.hash)) && ChainAt(d1.chains, e.event.hash) == |d.chains|
  {
    hide BoundsFine, OrderFine, Look;
    var h, d1 := e.event.hash, d.(chains := d.chains + [e]);
    LookNone(d.chains, h);
    forall g
      ensures Look(d1.chains, g) == if g == h then Some(e) else Look(d.chains, g)
    {
      LookAppended(d.chains, e, g);
    }
    forall b | b in d.bounds
      ensures BoundsFine(d1.chains, Left(u, w, h), b)
    {
      BoundsStays(d.chains, d1.chains, u, h, b);
    }
    forall o | o in d.orders
      ensures OrderFine(d1.chains, Left(u, w, h), o)
    {
      OrderStays(d.chains, d1.chains, u, h, o);
    }
  }

  lemma LookNone(cs: seq<ChainEntry>, h: Hash)
    requires ChainAt(cs, h) < 0
    ensures Look(cs, h) == None
  {
  }

  lemma AskChainInStep(d: Disc, cr: Crypto, id: NodeId, live: seq<Entry>, event: Event, range: TimeRange, w: Waiter, now: Timestamp, u: Pending)
    requires InStep(d, u)
    ensures InStep(AskChain(d, cr, id, live, event, range, w, now), Left(u, w, event.hash))
  {
    hide InStep, Join, Conclude;
    var i := ChainAt(d.chains, event.hash);
    if i >= 0 {
      JoinInStep(d, i, event, w, u);
    } else {
      var e := NewChain(event, range, w, now);
      NewChainInStep(d, e, w, u);
      if event.creator == id {
        var d1 := d.(chains := d.chains + [e]);
        var (ch, attached) := ChainBuild.Enclose(live, id, EventChain(event, [], []));
        EncloseSameEvent(live, id, EventChain(event, [], []));
        ConcludeInStep(d1, |d.chains|, ch, attached, cr, id, Left(u, w, event.hash));
        assert LeftAll(Left(u, w, event.hash), [w], event.hash) == Left(u, w, event.hash);
      }
    }
  }

  lemma NewBoundsInStep(d: Disc, b: BoundsEntry)
    requires InStep(d, {}) && BoundsAt(d.bounds, b.event.hash) < 0 && b.state.InProgress?
    ensures InStep(d.(bounds := d.bounds + [b]), {b.event.hash})
  {
    forall o | o in d.orders
      ensures OrderFine(d.chains, {b.event.hash}, o)
    {
      assert OrderFine(d.chains, {}, o);
    }
    forall i, j | 0 <= i < j < |d.bounds + [b]|
      ensures (d.bounds + [b])[i].event.hash != (d.bounds + [b])[j].event.hash
    {
      assert (d.bounds + [b])[i] in d.bounds;
    }
  }

  lemma JoinBoundsInStep(d: Disc, i: nat, tok: nat)
    requires InStep(d, {}) && i < |d.bounds|
    ensures InStep(d.(bounds := d.bounds[i := d.bounds[i].(waiters := d.bounds[i].waiters + [tok])]), {})
  {
    var bs := d.bounds[i := d.bounds[i].(waiters := d.bounds[i].waiters + [tok])];
    forall b | b in bs
      ensures BoundsFine(d.chains, {}, b)
    {
      var j :| 0 <= j < |bs| && bs[j] == b;
      assert BoundsFine(d.chains, {}, d.bounds[j]);
    }
  }

  lemma AskBoundsInStep(d: Disc, cr: Crypto, id: NodeId, live: seq<Entry>, event: Event, range: TimeRange, tok: nat, now: Timestamp)
    requires InStep(d, {})
    ensures InStep(AskBounds(d, cr, id, live, event, range, tok, now), {})
  {
    hide InStep, AskChain;
    var i := BoundsAt(d.bounds, event.hash);
    if i >= 0 {
      JoinBoundsInStep(d, i, tok);
      InStepAnswers(d, {}, AskBounds(d, cr, id, live, event, range, tok, now).answers);
    } else {
      var b := BoundsEntry(now, event, 0, 0, InProgress, [tok]);
      NewBoundsInStep(d, b);
      AskChainInStep(d.(bounds := d.bounds + [b]), cr, id, live, event, range, Node, now, {event.hash});
      assert Left({event.hash}, Node, event.hash) == {};
    }
  }

  lemma NewOrderInStep(d: Disc, o: OrderEntry)
    requires InStep(d, {}) && o.state.InProgress?
    ensures InStep(d.(orders := d.orders + [o]), {o.event1.hash, o.event2.hash})
  {
    var u: Pending := {o.event1.hash, o.event2.hash};
    forall p | p in d.orders
      ensures OrderFine(d.chains, u, p)
    {
      assert OrderFine(d.chains, {}, p);
    }
    forall b | b in d.bounds
      ensures BoundsFine(d.chains, u, b)
    {
      assert BoundsFine(d.chains, {}, b);
    }
    assert OrderInStep(d.chains, u, o);
  }

  lemma JoinOrderInStep(d: Disc, i: nat, tok: nat)
    requires InStep(d, {}) && i < |d.orders|
    ensures InStep(d.(orders := d.orders[i := d.orders[i].(waiters := d.orders[i].waiters + [tok])]), {})
  {
    var os := d.orders[i := d.orders[i].(waiters := d.orders[i].waiters + [tok])];
    forall o | o in os
      ensures OrderFine(d.chains, {}, o)
    {
      var j :| 0 <= j < |os| && os[j] == o;
      assert OrderFine(d.chains, {}, d.orders[j]);
    }
  }

  lemma AskOrderInStep(d: Disc, cr: Crypto, id: NodeId, live: seq<Entry>, event1: Event, event2: Event, range: TimeRange, tok: nat, now: Timestamp)
    requires InStep(d, {})
    ensures InStep(AskOrder(d, cr, id, live, event1, event2, range, tok, now), {})
  {
    hide InStep, AskChain;
    var i := OrderAt(d.orders, event1.hash, event2.hash);
    if i >= 0 {
      JoinOrderInStep(d, i, tok);
      InStepAnswers(d, {}, AskOrder(d, cr, id, live, event1, event2, range, tok, now).answers);
    } else {
      var o := OrderEntry(now, event1, event2, Undetermined, InProgress, [tok]);
      var d1 := d.(orders := d.orders + [o]);
      NewOrderInStep(d, o);
      AskChainInStep(d1, cr, id, live, event1, range, Node, now, {event1.hash, event2.hash});
      var d2 := AskChain(d1, cr, id, live, event1, range, Node, now);
      AskChainInStep(d2, cr, id, live, event2, range, Node, now, {event1.hash, event2.hash} - {event1.hash});
      assert {event1.hash, event2.hash} - {event1.hash} - {event2.hash} == {};
    }
  }

  lemma ComeHomeInStep(d: Disc, cr: Crypto, id: NodeId, live: seq<Entry>, ch: EventChain)
    requires InStep(d, {})
    ensures InStep(ComeHome(d, cr, id, live, ch), {})
  {
    hide InStep, Conclude;
    var i := ChainAt(d.chains, ch.event.hash);
    if i >= 0 && d.chains[i].state.InProgress? {
      var (r, attached) := ChainBuild.Enclose(live, id, ch);
      EncloseSameEvent(live, id, ch);
      ConcludeInStep(d, i, r, attached, cr, id, {});
      assert LeftAll({}, d.chains[i].waiters, ch.event.hash) == {};
    }
  }

  // ---------------------------------------------------------------------------
  // whole runs
  // ---------------------------------------------------------------------------

  ghost predicate NothingExpires(xs: seq<Input>) {
    forall x :: x in xs ==> !x.Expire?
  }

  /** Over every run in which nothing expires, each bounds query stands where its chain query
      stands and each order query where its two chain queries do. */
  lemma {:induction false} QueriesInStep(cr: Crypto, id: NodeId, xs: seq<Input>)
    requires NothingExpires(xs)
    ensures InStep(Run(cr, id, xs), {})
  {
    hide InStep, React;
    if xs == [] {
      IdleInStep();
    } else {
      assert xs == Front(xs) + [Last(xs)];
      QueriesInStep(cr, id, Front(xs));
      ReactInStep(Run(cr, id, Front(xs)), cr, id, Last(xs));
    }
  }

  lemma IdleInStep()
    ensures InStep(IDLE, {})
  {
  }

  lemma ReactInStep(d: Disc, cr: Crypto, id: NodeId, x: Input)
    requires InStep(d, {}) && !x.Expire?
    ensures InStep(React(d, cr, id, x), {})
  {
    hide InStep, AskChain, AskBounds, AskOrder, ComeHome;
    match x
    case ForChain(event, range, tok, now, live) => AskChainInStep(d, cr, id, live, event, range, Client(tok), now, {});
    case ForBounds(event, range, tok, now, live) => AskBoundsInStep(d, cr, id, live, event, range, tok, now);
    case ForOrder(event1, event2, range, tok, now, live) => AskOrderInStep(d, cr, id, live, event1, event2, range, tok, now);
    case Response(ch, live) => ComeHomeInStep(d, cr, id, live, ch);
  }
}
