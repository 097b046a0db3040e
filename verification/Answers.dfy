/** What is said when a chain query settles: exactly who hears what about each bounds and order
    query, and, over whole runs, that every answer stands with the chains the node holds. */
module Answers {
  import opened Domain
  import opened Hashing
  import opened Log
  import opened Discovery
  import opened DiscoveryLaws
  import opened Progress
  import opened Moving
  import Arith
  import ChainBuild
  import Limits
  import Validate

  // ---------------------------------------------------------------------------
  // order queries: each waiter hears exactly once
  // ---------------------------------------------------------------------------

  ghost function Times<T>(s: seq<T>, x: T): nat {
    multiset(s)[x]
  }

  /** The answer is about this order query. */
  ghost predicate OnOrder(a: Answer, o: OrderEntry) {
    (a.OrderDone? || a.OrderFailed?) && a.event1.hash == o.event1.hash && a.event2.hash == o.event2.hash
  }

  /** How often `a` is said once order query `o` has settled: once to each waiter, the outcome. */
  ghost function OrderTold(o: OrderEntry, a: Answer): nat {
    if a == OrderWord(o, a.tok) then Times(o.waiters, a.tok) else 0
  }

  function OrderWord(o: OrderEntry, tok: nat): Answer {
    if o.state.Completed? then OrderDone(tok, o.event1, o.event2, o.order) else OrderFailed(tok, o.event1, o.event2)
  }

  lemma OneMore<T>(s: seq<T>, x: T, y: T)
    ensures Times(s + [x], y) == Times(s, y) + if x == y then 1 else 0
  {
  }

  lemma Together<T>(s: seq<T>, t: seq<T>, x: T)
    ensures Times(s + t, x) == Times(s, x) + Times(t, x)
  {
  }

  lemma Nowhere<T>(s: seq<T>, x: T)
    requires x !in s
    ensures Times(s, x) == 0
  {
  }

  lemma {:induction false} OrderAnswersTold(toks: seq<nat>, o: OrderEntry, a: Answer)
    ensures Times(OrderAnswers(toks, o.state.Completed?, o), a) == if a == OrderWord(o, a.tok) then Times(toks, a.tok) else 0
  {
    hide Times;
    if toks == [] {
      Nowhere(toks, a.tok);
      Nowhere(OrderAnswers(toks, o.state.Completed?, o), a);
    } else {
      OrderAnswersTold(Front(toks), o, a);
      assert toks == Front(toks) + [Last(toks)];
      OneMore(Front(toks), Last(toks), a.tok);
      var s, w := OrderAnswers(Front(toks), o.state.Completed?, o), OrderWord(o, Last(toks));
      assert OrderAnswers(toks, o.state.Completed?, o) == s + [w];
      OneMore(s, w, a);
    }
  }

  /** How often `a` is said when `o` turns into `o'`. */
  ghost function Said(o: OrderEntry, o': OrderEntry, a: Answer): nat {
    if o'.state == o.state then 0 else OrderTold(o', a)
  }

  lemma SettleOrderTold(d: Disc, i: nat, e: OrderEntry, a: Answer)
    requires i < |d.orders|
    ensures Times(SettleOrder(d, i, e).answers, a) == Times(d.answers, a) + OrderTold(e, a)
  {
    hide Times, OrderAnswers;
    OrderAnswersTold(e.waiters, e, a);
    Together(d.answers, OrderAnswers(e.waiters, e.state.Completed?, e), a);
  }

  lemma OtherOrder(o: OrderEntry, o': OrderEntry, a: Answer)
    requires OnOrder(a, o) && (o'.event1.hash != o.event1.hash || o'.event2.hash != o.event2.hash)
    ensures OrderTold(o', a) == 0
  {
  }

  lemma OfferedTold(d: Disc, i: nat, ch: EventChain, a: Answer)
    requires i < |d.orders|
    ensures Times(Offered(d, i, ch).answers, a) == Times(d.answers, a) + Said(d.orders[i], Decided(d, d.orders[i], ch), a)
  {
    hide Decided, OrderTold, Times;
    SettleOrderTold(d, i, Decided(d, d.orders[i], ch), a);
  }

  lemma {:induction false} CompleteOrdersTold(d: Disc, ch: EventChain, k: nat, j: nat, a: Answer)
    requires k <= |d.orders| && j < |d.orders| && OneEach(d.orders) && OnOrder(a, d.orders[j])
    ensures Times(CompleteOrders(d, ch, k).answers, a) ==
      Times(d.answers, a) + if j < k then Said(d.orders[j], Decided(d, d.orders[j], ch), a) else 0
  {
    hide Decided, CompleteOrders, OnOrder, OrderTold, Offered, Times;
    OrdersStep(d, ch, k);
    if k > 0 {
      CompleteOrdersTold(d, ch, k - 1, j, a);
      CompleteOrdersPointwise(d, ch, k - 1);
      var d1 := CompleteOrders(d, ch, k - 1);
      SameDecision(d, d1, d.orders[k - 1], ch);
      OfferedTold(d1, k - 1, ch, a);
      if j != k - 1 {
        DecidedEvents(d, d.orders[k - 1], ch);
        OtherOrder(d.orders[j], Decided(d, d.orders[k - 1], ch), a);
      }
    }
  }

  lemma DecidedEvents(d: Disc, o: OrderEntry, ch: EventChain)
    ensures var e := Decided(d, o, ch); e.event1 == o.event1 && e.event2 == o.event2 && e.waiters == o.waiters
  {
  }

  lemma {:induction false} AbortOrdersTold(d: Disc, h: Hash, k: nat, j: nat, a: Answer)
    requires k <= |d.orders| && j < |d.orders| && OneEach(d.orders) && OnOrder(a, d.orders[j])
    ensures Times(AbortOrders(d, h, k).answers, a) ==
      Times(d.answers, a) + if j < k then Said(d.orders[j], AbortedOrder(d.orders[j], h), a) else 0
  {
    hide OnOrder, OrderTold, Times, SettleOrder;
    if k > 0 {
      AbortOrdersTold(d, h, k - 1, j, a);
      AbortOrdersPointwise(d, h, k - 1);
      var d1 := AbortOrders(d, h, k - 1);
      var e := AbortedOrder(d.orders[k - 1], h);
      SettleOrderTold(d1, k - 1, e, a);
      if j != k - 1 {
        OtherOrder(d.orders[j], e, a);
      }
    }
  }

  lemma BoundsSayNothing(bs: seq<nat>, done: bool, b: BoundsEntry, a: Answer)
    requires !(a.BoundsDone? || a.BoundsFailed?)
    ensures Times(BoundsAnswers(bs, done, b), a) == 0
  {
    Nowhere(BoundsAnswers(bs, done, b), a);
  }

  ghost predicate Holds(cs: seq<ChainEntry>, ch: EventChain) {
    Completes(cs, ch.event.hash) && Look(cs, ch.event.hash).value.chain == ch
  }

  /** What one round of telling does to order query `j`: `o'` is what it becomes, and `a` is
      said as often as that takes. */
  ghost predicate OrderBecomes(d: Disc, r: Disc, j: nat, o': OrderEntry, a: Answer)
    requires j < |d.orders|
  {
    && r.chains == d.chains && SameEvents(d.orders, r.orders) && r.orders[j] == o'
    && Times(r.answers, a) == Times(d.answers, a) + Said(d.orders[j], o', a)
  }

  lemma NodeDoneTold(d: Disc, ch: EventChain, j: nat, a: Answer)
    requires j < |d.orders| && OneEach(d.orders) && OnOrder(a, d.orders[j])
    ensures OrderBecomes(d, OnChainCompleted(d, ch), j, Decided(d, d.orders[j], ch), a)
  {
    hide Decided, CompleteOrders, Said, Times;
    var d1 := CompleteBounds(d, ch);
    CompleteBoundsElsewhere(d, ch, a);
    CompleteOrdersTold(d1, ch, |d1.orders|, j, a);
    CompleteOrdersPointwise(d1, ch, |d1.orders|);
    SameDecision(d, d1, d.orders[j], ch);
    var r := OnChainCompleted(d, ch);
    forall i | 0 <= i < |d.orders|
      ensures r.orders[i].event1 == d.orders[i].event1 && r.orders[i].event2 == d.orders[i].event2
    {
      DecidedEvents(d1, d.orders[i], ch);
    }
  }

  lemma CompleteBoundsElsewhere(d: Disc, ch: EventChain, a: Answer)
    requires !(a.BoundsDone? || a.BoundsFailed?)
    ensures var r := CompleteBounds(d, ch);
      r.chains == d.chains && r.orders == d.orders && Times(r.answers, a) == Times(d.answers, a)
  {
    hide Times, BoundsAnswers;
    var i := BoundsAt(d.bounds, ch.event.hash);
    if i >= 0 && Bounded(ch) {
      var e := d.bounds[i].(lower := ch.lower[0].timestamp, upper := Last(ch.upper).timestamp, state := Completed);
      BoundsSayNothing(e.waiters, true, e, a);
      Together(d.answers, BoundsAnswers(e.waiters, true, e), a);
    }
  }

  lemma NodeFailedTold(d: Disc, event: Event, j: nat, a: Answer)
    requires j < |d.orders| && OneEach(d.orders) && OnOrder(a, d.orders[j])
    ensures OrderBecomes(d, OnChainAborted(d, event), j, AbortedOrder(d.orders[j], event.hash), a)
  {
    hide AbortOrders, Said, Times, BoundsAnswers;
    var h, d1 := event.hash, AbortBounds(d, event.hash);
    var i := BoundsAt(d.bounds, h);
    if i >= 0 {
      var e := d.bounds[i].(state := Aborted);
      BoundsSayNothing(e.waiters, false, e, a);
      Together(d.answers, BoundsAnswers(e.waiters, false, e), a);
    }
    AbortOrdersTold(d1, h, |d1.orders|, j, a);
    AbortOrdersPointwise(d1, h, |d1.orders|);
  }

  /** A second callback finds nothing left to decide. */
  lemma DecidedTwice(d: Disc, d1: Disc, o: OrderEntry, ch: EventChain)
    requires d1.chains == d.chains && Holds(d.chains, ch)
    ensures Decided(d1, Decided(d, o, ch), ch) == Decided(d, o, ch)
  {
    hide Decided;
    SameDecision(d, d1, Decided(d, o, ch), ch);
    DecidedIsExact(d, o, ch);
    DecidedIsExact(d, Decided(d, o, ch), ch);
  }

  lemma {:induction false} TellAllDoneTold(d: Disc, ws: seq<Waiter>, event: Event, ch: EventChain, j: nat, a: Answer)
    requires j < |d.orders| && OneEach(d.orders) && OnOrder(a, d.orders[j]) && Holds(d.chains, ch)
    ensures OrderBecomes(d, TellAllDone(d, ws, event, ch), j, if Node in ws then Decided(d, d.orders[j], ch) else d.orders[j], a)
  {
    hide Decided, OnChainCompleted, OneEach, Holds, OrderTold, Times;
    if ws != [] {
      TellAllDoneTold(d, Front(ws), event, ch, j, a);
      assert ws == Front(ws) + [Last(ws)];
      var d1 := TellAllDone(d, Front(ws), event, ch);
      OneEachStays(d.orders, d1.orders);
      if Last(ws).Client? {
        OneMore(d1.answers, ChainDone(Last(ws).tok, event, ch), a);
      } else {
        NodeDoneTold(d1, ch, j, a);
        DecidedTwice(d, d1, d.orders[j], ch);
        SameDecision(d, d1, d.orders[j], ch);
      }
    }
  }

  lemma {:induction false} TellAllFailedTold(d: Disc, ws: seq<Waiter>, event: Event, j: nat, a: Answer)
    requires j < |d.orders| && OneEach(d.orders) && OnOrder(a, d.orders[j])
    ensures OrderBecomes(d, TellAllFailed(d, ws, event), j, if Node in ws then AbortedOrder(d.orders[j], event.hash) else d.orders[j], a)
  {
    hide OnChainAborted, OneEach, OrderTold, Times;
    if ws != [] {
      TellAllFailedTold(d, Front(ws), event, j, a);
      assert ws == Front(ws) + [Last(ws)];
      var d1 := TellAllFailed(d, Front(ws), event);
      OneEachStays(d.orders, d1.orders);
      if Last(ws).Client? {
        OneMore(d1.answers, ChainFailed(Last(ws).tok, event), a);
      } else {
        NodeFailedTold(d1, event, j, a);
      }
    }
  }

  /** The chain the table will hold for a hash once `ch` is in. */
  function With(cs: seq<ChainEntry>, ch: EventChain, h: Hash): Option<EventChain> {
    if h == ch.event.hash then Some(ch)
    else if Look(cs, h).Some? && Look(cs, h).value.state.Completed? then Some(Look(cs, h).value.chain) else None
  }

  /** What the arrival of chain `ch` makes of an order query. */
  function Outcome(cs: seq<ChainEntry>, o: OrderEntry, ch: EventChain): OrderEntry {
    var c1, c2 := With(cs, ch, o.event1.hash), With(cs, ch, o.event2.hash);
    if o.state.InProgress? && ch.event.hash in {o.event1.hash, o.event2.hash} && c1.Some? && c2.Some?
    then o.(order := Compared(c1.value, c2.value), state := Completed)
    else o
  }

  /** A chain query the node waits on succeeds with chain `ch`. An order query in progress whose
      other chain is there, whichever of the two came first, completes with their comparison, and
      each of its waiters hears exactly that, exactly once; about any other nobody hears
      anything. */
  lemma ChainCompletesOrder(d: Disc, i: nat, ch: EventChain, cr: Crypto, id: NodeId, j: nat, a: Answer)
    requires i < |d.chains| && i == ChainAt(d.chains, ch.event.hash) && Node in d.chains[i].waiters
    requires Validate.Sound(cr, ch, id)
    requires j < |d.orders| && OneEach(d.orders) && OnOrder(a, d.orders[j])
    ensures var r := Conclude(d, i, ch, true, cr, id); var o' := Outcome(d.chains, d.orders[j], ch);
      && |r.orders| == |d.orders| && r.orders[j] == o'
      && Times(r.answers, a) == Times(d.answers, a) + Said(d.orders[j], o', a)
  {
    hide Decided, TellAllDone, Compared, Validate.Sound, OrderTold, OnOrder, OneEach, Times;
    var h := ch.event.hash;
    var e := d.chains[i].(chain := ch, state := Completed);
    var cs := d.chains[i := e];
    var d1 := d.(chains := cs);
    assert d.chains[i := d.chains[i].(chain := ch)][i := e] == cs;
    LookUpdated(d.chains, i, e, h);
    LookUpdated(d.chains, i, e, d.orders[j].event1.hash);
    LookUpdated(d.chains, i, e, d.orders[j].event2.hash);
    TellAllDoneTold(d1, e.waiters, e.event, ch, j, a);
    DecidedIsExact(d1, d.orders[j], ch);
  }

  /** It fails: every order query in progress about its event aborts, and each of its waiters
      hears so exactly once. */
  lemma ChainAbortsOrder(d: Disc, i: nat, ch: EventChain, attached: bool, cr: Crypto, id: NodeId, j: nat, a: Answer)
    requires i < |d.chains| && Node in d.chains[i].waiters
    requires !attached || !Validate.Sound(cr, ch, id)
    requires j < |d.orders| && OneEach(d.orders) && OnOrder(a, d.orders[j])
    ensures var r := Conclude(d, i, ch, attached, cr, id); var o := d.orders[j]; var h := d.chains[i].event.hash;
      var o' := if o.state.InProgress? && h in {o.event1.hash, o.event2.hash} then o.(state := Aborted) else o;
      && |r.orders| == |d.orders| && r.orders[j] == o'
      && Times(r.answers, a) == Times(d.answers, a) + Said(o, o', a)
  {
    hide TellAllFailed, Validate.Sound, OrderTold, OnOrder, OneEach, Times;
    var e := d.chains[i].(chain := ch, state := Aborted);
    assert d.chains[i := d.chains[i].(chain := ch)][i := e] == d.chains[i := e];
    TellAllFailedTold(d.(chains := d.chains[i := e]), e.waiters, e.event, j, a);
  }

  // ---------------------------------------------------------------------------
  // bounds queries
  // ---------------------------------------------------------------------------

  /** The answer is about this bounds query. */
  ghost predicate OnBounds(a: Answer, b: BoundsEntry) {
    (a.BoundsDone? || a.BoundsFailed?) && a.event.hash == b.event.hash
  }

  function BoundsWord(b: BoundsEntry, tok: nat): Answer {
    if b.state.Completed? then BoundsDone(tok, b.event, b.lower, b.upper) else BoundsFailed(tok, b.event)
  }

  /** How often `a` is said when bounds query `b` settles: once to each waiter, the outcome. */
  ghost function BoundsTold(b: BoundsEntry, a: Answer): nat {
    if a == BoundsWord(b, a.tok) then Times(b.waiters, a.tok) else 0
  }

  lemma {:induction false} BoundsAnswersTold(toks: seq<nat>, b: BoundsEntry, a: Answer)
    ensures Times(BoundsAnswers(toks, b.state.Completed?, b), a) == if a == BoundsWord(b, a.tok) then Times(toks, a.tok) else 0
  {
    hide Times;
    if toks == [] {
      Nowhere(toks, a.tok);
      Nowhere(BoundsAnswers(toks, b.state.Completed?, b), a);
    } else {
      BoundsAnswersTold(Front(toks), b, a);
      assert toks == Front(toks) + [Last(toks)];
      OneMore(Front(toks), Last(toks), a.tok);
      var s, w := BoundsAnswers(Front(toks), b.state.Completed?, b), BoundsWord(b, Last(toks));
      assert BoundsAnswers(toks, b.state.Completed?, b) == s + [w];
      OneMore(s, w, a);
    }
  }

  /** What the arrival of a bounded chain makes of a bounds query. */
  function Spanned(b: BoundsEntry, ch: EventChain): BoundsEntry
    requires Bounded(ch)
  {
    if b.state.InProgress? && b.event.hash == ch.event.hash
    then b.(lower := ch.lower[0].timestamp, upper := Last(ch.upper).timestamp, state := Completed) else b
  }

  ghost predicate SameSubjects(bs: seq<BoundsEntry>, bs': seq<BoundsEntry>) {
    |bs'| == |bs| && forall i :: 0 <= i < |bs| ==> bs'[i].event == bs[i].event
  }

  /** What telling does to bounds query `j`: `b'` is what it becomes, and `a` is said `n` times. */
  ghost predicate BoundsBecomes(d: Disc, r: Disc, j: nat, b': BoundsEntry, a: Answer, n: nat) {
    SameSubjects(d.bounds, r.bounds) && j < |d.bounds| && r.bounds[j] == b' && Times(r.answers, a) == Times(d.answers, a) + n
  }

  lemma {:induction false} OneBoundsIndex(bs: seq<BoundsEntry>, j: nat)
    requires OneBounds(bs) && j < |bs|
    ensures BoundsAt(bs, bs[j].event.hash) == j
  {
    assert bs == Front(bs) + [Last(bs)];
    if j < |bs| - 1 {
      OneBoundsIndex(Front(bs), j);
    }
  }

  lemma OtherBounds(b: BoundsEntry, b': BoundsEntry, a: Answer)
    requires OnBounds(a, b) && b'.event.hash != b.event.hash
    ensures BoundsTold(b', a) == 0
  {
  }

  lemma SettleBoundsTold(d: Disc, i: nat, j: nat, e: BoundsEntry, a: Answer)
    requires OneBounds(d.bounds) && i < |d.bounds| && j < |d.bounds| && e.event == d.bounds[i].event && OnBounds(a, d.bounds[j])
    ensures BoundsBecomes(d, SettleBounds(d, i, e), j, if i == j then e else d.bounds[j], a, if i == j then BoundsTold(e, a) else 0)
  {
    hide Times, BoundsAnswers;
    BoundsAnswersTold(e.waiters, e, a);
    Together(d.answers, BoundsAnswers(e.waiters, e.state.Completed?, e), a);
    if i != j {
      OtherBounds(d.bounds[j], e, a);
    }
  }

  lemma OrderSaysNothing(o: OrderEntry, a: Answer)
    requires !(a.OrderDone? || a.OrderFailed?)
    ensures OrderTold(o, a) == 0
  {
  }

  lemma {:induction false} CompleteOrdersElsewhere(d: Disc, ch: EventChain, k: nat, a: Answer)
    requires k <= |d.orders| && !(a.OrderDone? || a.OrderFailed?)
    ensures Times(CompleteOrders(d, ch, k).answers, a) == Times(d.answers, a)
  {
    hide Decided, CompleteOrders, Offered, OrderTold, Times;
    OrdersStep(d, ch, k);
    if k > 0 {
      var d1 := CompleteOrders(d, ch, k - 1);
      OrderSaysNothing(Decided(d1, d1.orders[k - 1], ch), a);
      CompleteOrdersElsewhere(d, ch, k - 1, a);
      OfferedTold(CompleteOrders(d, ch, k - 1), k - 1, ch, a);
    }
  }

  lemma {:induction false} AbortOrdersElsewhere(d: Disc, h: Hash, k: nat, a: Answer)
    requires k <= |d.orders| && !(a.OrderDone? || a.OrderFailed?)
    ensures Times(AbortOrders(d, h, k).answers, a) == Times(d.answers, a)
  {
    hide SettleOrder, OrderTold, Times;
    if k > 0 {
      AbortOrdersElsewhere(d, h, k - 1, a);
      var d1 := AbortOrders(d, h, k - 1);
      OrderSaysNothing(d1.orders[k - 1].(state := Aborted), a);
      SettleOrderTold(d1, k - 1, d1.orders[k - 1].(state := Aborted), a);
    }
  }

  ghost function SaidOfBounds(b: BoundsEntry, b': BoundsEntry, a: Answer): nat {
    if b'.state == b.state then 0 else BoundsTold(b', a)
  }

  lemma NodeDoneSpans(d: Disc, ch: EventChain, j: nat, a: Answer)
    requires OneBounds(d.bounds) && j < |d.bounds| && OnBounds(a, d.bounds[j]) && Bounded(ch)
    ensures var b' := Spanned(d.bounds[j], ch);
      BoundsBecomes(d, OnChainCompleted(d, ch), j, b', a, SaidOfBounds(d.bounds[j], b', a))
  {
    hide CompleteOrders, BoundsTold, Times, SettleBounds;
    var d1 := CompleteBounds(d, ch);
    CompleteOrdersElsewhere(d1, ch, |d1.orders|, a);
    var i := BoundsAt(d.bounds, ch.event.hash);
    OneBoundsIndex(d.bounds, j);
    if i >= 0 {
      SettleBoundsTold(d, i, j, d.bounds[i].(lower := ch.lower[0].timestamp, upper := Last(ch.upper).timestamp, state := Completed), a);
    }
  }

  lemma NodeFailedSpans(d: Disc, event: Event, j: nat, a: Answer)
    requires OneBounds(d.bounds) && j < |d.bounds| && OnBounds(a, d.bounds[j]) && d.bounds[j].event.hash == event.hash
    ensures var b' := d.bounds[j].(state := Aborted);
      BoundsBecomes(d, OnChainAborted(d, event), j, b', a, BoundsTold(b', a))
  {
    hide AbortOrders, BoundsTold, Times, SettleBounds;
    var d1 := AbortBounds(d, event.hash);
    AbortOrdersElsewhere(d1, event.hash, |d1.orders|, a);
    OneBoundsIndex(d.bounds, j);
    SettleBoundsTold(d, j, j, d.bounds[j].(state := Aborted), a);
  }

  lemma SameSubjectsOne(bs: seq<BoundsEntry>, bs': seq<BoundsEntry>)
    requires OneBounds(bs) && SameSubjects(bs, bs')
    ensures OneBounds(bs')
  {
  }

  lemma {:induction false} TellAllDoneSpans(d: Disc, ws: seq<Waiter>, event: Event, ch: EventChain, j: nat, a: Answer)
    requires OneBounds(d.bounds) && j < |d.bounds| && OnBounds(a, d.bounds[j]) && Bounded(ch)
    ensures var b' := if Node in ws then Spanned(d.bounds[j], ch) else d.bounds[j];
      BoundsBecomes(d, TellAllDone(d, ws, event, ch), j, b', a, SaidOfBounds(d.bounds[j], b', a))
  {
    hide OnChainCompleted, BoundsTold, Times;
    if ws != [] {
      TellAllDoneSpans(d, Front(ws), event, ch, j, a);
      assert ws == Front(ws) + [Last(ws)];
      var d1 := TellAllDone(d, Front(ws), event, ch);
      SameSubjectsOne(d.bounds, d1.bounds);
      if Last(ws).Client? {
        OneMore(d1.answers, ChainDone(Last(ws).tok, event, ch), a);
      } else {
        NodeDoneSpans(d1, ch, j, a);
      }
    }
  }

  /** A chain query the node waits on succeeds with chain `ch`: a bounds query in progress about
      its event completes with the two ends of that chain, and each of its waiters hears exactly
      them, exactly once; about any other nobody hears anything. */
  lemma ChainCompletesBounds(d: Disc, i: nat, ch: EventChain, cr: Crypto, id: NodeId, j: nat, a: Answer)
    requires i < |d.chains| && Node in d.chains[i].waiters && Validate.Sound(cr, ch, id)
    requires j < |d.bounds| && OneBounds(d.bounds) && OnBounds(a, d.bounds[j])
    ensures Bounded(ch)
    ensures var r := Conclude(d, i, ch, true, cr, id); var b := d.bounds[j];
      var b' := if b.state.InProgress? && b.event.hash == ch.event.hash
                then b.(lower := ch.lower[0].timestamp, upper := Last(ch.upper).timestamp, state := Completed) else b;
      && |r.bounds| == |d.bounds| && r.bounds[j] == b'
      && Times(r.answers, a) == Times(d.answers, a) + SaidOfBounds(b, b', a)
  {
    hide TellAllDone, BoundsTold, OneBounds, OnBounds, Times;
    assert Bounded(ch);
    var e := d.chains[i].(chain := ch, state := Completed);
    assert d.chains[i := d.chains[i].(chain := ch)][i := e] == d.chains[i := e];
    TellAllDoneSpans(d.(chains := d.chains[i := e]), e.waiters, e.event, ch, j, a);
  }

  lemma {:induction false} TellAllFailedSpans(d: Disc, ws: seq<Waiter>, event: Event, j: nat, a: Answer)
    requires OneBounds(d.bounds) && j < |d.bounds| && OnBounds(a, d.bounds[j]) && d.bounds[j].event.hash == event.hash
    ensures var b' := d.bounds[j].(state := Aborted);
      BoundsBecomes(d, TellAllFailed(d, ws, event), j, if Node in ws then b' else d.bounds[j], a, Limits.Selves(ws) * BoundsTold(b', a))
  {
    hide OnChainAborted, BoundsTold, Times;
    var n := BoundsTold(d.bounds[j].(state := Aborted), a);
    if ws == [] {
      Arith.ZeroProduct(0, n);
    } else {
      TellAllFailedSpans(d, Front(ws), event, j, a);
      assert ws == Front(ws) + [Last(ws)];
      var d1 := TellAllFailed(d, Front(ws), event);
      SameSubjectsOne(d.bounds, d1.bounds);
      if Last(ws).Client? {
        OneMore(d1.answers, ChainFailed(Last(ws).tok, event), a);
      } else {
        NodeFailedSpans(d1, event, j, a);
        Arith.OneMore(Limits.Selves(Front(ws)), n);
      }
    }
  }

  /** It fails: the bounds query about its event aborts whatever it was, and each of its waiters
      hears so once for every time the node waits on the chain. */
  lemma ChainAbortsBounds(d: Disc, i: nat, ch: EventChain, attached: bool, cr: Crypto, id: NodeId, j: nat, a: Answer)
    requires i < |d.chains| && Node in d.chains[i].waiters && (!attached || !Validate.Sound(cr, ch, id))
    requires j < |d.bounds| && OneBounds(d.bounds) && OnBounds(a, d.bounds[j]) && d.bounds[j].event.hash == d.chains[i].event.hash
    ensures var r := Conclude(d, i, ch, attached, cr, id); var b' := d.bounds[j].(state := Aborted);
      && |r.bounds| == |d.bounds| && r.bounds[j] == b'
      && Times(r.answers, a) == Times(d.answers, a) + Limits.Selves(d.chains[i].waiters) * BoundsTold(b', a)
  {
    hide TellAllFailed, Validate.Sound, BoundsTold, OneBounds, OnBounds, Times;
    var e := d.chains[i].(chain := ch, state := Aborted);
    assert d.chains[i := d.chains[i].(chain := ch)][i := e] == d.chains[i := e];
    TellAllFailedSpans(d.(chains := d.chains[i := e]), e.waiters, e.event, j, a);
  }

  // ---------------------------------------------------------------------------
  // whole runs
  // ---------------------------------------------------------------------------

  /** In every reachable state, a response that concludes soundly on a chain query the node waits
      on leaves each order and each bounds query as said above. */
  lemma ResponseSettles(cr: Crypto, id: NodeId, xs: seq<Input>, ch: EventChain, live: seq<Entry>, j: nat, a: Answer)
    requires var d := Run(cr, id, xs); var i := ChainAt(d.chains, ch.event.hash);
      i >= 0 && d.chains[i].state.InProgress? && Node in d.chains[i].waiters
    requires var (enclosed, attached) := ChainBuild.Enclose(live, id, ch); attached && Validate.Sound(cr, enclosed, id)
    ensures var d, r := Run(cr, id, xs), Run(cr, id, xs + [Response(ch, live)]); var enclosed := ChainBuild.Enclose(live, id, ch).0;
      && |r.orders| == |d.orders| && |r.bounds| == |d.bounds| && Bounded(enclosed)
      && (j < |d.orders| && OnOrder(a, d.orders[j]) ==>
            && r.orders[j] == Outcome(d.chains, d.orders[j], enclosed)
            && Times(r.answers, a) == Times(d.answers, a) + Said(d.orders[j], r.orders[j], a))
      && (j < |d.bounds| && OnBounds(a, d.bounds[j]) ==>
            && r.bounds[j] == Spanned(d.bounds[j], enclosed)
            && Times(r.answers, a) == Times(d.answers, a) + SaidOfBounds(d.bounds[j], r.bounds[j], a))
  {
    hide Conclude, Outcome, Said, SaidOfBounds, ChainBuild.Enclose, OnOrder, OnBounds, Times;
    var d := Run(cr, id, xs);
    RunMoves(cr, id, xs);
    assert Front(xs + [Response(ch, live)]) == xs;
    var (enclosed, attached) := ChainBuild.Enclose(live, id, ch);
    EncloseSameEvent(live, id, ch);
    var i := ChainAt(d.chains, ch.event.hash);
    ConcludeKeepsCount(d, i, enclosed, cr, id);
    if j < |d.orders| && OnOrder(a, d.orders[j]) {
      ChainCompletesOrder(d, i, enclosed, cr, id, j, a);
    }
    if j < |d.bounds| && OnBounds(a, d.bounds[j]) {
      ChainCompletesBounds(d, i, enclosed, cr, id, j, a);
    }
  }

  lemma {:induction false} TellAllDoneKeepsCount(d: Disc, ws: seq<Waiter>, event: Event, ch: EventChain)
    ensures var r := TellAllDone(d, ws, event, ch); |r.orders| == |d.orders| && |r.bounds| == |d.bounds|
  {
    if ws != [] {
      TellAllDoneKeepsCount(d, Front(ws), event, ch);
    }
  }

  lemma ConcludeKeepsCount(d: Disc, i: nat, ch: EventChain, cr: Crypto, id: NodeId)
    requires i < |d.chains| && Validate.Sound(cr, ch, id)
    ensures var r := Conclude(d, i, ch, true, cr, id); |r.orders| == |d.orders| && |r.bounds| == |d.bounds| && Bounded(ch)
  {
    hide TellAllDone;
    var e := d.chains[i].(chain := ch, state := Completed);
    assert d.chains[i := d.chains[i].(chain := ch)][i := e] == d.chains[i := e];
    TellAllDoneKeepsCount(d.(chains := d.chains[i := e]), e.waiters, e.event, ch);
  }
}
