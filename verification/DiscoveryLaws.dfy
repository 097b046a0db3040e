/** What discovery bookkeeping promises over every interleaving of queries, responses and
    expiry: nobody waiting is forgotten, nobody is answered twice, every completed chain passed
    validation for its own key, and every completed order is the comparison of two such chains. */
module DiscoveryLaws {
  import opened Domain
  import opened Hashing
  import opened History
  import opened Log
  import opened Discovery
  import ChainBuild
  import Validate

  // ---------------------------------------------------------------------------
  // ledgers: who is waiting plus who was answered
  // ---------------------------------------------------------------------------

  /** How often token `t` occurs. */
  function Count(toks: seq<nat>, t: nat): (n: nat) {
    if toks == [] then 0 else Count(Front(toks), t) + if Last(toks) == t then 1 else 0
  }

  function Clients(ws: seq<Waiter>, t: nat): (n: nat) {
    if ws == [] then 0 else Clients(Front(ws), t) + if Last(ws) == Client(t) then 1 else 0
  }

  function WaitingOn(e: ChainEntry, t: nat): nat {
    if e.state.InProgress? then Clients(e.waiters, t) else 0
  }

  function WaitingOnOrder(e: OrderEntry, t: nat): nat {
    if e.state.InProgress? then Count(e.waiters, t) else 0
  }

  function ChainWaiters(cs: seq<ChainEntry>, t: nat): (n: nat) {
    if cs == [] then 0 else ChainWaiters(Front(cs), t) + WaitingOn(Last(cs), t)
  }

  function OrderWaiters(os: seq<OrderEntry>, t: nat): (n: nat) {
    if os == [] then 0 else OrderWaiters(Front(os), t) + WaitingOnOrder(Last(os), t)
  }

  function ChainAnswered(a: seq<Answer>, t: nat): (n: nat) {
    if a == [] then 0
    else ChainAnswered(Front(a), t) + if (Last(a).ChainDone? || Last(a).ChainFailed?) && Last(a).tok == t then 1 else 0
  }

  function OrderAnswered(a: seq<Answer>, t: nat): (n: nat) {
    if a == [] then 0
    else OrderAnswered(Front(a), t) + if (Last(a).OrderDone? || Last(a).OrderFailed?) && Last(a).tok == t then 1 else 0
  }

  /** How often `t` is waiting on a chain query or has been answered by one ... */
  function ChainLedger(d: Disc, t: nat): nat {
    ChainWaiters(d.chains, t) + ChainAnswered(d.answers, t)
  }

  /** ... and on an order query. */
  function OrderLedger(d: Disc, t: nat): nat {
    OrderWaiters(d.orders, t) + OrderAnswered(d.answers, t)
  }

  ghost predicate SameLedgers(a: Disc, b: Disc, t: nat) {
    ChainLedger(a, t) == ChainLedger(b, t) && OrderLedger(a, t) == OrderLedger(b, t)
  }

  lemma {:induction false} AnsweredConcat(a: seq<Answer>, b: seq<Answer>, t: nat)
    ensures ChainAnswered(a + b, t) == ChainAnswered(a, t) + ChainAnswered(b, t)
    ensures OrderAnswered(a + b, t) == OrderAnswered(a, t) + OrderAnswered(b, t)
  {
    if b == [] {
      assert a + b == a;
    } else {
      AnsweredConcat(a, Front(b), t);
      assert Front(a + b) == a + Front(b) && Last(a + b) == Last(b);
    }
  }

  lemma {:induction false} OrderAnswersCount(toks: seq<nat>, done: bool, e: OrderEntry, t: nat)
    ensures OrderAnswered(OrderAnswers(toks, done, e), t) == Count(toks, t)
    ensures ChainAnswered(OrderAnswers(toks, done, e), t) == 0
  {
    if toks != [] {
      OrderAnswersCount(Front(toks), done, e, t);
      assert toks == Front(toks) + [Last(toks)];
      assert Front(OrderAnswers(toks, done, e)) == OrderAnswers(Front(toks), done, e);
    }
  }

  lemma {:induction false} BoundsAnswersCount(toks: seq<nat>, done: bool, e: BoundsEntry, t: nat)
    ensures OrderAnswered(BoundsAnswers(toks, done, e), t) == 0
    ensures ChainAnswered(BoundsAnswers(toks, done, e), t) == 0
  {
    if toks != [] {
      BoundsAnswersCount(Front(toks), done, e, t);
      assert Front(BoundsAnswers(toks, done, e)) == BoundsAnswers(Front(toks), done, e);
    }
  }

  lemma {:induction false} ChainWaitersConcat(a: seq<ChainEntry>, b: seq<ChainEntry>, t: nat)
    ensures ChainWaiters(a + b, t) == ChainWaiters(a, t) + ChainWaiters(b, t)
  {
    if b == [] {
      assert a + b == a;
    } else {
      ChainWaitersConcat(a, Front(b), t);
      assert Front(a + b) == a + Front(b) && Last(a + b) == Last(b);
    }
  }

  lemma {:induction false} OrderWaitersConcat(a: seq<OrderEntry>, b: seq<OrderEntry>, t: nat)
    ensures OrderWaiters(a + b, t) == OrderWaiters(a, t) + OrderWaiters(b, t)
  {
    if b == [] {
      assert a + b == a;
    } else {
      OrderWaitersConcat(a, Front(b), t);
      assert Front(a + b) == a + Front(b) && Last(a + b) == Last(b);
    }
  }

  lemma ChainWaitersSplit(cs: seq<ChainEntry>, i: nat, e: ChainEntry, t: nat)
    requires i < |cs|
    ensures ChainWaiters(cs[i := e], t) + WaitingOn(cs[i], t) == ChainWaiters(cs, t) + WaitingOn(e, t)
    ensures ChainWaiters(Remove(cs, i), t) + WaitingOn(cs[i], t) == ChainWaiters(cs, t)
  {
    var l, r := cs[..i], cs[i + 1..];
    assert cs == l + ([cs[i]] + r) && cs[i := e] == l + ([e] + r) && Remove(cs, i) == l + r;
    ChainWaitersConcat(l, [cs[i]] + r, t);
    ChainWaitersConcat([cs[i]], r, t);
    ChainWaitersConcat(l, [e] + r, t);
    ChainWaitersConcat([e], r, t);
    ChainWaitersConcat(l, r, t);
    assert ChainWaiters([e], t) == WaitingOn(e, t) && ChainWaiters([cs[i]], t) == WaitingOn(cs[i], t);
  }

  lemma OrderWaitersSplit(os: seq<OrderEntry>, i: nat, e: OrderEntry, t: nat)
    requires i < |os|
    ensures OrderWaiters(os[i := e], t) + WaitingOnOrder(os[i], t) == OrderWaiters(os, t) + WaitingOnOrder(e, t)
    ensures OrderWaiters(Remove(os, i), t) + WaitingOnOrder(os[i], t) == OrderWaiters(os, t)
  {
    var l, r := os[..i], os[i + 1..];
    hide OrderWaiters, WaitingOnOrder;
    assert os == l + ([os[i]] + r) && os[i := e] == l + ([e] + r) && Remove(os, i) == l + r;
    OrderWaitersConcat(l, [os[i]] + r, t);
    OrderWaitersConcat([os[i]], r, t);
    OrderWaitersConcat(l, [e] + r, t);
    OrderWaitersConcat([e], r, t);
    OrderWaitersConcat(l, r, t);
    OneOrder(e, t);
    OneOrder(os[i], t);
  }

  lemma OneOrder(e: OrderEntry, t: nat)
    ensures OrderWaiters([e], t) == WaitingOnOrder(e, t)
  {
    assert Front([e]) == [];
  }

  lemma SettleOrderLedger(d: Disc, i: nat, e: OrderEntry, t: nat)
    requires i < |d.orders| && d.orders[i].state.InProgress? && !e.state.InProgress? && e.waiters == d.orders[i].waiters
    ensures SameLedgers(d, SettleOrder(d, i, e), t)
  {
    OrderWaitersSplit(d.orders, i, e, t);
    AnsweredConcat(d.answers, OrderAnswers(e.waiters, e.state.Completed?, e), t);
    OrderAnswersCount(e.waiters, e.state.Completed?, e, t);
  }

  lemma SettleBoundsLedger(d: Disc, i: nat, e: BoundsEntry, t: nat)
    requires i < |d.bounds|
    ensures SameLedgers(d, SettleBounds(d, i, e), t)
  {
    AnsweredConcat(d.answers, BoundsAnswers(e.waiters, e.state.Completed?, e), t);
    BoundsAnswersCount(e.waiters, e.state.Completed?, e, t);
  }

  lemma {:induction false} CompleteOrdersLedger(d: Disc, ch: EventChain, k: nat, t: nat)
    requires k <= |d.orders|
    ensures SameLedgers(d, CompleteOrders(d, ch, k), t)
  {
    hide Offered, ChainLedger, OrderLedger, CompleteOrders;
    OrdersStep(d, ch, k);
    if k > 0 {
      CompleteOrdersLedger(d, ch, k - 1, t);
      OfferedLedger(CompleteOrders(d, ch, k - 1), k - 1, ch, t);
    }
  }

  lemma OrdersStep(d: Disc, ch: EventChain, k: nat)
    requires k <= |d.orders|
    ensures CompleteOrders(d, ch, k) == if k == 0 then d else Offered(CompleteOrders(d, ch, k - 1), k - 1, ch)
  {
  }

  lemma OfferedLedger(d: Disc, i: nat, ch: EventChain, t: nat)
    requires i < |d.orders|
    ensures SameLedgers(d, Offered(d, i, ch), t)
  {
    hide SettleOrder, ChainLedger, OrderLedger;
    var e := Decided(d, d.orders[i], ch);
    if e.state != d.orders[i].state {
      SettleOrderLedger(d, i, e, t);
    }
  }

  lemma {:induction false} AbortOrdersLedger(d: Disc, h: Hash, k: nat, t: nat)
    requires k <= |d.orders|
    ensures SameLedgers(d, AbortOrders(d, h, k), t)
  {
    if k > 0 {
      AbortOrdersLedger(d, h, k - 1, t);
      var d1 := AbortOrders(d, h, k - 1);
      var e := d1.orders[k - 1];
      if e.state.InProgress? && (e.event1.hash == h || e.event2.hash == h) {
        SettleOrderLedger(d1, k - 1, e.(state := Aborted), t);
      }
    }
  }

  lemma OnChainCompletedLedger(d: Disc, ch: EventChain, t: nat)
    ensures SameLedgers(d, OnChainCompleted(d, ch), t)
  {
    var d1 := CompleteBounds(d, ch);
    if d1 != d {
      var i := BoundsAt(d.bounds, ch.event.hash);
      SettleBoundsLedger(d, i, d.bounds[i].(lower := ch.lower[0].timestamp, upper := Last(ch.upper).timestamp, state := Completed), t);
    }
    CompleteOrdersLedger(d1, ch, |d1.orders|, t);
  }

  lemma OnChainAbortedLedger(d: Disc, event: Event, t: nat)
    ensures SameLedgers(d, OnChainAborted(d, event), t)
  {
    var i := BoundsAt(d.bounds, event.hash);
    if i >= 0 {
      SettleBoundsLedger(d, i, d.bounds[i].(state := Aborted), t);
    }
    AbortOrdersLedger(AbortBounds(d, event.hash), event.hash, |d.orders|, t);
  }

  lemma {:induction false} TellAllDoneLedger(d: Disc, ws: seq<Waiter>, event: Event, ch: EventChain, t: nat)
    ensures var r := TellAllDone(d, ws, event, ch);
      ChainLedger(r, t) == ChainLedger(d, t) + Clients(ws, t) && OrderLedger(r, t) == OrderLedger(d, t)
  {
    if ws != [] {
      TellAllDoneLedger(d, Front(ws), event, ch, t);
      TellDoneLedger(TellAllDone(d, Front(ws), event, ch), Last(ws), event, ch, t);
    }
  }

  lemma {:induction false} TellAllFailedLedger(d: Disc, ws: seq<Waiter>, event: Event, t: nat)
    ensures var r := TellAllFailed(d, ws, event);
      ChainLedger(r, t) == ChainLedger(d, t) + Clients(ws, t) && OrderLedger(r, t) == OrderLedger(d, t)
  {
    if ws != [] {
      TellAllFailedLedger(d, Front(ws), event, t);
      TellFailedLedger(TellAllFailed(d, Front(ws), event), Last(ws), event, t);
    }
  }

  lemma OneAnswer(a: seq<Answer>, x: Answer, t: nat)
    ensures ChainAnswered(a + [x], t) == ChainAnswered(a, t) + if (x.ChainDone? || x.ChainFailed?) && x.tok == t then 1 else 0
    ensures OrderAnswered(a + [x], t) == OrderAnswered(a, t) + if (x.OrderDone? || x.OrderFailed?) && x.tok == t then 1 else 0
  {
    assert Front(a + [x]) == a;
  }

  lemma TellDoneLedger(d: Disc, w: Waiter, event: Event, ch: EventChain, t: nat)
    ensures var r := TellDone(d, w, event, ch);
      ChainLedger(r, t) == ChainLedger(d, t) + Clients([w], t) && OrderLedger(r, t) == OrderLedger(d, t)
  {
    hide OnChainCompleted, ChainWaiters, OrderWaiters;
    match w
    case Node => OnChainCompletedLedger(d, ch, t);
    case Client(tok) => OneAnswer(d.answers, ChainDone(tok, event, ch), t);
  }

  lemma TellFailedLedger(d: Disc, w: Waiter, event: Event, t: nat)
    ensures var r := TellFailed(d, w, event);
      ChainLedger(r, t) == ChainLedger(d, t) + Clients([w], t) && OrderLedger(r, t) == OrderLedger(d, t)
  {
    hide OnChainAborted, ChainWaiters, OrderWaiters;
    match w
    case Node => OnChainAbortedLedger(d, event, t);
    case Client(tok) => OneAnswer(d.answers, ChainFailed(tok, event), t);
  }

  lemma AbortChainLedger(d: Disc, i: nat, t: nat)
    requires i < |d.chains| && d.chains[i].state.InProgress?
    ensures SameLedgers(d, AbortChain(d, i), t)
  {
    var e := d.chains[i].(state := Aborted);
    ChainWaitersSplit(d.chains, i, e, t);
    TellAllFailedLedger(d.(chains := d.chains[i := e]), e.waiters, e.event, t);
  }

  lemma ConcludeLedger(d: Disc, i: nat, ch: EventChain, attached: bool, cr: Crypto, id: NodeId, t: nat)
    requires i < |d.chains| && d.chains[i].state.InProgress?
    ensures SameLedgers(d, Conclude(d, i, ch, attached, cr, id), t)
  {
    var d1 := d.(chains := d.chains[i := d.chains[i].(chain := ch)]);
    ChainWaitersSplit(d.chains, i, d1.chains[i], t);
    if attached && Validate.Sound(cr, d1.chains[i].chain, id) {
      var e := d1.chains[i].(state := Completed);
      ChainWaitersSplit(d1.chains, i, e, t);
      TellAllDoneLedger(d1.(chains := d1.chains[i := e]), e.waiters, e.event, e.chain, t);
    } else {
      AbortChainLedger(d1, i, t);
    }
  }

  lemma ClientsMore(ws: seq<Waiter>, w: Waiter, t: nat)
    ensures Clients(ws + [w], t) == Clients(ws, t) + Clients([w], t)
  {
    assert Front(ws + [w]) == ws && Front([w]) == [];
  }

  lemma AskChainLedger(d: Disc, cr: Crypto, id: NodeId, live: seq<Entry>, event: Event, range: TimeRange, w: Waiter, now: Timestamp, t: nat)
    ensures var r := AskChain(d, cr, id, live, event, range, w, now);
      ChainLedger(r, t) == ChainLedger(d, t) + Clients([w], t) && OrderLedger(r, t) == OrderLedger(d, t)
  {
    hide TellDone, TellFailed, Conclude, ChainBuild.Enclose, ChainAnswered, OrderAnswered, OrderWaiters;
    var i := ChainAt(d.chains, event.hash);
    if i >= 0 {
      hide ChainAt;
      var e := d.chains[i];
      match e.state {
        case InProgress =>
          var e' := e.(waiters := e.waiters + [w]);
          ClientsMore(e.waiters, w, t);
          ChainWaitersSplit(d.chains, i, e', t);
        case Aborted => TellFailedLedger(d, w, event, t);
        case Completed => TellDoneLedger(d, w, event, e.chain, t);
      }
    } else {
      var d1 := d.(chains := d.chains + [NewChain(event, range, w, now)]);
      assert Front(d1.chains) == d.chains;
      if event.creator == id {
        var (ch, attached) := ChainBuild.Enclose(live, id, EventChain(event, [], []));
        ConcludeLedger(d1, |d.chains|, ch, attached, cr, id, t);
      }
    }
  }

  lemma AskBoundsLedger(d: Disc, cr: Crypto, id: NodeId, live: seq<Entry>, event: Event, range: TimeRange, tok: nat, now: Timestamp, t: nat)
    ensures SameLedgers(d, AskBounds(d, cr, id, live, event, range, tok, now), t)
  {
    hide AskChain, ChainWaiters, OrderWaiters;
    if BoundsAt(d.bounds, event.hash) >= 0 {
      hide BoundsAt;
      var e := d.bounds[BoundsAt(d.bounds, event.hash)];
      OneAnswer(d.answers, BoundsFailed(tok, event), t);
      OneAnswer(d.answers, BoundsDone(tok, event, e.lower, e.upper), t);
    } else {
      var d1 := d.(bounds := d.bounds + [BoundsEntry(now, event, 0, 0, InProgress, [tok])]);
      AskChainLedger(d1, cr, id, live, event, range, Node, now, t);
    }
  }

  lemma JoinOrderLedger(d: Disc, i: nat, tok: nat, t: nat)
    requires i < |d.orders| && d.orders[i].state.InProgress?
    ensures var e := d.orders[i]; var r := d.(orders := d.orders[i := e.(waiters := e.waiters + [tok])]);
      ChainLedger(r, t) == ChainLedger(d, t) && OrderLedger(r, t) == OrderLedger(d, t) + (if tok == t then 1 else 0)
  {
    var e := d.orders[i];
    var e' := e.(waiters := e.waiters + [tok]);
    assert Front(e'.waiters) == e.waiters;
    OrderWaitersSplit(d.orders, i, e', t);
  }

  lemma NewOrderLedger(d: Disc, event1: Event, event2: Event, tok: nat, now: Timestamp, t: nat)
    ensures var r := d.(orders := d.orders + [OrderEntry(now, event1, event2, Undetermined, InProgress, [tok])]);
      ChainLedger(r, t) == ChainLedger(d, t) && OrderLedger(r, t) == OrderLedger(d, t) + (if tok == t then 1 else 0)
  {
    var e := OrderEntry(now, event1, event2, Undetermined, InProgress, [tok]);
    assert Front(d.orders + [e]) == d.orders && Last(d.orders + [e]) == e;
    assert Count([tok], t) == if tok == t then 1 else 0;
  }

  lemma AskOrderLedger(d: Disc, cr: Crypto, id: NodeId, live: seq<Entry>, event1: Event, event2: Event,
                       range: TimeRange, tok: nat, now: Timestamp, t: nat)
    ensures var r := AskOrder(d, cr, id, live, event1, event2, range, tok, now);
      ChainLedger(r, t) == ChainLedger(d, t) && OrderLedger(r, t) == OrderLedger(d, t) + (if tok == t then 1 else 0)
  {
    hide AskChain, ChainWaiters, OrderWaiters, OrderAt;
    var i := OrderAt(d.orders, event1.hash, event2.hash);
    if i >= 0 {
      var e := d.orders[i];
      match e.state {
        case InProgress => JoinOrderLedger(d, i, tok, t);
        case Aborted => OneAnswer(d.answers, OrderFailed(tok, event1, event2), t);
        case Completed => OneAnswer(d.answers, OrderDone(tok, event1, event2, e.order), t);
      }
    } else {
      NewOrderLedger(d, event1, event2, tok, now, t);
      var d1 := d.(orders := d.orders + [OrderEntry(now, event1, event2, Undetermined, InProgress, [tok])]);
      AskChainLedger(d1, cr, id, live, event1, range, Node, now, t);
      AskChainLedger(AskChain(d1, cr, id, live, event1, range, Node, now), cr, id, live, event2, range, Node, now, t);
    }
  }

  lemma {:induction false} PurgeChainsLedger(d: Disc, i: nat, limit: Timestamp, t: nat)
    requires i <= |d.chains|
    ensures SameLedgers(d, PurgeChains(d, i, limit), t)
    decreases |d.chains| - i
  {
    if i < |d.chains| {
      if d.chains[i].start < limit {
        var d1 := if d.chains[i].state.InProgress? then AbortChain(d, i) else d;
        if d.chains[i].state.InProgress? {
          AbortChainLedger(d, i, t);
        }
        ChainWaitersSplit(d1.chains, i, d1.chains[i], t);
        PurgeChainsLedger(d1.(chains := Remove(d1.chains, i)), i, limit, t);
      } else {
        PurgeChainsLedger(d, i + 1, limit, t);
      }
    }
  }

  lemma {:induction false} PurgeBoundsLedger(d: Disc, i: nat, limit: Timestamp, t: nat)
    requires i <= |d.bounds|
    ensures SameLedgers(d, PurgeBounds(d, i, limit), t)
    decreases |d.bounds| - i
  {
    if i < |d.bounds| {
      if d.bounds[i].start < limit {
        var d1 := if d.bounds[i].state.InProgress? then SettleBounds(d, i, d.bounds[i].(state := Aborted)) else d;
        SettleBoundsLedger(d, i, d.bounds[i].(state := Aborted), t);
        PurgeBoundsLedger(d1.(bounds := Remove(d1.bounds, i)), i, limit, t);
      } else {
        PurgeBoundsLedger(d, i + 1, limit, t);
      }
    }
  }

  lemma {:induction false} PurgeOrdersLedger(d: Disc, i: nat, limit: Timestamp, t: nat)
    requires i <= |d.orders|
    ensures SameLedgers(d, PurgeOrders(d, i, limit), t)
    decreases |d.orders| - i
  {
    if i < |d.orders| {
      if d.orders[i].start < limit {
        var d1 := if d.orders[i].state.InProgress? then SettleOrder(d, i, d.orders[i].(state := Aborted)) else d;
        if d.orders[i].state.InProgress? {
          SettleOrderLedger(d, i, d.orders[i].(state := Aborted), t);
        }
        OrderWaitersSplit(d1.orders, i, d1.orders[i], t);
        PurgeOrdersLedger(d1.(orders := Remove(d1.orders, i)), i, limit, t);
      } else {
        PurgeOrdersLedger(d, i + 1, limit, t);
      }
    }
  }

  // ---------------------------------------------------------------------------
  // soundness of what completes
  // ---------------------------------------------------------------------------

  /** Whose table this is, and, when every peer is honest, the history it lives in. */
  datatype Trust = Trust(cr: Crypto, id: NodeId, H: Option<History>)

  /** A chain fit to answer a query for hash `h`. */
  ghost predicate Good(t: Trust, h: Hash, ch: EventChain) {
    && Validate.Sound(t.cr, ch, t.id) && ch.event.hash == h
    && (t.H.Some? ==> RealChain(t.H.value, ch))
  }

  /** The order is the comparison of a good chain for `h1` with a good chain for `h2`. */
  ghost predicate Justified(t: Trust, h1: Hash, h2: Hash, o: Order) {
    exists a, b :: Good(t, h1, a) && Good(t, h2, b) && o == Validate.Compare(a, b)
  }

  /** The interval is that of a good chain for `h`. */
  ghost predicate Bracketed(t: Trust, h: Hash, lower: Timestamp, upper: Timestamp) {
    exists a :: Good(t, h, a) && lower == a.lower[0].timestamp && upper == Last(a.upper).timestamp
  }

  ghost predicate BoundsOk(t: Trust, e: BoundsEntry) {
    e.state.Completed? ==> Bracketed(t, e.event.hash, e.lower, e.upper)
  }

  ghost predicate ChainOk(t: Trust, e: ChainEntry) {
    e.state.Completed? ==> Good(t, e.event.hash, e.chain)
  }

  ghost predicate OrderOk(t: Trust, e: OrderEntry) {
    e.state.Completed? ==> Justified(t, e.event1.hash, e.event2.hash, e.order)
  }

  ghost predicate AnswerOk(t: Trust, a: Answer) {
    match a
    case ChainDone(_, event, ch) => Good(t, event.hash, ch)
    case BoundsDone(_, event, lower, upper) => Bracketed(t, event.hash, lower, upper)
    case OrderDone(_, event1, event2, o) => Justified(t, event1.hash, event2.hash, o)
    case _ => true
  }

  ghost predicate DiscOk(t: Trust, d: Disc) {
    && (forall e :: e in d.chains ==> ChainOk(t, e))
    && (forall e :: e in d.bounds ==> BoundsOk(t, e))
    && (forall e :: e in d.orders ==> OrderOk(t, e))
    && (forall a :: a in d.answers ==> AnswerOk(t, a))
  }

  lemma {:induction false} OrderAnswersOk(t: Trust, toks: seq<nat>, e: OrderEntry, a: Answer)
    requires OrderOk(t, e) && a in OrderAnswers(toks, e.state.Completed?, e)
    ensures AnswerOk(t, a)
  {
    if a in OrderAnswers(Front(toks), e.state.Completed?, e) {
      OrderAnswersOk(t, Front(toks), e, a);
    }
  }

  lemma SettleOrderOk(t: Trust, d: Disc, i: nat, e: OrderEntry)
    requires DiscOk(t, d) && i < |d.orders| && OrderOk(t, e)
    ensures DiscOk(t, SettleOrder(d, i, e))
  {
    forall a | a in OrderAnswers(e.waiters, e.state.Completed?, e)
      ensures AnswerOk(t, a)
    {
      OrderAnswersOk(t, e.waiters, e, a);
    }
  }

  lemma {:induction false} BoundsAnswersOk(t: Trust, toks: seq<nat>, e: BoundsEntry, a: Answer)
    requires BoundsOk(t, e) && a in BoundsAnswers(toks, e.state.Completed?, e)
    ensures AnswerOk(t, a)
  {
    if a in BoundsAnswers(Front(toks), e.state.Completed?, e) {
      BoundsAnswersOk(t, Front(toks), e, a);
    }
  }

  lemma SettleBoundsOk(t: Trust, d: Disc, i: nat, e: BoundsEntry)
    requires DiscOk(t, d) && i < |d.bounds| && BoundsOk(t, e)
    ensures DiscOk(t, SettleBounds(d, i, e))
  {
    forall a | a in BoundsAnswers(e.waiters, e.state.Completed?, e)
      ensures AnswerOk(t, a)
    {
      BoundsAnswersOk(t, e.waiters, e, a);
    }
  }

  lemma CompleteBoundsOk(t: Trust, d: Disc, ch: EventChain)
    requires DiscOk(t, d) && Good(t, ch.event.hash, ch)
    ensures DiscOk(t, CompleteBounds(d, ch))
  {
    var i := BoundsAt(d.bounds, ch.event.hash);
    if i >= 0 && d.bounds[i].state.InProgress? {
      SettleBoundsOk(t, d, i, d.bounds[i].(lower := ch.lower[0].timestamp, upper := Last(ch.upper).timestamp, state := Completed));
    }
  }

  lemma AbortBoundsOk(t: Trust, d: Disc, h: Hash)
    requires DiscOk(t, d)
    ensures DiscOk(t, AbortBounds(d, h))
  {
    var i := BoundsAt(d.bounds, h);
    if i >= 0 {
      SettleBoundsOk(t, d, i, d.bounds[i].(state := Aborted));
    }
  }

  lemma DecidedOk(t: Trust, d: Disc, e: OrderEntry, ch: EventChain)
    requires DiscOk(t, d) && OrderOk(t, e) && Good(t, ch.event.hash, ch)
    ensures OrderOk(t, Decided(d, e, ch))
  {
    var r := Decided(d, e, ch);
    if e.state.InProgress? && r.state.Completed? {
      if e.event1.hash == ch.event.hash {
        var other := CompletedChain(d, e.event2.hash).value;
        assert ChainOk(t, d.chains[ChainAt(d.chains, e.event2.hash)]);
        assert Good(t, e.event1.hash, ch) && r.order == Validate.Compare(ch, other);
      } else {
        var other := CompletedChain(d, e.event1.hash).value;
        assert ChainOk(t, d.chains[ChainAt(d.chains, e.event1.hash)]);
        assert Good(t, e.event2.hash, ch) && r.order == Validate.Compare(other, ch);
      }
    }
  }

  lemma EntryOk(t: Trust, d: Disc, k: nat)
    requires DiscOk(t, d) && k < |d.orders|
    ensures OrderOk(t, d.orders[k])
  {
    hide OrderOk;
    assert d.orders[k] in d.orders;
  }

  lemma {:induction false} CompleteOrdersOk(t: Trust, d: Disc, ch: EventChain, k: nat)
    requires DiscOk(t, d) && k <= |d.orders| && Good(t, ch.event.hash, ch)
    ensures DiscOk(t, CompleteOrders(d, ch, k))
  {
    hide Offered, Good, DiscOk, CompleteOrders;
    OrdersStep(d, ch, k);
    if k > 0 {
      CompleteOrdersOk(t, d, ch, k - 1);
      OfferedOk(t, CompleteOrders(d, ch, k - 1), k - 1, ch);
    }
  }

  lemma OfferedOk(t: Trust, d: Disc, i: nat, ch: EventChain)
    requires DiscOk(t, d) && i < |d.orders| && Good(t, ch.event.hash, ch)
    ensures DiscOk(t, Offered(d, i, ch))
  {
    hide OrderOk, Good, Decided, SettleOrder, ChainOk, AnswerOk;
    EntryOk(t, d, i);
    hide DiscOk;
    DecidedOk(t, d, d.orders[i], ch);
    SettleOrderOk(t, d, i, Decided(d, d.orders[i], ch));
  }

  lemma {:induction false} AbortOrdersOk(t: Trust, d: Disc, h: Hash, k: nat)
    requires DiscOk(t, d) && k <= |d.orders|
    ensures DiscOk(t, AbortOrders(d, h, k))
  {
    if k > 0 {
      AbortOrdersOk(t, d, h, k - 1);
      var d1 := AbortOrders(d, h, k - 1);
      SettleOrderOk(t, d1, k - 1, d1.orders[k - 1].(state := Aborted));
    }
  }

  lemma TellDoneOk(t: Trust, d: Disc, w: Waiter, event: Event, ch: EventChain)
    requires DiscOk(t, d) && Good(t, event.hash, ch)
    ensures DiscOk(t, TellDone(d, w, event, ch))
  {
    if w.Node? {
      var d1 := CompleteBounds(d, ch);
      CompleteBoundsOk(t, d, ch);
      CompleteOrdersOk(t, d1, ch, |d1.orders|);
    }
  }

  lemma TellFailedOk(t: Trust, d: Disc, w: Waiter, event: Event)
    requires DiscOk(t, d)
    ensures DiscOk(t, TellFailed(d, w, event))
  {
    if w.Node? {
      var d1 := AbortBounds(d, event.hash);
      AbortBoundsOk(t, d, event.hash);
      AbortOrdersOk(t, d1, event.hash, |d1.orders|);
    }
  }

  lemma {:induction false} TellAllDoneOk(t: Trust, d: Disc, ws: seq<Waiter>, event: Event, ch: EventChain)
    requires DiscOk(t, d) && Good(t, event.hash, ch)
    ensures DiscOk(t, TellAllDone(d, ws, event, ch))
  {
    if ws != [] {
      TellAllDoneOk(t, d, Front(ws), event, ch);
      TellDoneOk(t, TellAllDone(d, Front(ws), event, ch), Last(ws), event, ch);
    }
  }

  lemma {:induction false} TellAllFailedOk(t: Trust, d: Disc, ws: seq<Waiter>, event: Event)
    requires DiscOk(t, d)
    ensures DiscOk(t, TellAllFailed(d, ws, event))
  {
    if ws != [] {
      TellAllFailedOk(t, d, Front(ws), event);
      TellFailedOk(t, TellAllFailed(d, Front(ws), event), Last(ws), event);
    }
  }

  lemma AbortChainOk(t: Trust, d: Disc, i: nat)
    requires DiscOk(t, d) && i < |d.chains|
    ensures DiscOk(t, AbortChain(d, i))
  {
    var e := d.chains[i].(state := Aborted);
    TellAllFailedOk(t, d.(chains := d.chains[i := e]), e.waiters, e.event);
  }

  lemma ConcludeOk(t: Trust, d: Disc, i: nat, ch: EventChain, attached: bool)
    requires DiscOk(t, d) && i < |d.chains| && d.chains[i].state.InProgress? && ch.event.hash == d.chains[i].event.hash
    requires t.H.Some? && attached ==> RealChain(t.H.value, ch)
    ensures DiscOk(t, Conclude(d, i, ch, attached, t.cr, t.id))
  {
    var d1 := d.(chains := d.chains[i := d.chains[i].(chain := ch)]);
    if attached && Validate.Sound(t.cr, ch, t.id) {
      var e := d1.chains[i].(state := Completed);
      TellAllDoneOk(t, d1.(chains := d1.chains[i := e]), e.waiters, e.event, e.chain);
    } else {
      AbortChainOk(t, d1, i);
    }
  }

  lemma EncloseSameEvent(live: seq<Entry>, id: NodeId, ch: EventChain)
    ensures ChainBuild.Enclose(live, id, ch).0.event == ch.event
  {
  }

  /** A chain about to be enclosed at `t.id` is real whenever the network is honest. */
  ghost predicate Attachable(t: Trust, live: seq<Entry>, ch: EventChain) {
    t.H.Some? ==> var (r, attached) := ChainBuild.Enclose(live, t.id, ch); attached ==> RealChain(t.H.value, r)
  }

  lemma AskChainOk(t: Trust, d: Disc, live: seq<Entry>, event: Event, range: TimeRange, w: Waiter, now: Timestamp)
    requires DiscOk(t, d)
    requires event.creator == t.id ==> Attachable(t, live, EventChain(event, [], []))
    ensures DiscOk(t, AskChain(d, t.cr, t.id, live, event, range, w, now))
  {
    var i := ChainAt(d.chains, event.hash);
    if i >= 0 {
      assert ChainOk(t, d.chains[i]);
      match d.chains[i].state {
        case InProgress =>
        case Aborted => TellFailedOk(t, d, w, event);
        case Completed => TellDoneOk(t, d, w, event, d.chains[i].chain);
      }
    } else {
      var d1 := d.(chains := d.chains + [NewChain(event, range, w, now)]);
      if event.creator == t.id {
        var (ch, attached) := ChainBuild.Enclose(live, t.id, EventChain(event, [], []));
        EncloseSameEvent(live, t.id, EventChain(event, [], []));
        ConcludeOk(t, d1, |d.chains|, ch, attached);
      }
    }
  }

  lemma AskBoundsOk(t: Trust, d: Disc, live: seq<Entry>, event: Event, range: TimeRange, tok: nat, now: Timestamp)
    requires DiscOk(t, d)
    requires event.creator == t.id ==> Attachable(t, live, EventChain(event, [], []))
    ensures DiscOk(t, AskBounds(d, t.cr, t.id, live, event, range, tok, now))
  {
    var i := BoundsAt(d.bounds, event.hash);
    if i >= 0 {
      assert BoundsOk(t, d.bounds[i]);
    } else {
      AskChainOk(t, d.(bounds := d.bounds + [BoundsEntry(now, event, 0, 0, InProgress, [tok])]), live, event, range, Node, now);
    }
  }

  lemma AskOrderOk(t: Trust, d: Disc, live: seq<Entry>, event1: Event, event2: Event, range: TimeRange, tok: nat, now: Timestamp)
    requires DiscOk(t, d)
    requires event1.creator == t.id ==> Attachable(t, live, EventChain(event1, [], []))
    requires event2.creator == t.id ==> Attachable(t, live, EventChain(event2, [], []))
    ensures DiscOk(t, AskOrder(d, t.cr, t.id, live, event1, event2, range, tok, now))
  {
    var i := OrderAt(d.orders, event1.hash, event2.hash);
    if i < 0 {
      var d1 := d.(orders := d.orders + [OrderEntry(now, event1, event2, Undetermined, InProgress, [tok])]);
      AskChainOk(t, d1, live, event1, range, Node, now);
      AskChainOk(t, AskChain(d1, t.cr, t.id, live, event1, range, Node, now), live, event2, range, Node, now);
    } else {
      assert OrderOk(t, d.orders[i]);
    }
  }

  lemma ComeHomeOk(t: Trust, d: Disc, live: seq<Entry>, ch: EventChain)
    requires DiscOk(t, d) && Attachable(t, live, ch)
    ensures DiscOk(t, ComeHome(d, t.cr, t.id, live, ch))
  {
    var i := ChainAt(d.chains, ch.event.hash);
    if i >= 0 && d.chains[i].state.InProgress? {
      var (r, attached) := ChainBuild.Enclose(live, t.id, ch);
      EncloseSameEvent(live, t.id, ch);
      ConcludeOk(t, d, i, r, attached);
    }
  }

  lemma {:induction false} PurgeChainsOk(t: Trust, d: Disc, i: nat, limit: Timestamp)
    requires DiscOk(t, d) && i <= |d.chains|
    ensures DiscOk(t, PurgeChains(d, i, limit))
    decreases |d.chains| - i
  {
    if i < |d.chains| {
      if d.chains[i].start < limit {
        AbortChainOk(t, d, i);
        var d1 := if d.chains[i].state.InProgress? then AbortChain(d, i) else d;
        PurgeChainsOk(t, d1.(chains := Remove(d1.chains, i)), i, limit);
      } else {
        PurgeChainsOk(t, d, i + 1, limit);
      }
    }
  }

  lemma {:induction false} PurgeBoundsOk(t: Trust, d: Disc, i: nat, limit: Timestamp)
    requires DiscOk(t, d) && i <= |d.bounds|
    ensures DiscOk(t, PurgeBounds(d, i, limit))
    decreases |d.bounds| - i
  {
    if i < |d.bounds| {
      if d.bounds[i].start < limit {
        var d1 := if d.bounds[i].state.InProgress? then SettleBounds(d, i, d.bounds[i].(state := Aborted)) else d;
        SettleBoundsOk(t, d, i, d.bounds[i].(state := Aborted));
        PurgeBoundsOk(t, d1.(bounds := Remove(d1.bounds, i)), i, limit);
      } else {
        PurgeBoundsOk(t, d, i + 1, limit);
      }
    }
  }

  lemma {:induction false} PurgeOrdersOk(t: Trust, d: Disc, i: nat, limit: Timestamp)
    requires DiscOk(t, d) && i <= |d.orders|
    ensures DiscOk(t, PurgeOrders(d, i, limit))
    decreases |d.orders| - i
  {
    if i < |d.orders| {
      if d.orders[i].start < limit {
        SettleOrderOk(t, d, i, d.orders[i].(state := Aborted));
        var d1 := if d.orders[i].state.InProgress? then SettleOrder(d, i, d.orders[i].(state := Aborted)) else d;
        PurgeOrdersOk(t, d1.(orders := Remove(d1.orders, i)), i, limit);
      } else {
        PurgeOrdersOk(t, d, i + 1, limit);
      }
    }
  }

  lemma PurgeOk(t: Trust, d: Disc, limit: Timestamp)
    requires DiscOk(t, d)
    ensures DiscOk(t, Purge(d, limit))
  {
    PurgeChainsOk(t, d, 0, limit);
    PurgeBoundsOk(t, PurgeChains(d, 0, limit), 0, limit);
    PurgeOrdersOk(t, PurgeBounds(PurgeChains(d, 0, limit), 0, limit), 0, limit);
  }

  // ---------------------------------------------------------------------------
  // every interleaving
  // ---------------------------------------------------------------------------

  /** One thing that can happen to a node's queries. `live` is whatever the store holds then,
      and a response may carry any chain at all. */
  datatype Input =
    | ForChain(event: Event, range: TimeRange, tok: nat, now: Timestamp, live: seq<Entry>)
    | ForBounds(event: Event, range: TimeRange, tok: nat, now: Timestamp, live: seq<Entry>)
    | ForOrder(event1: Event, event2: Event, range: TimeRange, tok: nat, now: Timestamp, live: seq<Entry>)
    | Response(chain: EventChain, live: seq<Entry>)
    | Expire(limit: Timestamp)

  ghost function React(d: Disc, cr: Crypto, id: NodeId, x: Input): Disc {
    match x
    case ForChain(event, range, tok, now, live) => AskChain(d, cr, id, live, event, range, Client(tok), now)
    case ForBounds(event, range, tok, now, live) => AskBounds(d, cr, id, live, event, range, tok, now)
    case ForOrder(event1, event2, range, tok, now, live) => AskOrder(d, cr, id, live, event1, event2, range, tok, now)
    case Response(ch, live) => ComeHome(d, cr, id, live, ch)
    case Expire(limit) => Purge(d, limit)
  }

  ghost function Run(cr: Crypto, id: NodeId, xs: seq<Input>): Disc {
    if xs == [] then IDLE else React(Run(cr, id, Front(xs)), cr, id, Last(xs))
  }

  function ChainQueries(xs: seq<Input>, t: nat): nat {
    if xs == [] then 0 else ChainQueries(Front(xs), t) + if Last(xs).ForChain? && Last(xs).tok == t then 1 else 0
  }

  function OrderQueries(xs: seq<Input>, t: nat): nat {
    if xs == [] then 0 else OrderQueries(Front(xs), t) + if Last(xs).ForOrder? && Last(xs).tok == t then 1 else 0
  }

  lemma ReactLedger(d: Disc, cr: Crypto, id: NodeId, x: Input, t: nat)
    ensures var r := React(d, cr, id, x);
      && ChainLedger(r, t) == ChainLedger(d, t) + (if x.ForChain? && x.tok == t then 1 else 0)
      && OrderLedger(r, t) == OrderLedger(d, t) + (if x.ForOrder? && x.tok == t then 1 else 0)
  {
    match x
    case ForChain(event, range, tok, now, live) =>
      AskChainLedger(d, cr, id, live, event, range, Client(tok), now, t);
      assert Front([Client(tok)]) == [];
    case ForBounds(event, range, tok, now, live) => AskBoundsLedger(d, cr, id, live, event, range, tok, now, t);
    case ForOrder(event1, event2, range, tok, now, live) =>
      AskOrderLedger(d, cr, id, live, event1, event2, range, tok, now, t);
    case Response(ch, live) =>
      var i := ChainAt(d.chains, ch.event.hash);
      if i >= 0 && d.chains[i].state.InProgress? {
        var (r, attached) := ChainBuild.Enclose(live, id, ch);
        ConcludeLedger(d, i, r, attached, cr, id, t);
      }
    case Expire(limit) =>
      PurgeChainsLedger(d, 0, limit, t);
      PurgeBoundsLedger(PurgeChains(d, 0, limit), 0, limit, t);
      PurgeOrdersLedger(PurgeBounds(PurgeChains(d, 0, limit), 0, limit), 0, limit, t);
  }

  lemma ReactOk(t: Trust, d: Disc, x: Input)
    requires DiscOk(t, d) && t.H.None?
    ensures DiscOk(t, React(d, t.cr, t.id, x))
  {
    match x
    case ForChain(event, range, tok, now, live) => AskChainOk(t, d, live, event, range, Client(tok), now);
    case ForBounds(event, range, tok, now, live) => AskBoundsOk(t, d, live, event, range, tok, now);
    case ForOrder(event1, event2, range, tok, now, live) => AskOrderOk(t, d, live, event1, event2, range, tok, now);
    case Response(ch, live) => ComeHomeOk(t, d, live, ch);
    case Expire(limit) => PurgeOk(t, d, limit);
  }

  /** Over every interleaving, every chain query and every order query is either still waiting
      or has been answered: each registration is accounted for exactly once. */
  lemma {:induction false} EveryQueryAccountedFor(cr: Crypto, id: NodeId, xs: seq<Input>, t: nat)
    ensures ChainLedger(Run(cr, id, xs), t) == ChainQueries(xs, t)
    ensures OrderLedger(Run(cr, id, xs), t) == OrderQueries(xs, t)
  {
    if xs != [] {
      EveryQueryAccountedFor(cr, id, Front(xs), t);
      ReactLedger(Run(cr, id, Front(xs)), cr, id, Last(xs), t);
    }
  }

  /** Even against dishonest peers, every chain handed to a client passed validation for the
      event it asked about, and every order is the comparison of two such chains. */
  lemma {:induction false} EveryAnswerJustified(cr: Crypto, id: NodeId, xs: seq<Input>)
    ensures DiscOk(Trust(cr, id, None), Run(cr, id, xs))
  {
    if xs != [] {
      EveryAnswerJustified(cr, id, Front(xs));
      ReactOk(Trust(cr, id, None), Run(cr, id, Front(xs)), Last(xs));
    }
  }

  /** So a client that asked once hears back at most once, and if it is not waiting any more
      it has heard back. */
  lemma AnsweredExactlyOnce(cr: Crypto, id: NodeId, xs: seq<Input>, t: nat)
    ensures var d := Run(cr, id, xs);
      && (ChainQueries(xs, t) == 1 ==>
           ChainAnswered(d.answers, t) <= 1 && (ChainWaiters(d.chains, t) == 0 <==> ChainAnswered(d.answers, t) == 1))
      && (OrderQueries(xs, t) == 1 ==>
           OrderAnswered(d.answers, t) <= 1 && (OrderWaiters(d.orders, t) == 0 <==> OrderAnswered(d.answers, t) == 1))
  {
    EveryQueryAccountedFor(cr, id, xs, t);
  }
}
