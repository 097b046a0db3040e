/** Over every run in which nothing expires, whatever a client was told still stands: each answer
    agrees with the chain queries as the node holds them, so no two answers about the same events
    disagree. */
module Standing {
  import opened Domain
  import opened Hashing
  import opened Log
  import opened Discovery
  import opened DiscoveryLaws
  import opened Progress
  import Answers
  import ChainBuild
  import Validate

  /** An answer agrees with the chain queries: what was handed out is what they hold, and a
      failure was reported exactly for a query that has failed. */
  ghost predicate Right(cs: seq<ChainEntry>, a: Answer) {
    match a
    case ChainDone(_, event, ch) => Completes(cs, event.hash) && Look(cs, event.hash).value.chain == ch
    case ChainFailed(_, event) => Aborts(cs, event.hash)
    case BoundsDone(_, event, lower, upper) => Completes(cs, event.hash) && Ends(Look(cs, event.hash).value.chain, lower, upper)
    case BoundsFailed(_, event) => Aborts(cs, event.hash)
    case OrderDone(_, event1, event2, order) =>
      && Completes(cs, event1.hash) && Completes(cs, event2.hash)
      && order == Compared(Look(cs, event1.hash).value.chain, Look(cs, event2.hash).value.chain)
    case OrderFailed(_, event1, event2) => Aborts(cs, event1.hash) || Aborts(cs, event2.hash)
  }

  ghost predicate AllRight(cs: seq<ChainEntry>, s: seq<Answer>) {
    forall a :: a in s ==> Right(cs, a)
  }

  /** Chain queries that have settled stay as they are. */
  ghost predicate Settled(cs: seq<ChainEntry>, cs': seq<ChainEntry>) {
    forall h :: (Completes(cs, h) || Aborts(cs, h)) ==> Look(cs', h) == Look(cs, h)
  }

  lemma RightStays(cs: seq<ChainEntry>, cs': seq<ChainEntry>, s: seq<Answer>)
    requires AllRight(cs, s) && Settled(cs, cs')
    ensures AllRight(cs', s)
  {
    hide Look, Compared, Ends;
    forall a | a in s
      ensures Right(cs', a)
    {
      assert Right(cs, a);
    }
  }

  // ---------------------------------------------------------------------------
  // the node's own reactions
  // ---------------------------------------------------------------------------

  lemma {:induction false} BoundsAnswersRight(cs: seq<ChainEntry>, toks: seq<nat>, b: BoundsEntry)
    requires forall tok :: Right(cs, Answers.BoundsWord(b, tok))
    ensures AllRight(cs, BoundsAnswers(toks, b.state.Completed?, b))
  {
    hide Right;
    if toks != [] {
      BoundsAnswersRight(cs, Front(toks), b);
      assert Right(cs, Answers.BoundsWord(b, Last(toks)));
    }
  }

  lemma {:induction false} OrderAnswersRight(cs: seq<ChainEntry>, toks: seq<nat>, o: OrderEntry)
    requires forall tok :: Right(cs, Answers.OrderWord(o, tok))
    ensures AllRight(cs, OrderAnswers(toks, o.state.Completed?, o))
  {
    hide Right;
    if toks != [] {
      OrderAnswersRight(cs, Front(toks), o);
      assert Right(cs, Answers.OrderWord(o, Last(toks)));
    }
  }

  lemma CompleteBoundsRight(d: Disc, ch: EventChain)
    requires AllRight(d.chains, d.answers) && Answers.Holds(d.chains, ch)
    ensures AllRight(d.chains, CompleteBounds(d, ch).answers)
  {
    hide Look;
    var i := BoundsAt(d.bounds, ch.event.hash);
    if i >= 0 && d.bounds[i].state.InProgress? && Bounded(ch) {
      var b := d.bounds[i].(lower := ch.lower[0].timestamp, upper := Last(ch.upper).timestamp, state := Completed);
      BoundsAnswersRight(d.chains, b.waiters, b);
    }
  }

  lemma OfferedRight(d: Disc, i: nat, ch: EventChain)
    requires AllRight(d.chains, d.answers) && Answers.Holds(d.chains, ch) && i < |d.orders|
    ensures AllRight(d.chains, Offered(d, i, ch).answers)
  {
    hide Look, Decided, Compared;
    DecidedIsExact(d, d.orders[i], ch);
    var o := Decided(d, d.orders[i], ch);
    if o.state != d.orders[i].state {
      OrderAnswersRight(d.chains, o.waiters, o);
    }
  }

  lemma {:induction false} CompleteOrdersRight(d: Disc, ch: EventChain, k: nat)
    requires AllRight(d.chains, d.answers) && Answers.Holds(d.chains, ch) && k <= |d.orders|
    ensures AllRight(d.chains, CompleteOrders(d, ch, k).answers)
  {
    hide AllRight, Offered;
    if k > 0 {
      CompleteOrdersRight(d, ch, k - 1);
      OfferedRight(CompleteOrders(d, ch, k - 1), k - 1, ch);
    }
  }

  lemma CompletedRight(d: Disc, ch: EventChain)
    requires AllRight(d.chains, d.answers) && Answers.Holds(d.chains, ch)
    ensures AllRight(d.chains, OnChainCompleted(d, ch).answers)
  {
    hide AllRight, CompleteOrders, Answers.Holds;
    CompleteBoundsRight(d, ch);
    BoundsOnly(d, ch);
    var d1 := CompleteBounds(d, ch);
    CompleteOrdersRight(d1, ch, |d1.orders|);
  }

  lemma {:induction false} AbortOrdersRight(d: Disc, h: Hash, k: nat)
    requires AllRight(d.chains, d.answers) && Aborts(d.chains, h) && k <= |d.orders|
    ensures AllRight(d.chains, AbortOrders(d, h, k).answers)
  {
    hide Look, Aborts;
    if k > 0 {
      AbortOrdersRight(d, h, k - 1);
      var d1 := AbortOrders(d, h, k - 1);
      var o := d1.orders[k - 1].(state := Aborted);
      if o.event1.hash == h || o.event2.hash == h {
        OrderAnswersRight(d.chains, o.waiters, o);
      }
    }
  }

  lemma AbortedRight(d: Disc, event: Event)
    requires AllRight(d.chains, d.answers) && Aborts(d.chains, event.hash)
    ensures AllRight(d.chains, OnChainAborted(d, event).answers)
  {
    hide AbortOrders, Aborts;
    var h := event.hash;
    var i := BoundsAt(d.bounds, h);
    if i >= 0 {
      var b := d.bounds[i].(state := Aborted);
      BoundsAnswersRight(d.chains, b.waiters, b);
    }
    var d1 := AbortBounds(d, h);
    AbortOrdersRight(d1, h, |d1.orders|);
  }

  lemma {:induction false} TellAllDoneRight(d: Disc, ws: seq<Waiter>, event: Event, ch: EventChain)
    requires AllRight(d.chains, d.answers) && Answers.Holds(d.chains, ch) && event.hash == ch.event.hash
    ensures AllRight(d.chains, TellAllDone(d, ws, event, ch).answers)
  {
    hide Look, OnChainCompleted;
    if ws != [] {
      TellAllDoneRight(d, Front(ws), event, ch);
      if Last(ws).Node? {
        CompletedRight(TellAllDone(d, Front(ws), event, ch), ch);
      }
    }
  }

  lemma {:induction false} TellAllFailedRight(d: Disc, ws: seq<Waiter>, event: Event)
    requires AllRight(d.chains, d.answers) && Aborts(d.chains, event.hash)
    ensures AllRight(d.chains, TellAllFailed(d, ws, event).answers)
  {
    hide Aborts, OnChainAborted;
    if ws != [] {
      TellAllFailedRight(d, Front(ws), event);
      if Last(ws).Node? {
        AbortedRight(TellAllFailed(d, Front(ws), event), event);
      }
    }
  }

  // ---------------------------------------------------------------------------
  // the entry points
  // ---------------------------------------------------------------------------

  lemma ReplacedSettled(cs: seq<ChainEntry>, i: nat, e: ChainEntry)
    requires i < |cs| && i == ChainAt(cs, e.event.hash) && cs[i].state.InProgress?
    ensures Settled(cs, cs[i := e]) && Look(cs[i := e], e.event.hash) == Some(e)
  {
    hide Look;
    LookAt(cs, i, e.event.hash);
    forall h
      ensures Look(cs[i := e], h) == if h == e.event.hash then Some(e) else Look(cs, h)
    {
      LookUpdated(cs, i, e, h);
    }
  }

  lemma AppendedSettled(cs: seq<ChainEntry>, e: ChainEntry)
    requires ChainAt(cs, e.event.hash) < 0
    ensures Settled(cs, cs + [e]) && ChainAt(cs + [e], e.event.hash) == |cs|
  {
    hide Look;
    LookNone(cs, e.event.hash);
    forall h
      ensures Look(cs + [e], h) == if h == e.event.hash then Some(e) else Look(cs, h)
    {
      LookAppended(cs, e, h);
    }
  }

  lemma ConcludeRight(d: Disc, i: nat, ch: EventChain, attached: bool, cr: Crypto, id: NodeId)
    requires AllRight(d.chains, d.answers) && i < |d.chains| && i == ChainAt(d.chains, ch.event.hash) && d.chains[i].state.InProgress?
    ensures var r := Conclude(d, i, ch, attached, cr, id); AllRight(r.chains, r.answers)
  {
    hide AllRight, TellAllDone, TellAllFailed, Look, Validate.Sound;
    var state := if attached && Validate.Sound(cr, ch, id) then Completed else Aborted;
    var e := d.chains[i].(chain := ch, state := state);
    var d1 := d.(chains := d.chains[i := e]);
    assert d.chains[i := d.chains[i].(chain := ch)][i := e] == d1.chains;
    ReplacedSettled(d.chains, i, e);
    RightStays(d.chains, d1.chains, d.answers);
    if state.Completed? {
      TellAllDoneRight(d1, e.waiters, e.event, ch);
    } else {
      TellAllFailedRight(d1, e.waiters, e.event);
    }
  }

  lemma JoinRight(d: Disc, i: nat, event: Event, w: Waiter)
    requires AllRight(d.chains, d.answers) && i < |d.chains| && i == ChainAt(d.chains, event.hash) && ChainFine(d.chains[i])
    ensures var r := Join(d, i, event, w); AllRight(r.chains, r.answers)
  {
    hide AllRight, TellDone, TellFailed, Look;
    LookAt(d.chains, i, event.hash);
    var e := d.chains[i];
    match e.state {
      case InProgress =>
        var e1 := e.(waiters := e.waiters + [w]);
        ReplacedSettled(d.chains, i, e1);
        RightStays(d.chains, d.chains[i := e1], d.answers);
      case Aborted =>
        TellOneFailed(d, w, event);
        TellAllFailedRight(d, [w], event);
      case Completed =>
        TellOneDone(d, w, event, e.chain);
        TellAllDoneRight(d, [w], event, e.chain);
    }
  }

  lemma TellOneDone(d: Disc, w: Waiter, event: Event, ch: EventChain)
    ensures TellAllDone(d, [w], event, ch) == TellDone(d, w, event, ch)
  {
    hide TellDone;
    assert Front([w]) == [];
  }

  lemma TellOneFailed(d: Disc, w: Waiter, event: Event)
    ensures TellAllFailed(d, [w], event) == TellFailed(d, w, event)
  {
    hide TellFailed;
    assert Front([w]) == [];
  }

  lemma AskChainRight(d: Disc, cr: Crypto, id: NodeId, live: seq<Entry>, event: Event, range: TimeRange, w: Waiter, now: Timestamp, u: Pending)
    requires AllRight(d.chains, d.answers) && InStep(d, u)
    ensures var r := AskChain(d, cr, id, live, event, range, w, now); AllRight(r.chains, r.answers)
  {
    hide AllRight, Join, Conclude, InStep;
    var i := ChainAt(d.chains, event.hash);
    if i >= 0 {
      ChainIsFine(d, i, u);
      JoinRight(d, i, event, w);
    } else {
      var e := NewChain(event, range, w, now);
      AppendedSettled(d.chains, e);
      RightStays(d.chains, d.chains + [e], d.answers);
      if event.creator == id {
        var d1 := d.(chains := d.chains + [e]);
        var (ch, attached) := ChainBuild.Enclose(live, id, EventChain(event, [], []));
        EncloseSameEvent(live, id, EventChain(event, [], []));
        ConcludeRight(d1, |d.chains|, ch, attached, cr, id);
      }
    }
  }

  lemma AskBoundsRight(d: Disc, cr: Crypto, id: NodeId, live: seq<Entry>, event: Event, range: TimeRange, tok: nat, now: Timestamp)
    requires AllRight(d.chains, d.answers) && InStep(d, {})
    ensures var r := AskBounds(d, cr, id, live, event, range, tok, now); AllRight(r.chains, r.answers)
  {
    hide AskChain, InStep, Look;
    var i := BoundsAt(d.bounds, event.hash);
    if i >= 0 {
      BoundsOf(d, i);
    } else {
      var b := BoundsEntry(now, event, 0, 0, InProgress, [tok]);
      NewBoundsInStep(d, b);
      AskChainRight(d.(bounds := d.bounds + [b]), cr, id, live, event, range, Node, now, {event.hash});
    }
  }

  lemma BoundsOf(d: Disc, i: nat)
    requires InStep(d, {}) && i < |d.bounds|
    ensures BoundsInStep(d.chains, {}, d.bounds[i])
  {
    assert BoundsFine(d.chains, {}, d.bounds[i]);
  }

  lemma OrderOf(d: Disc, i: nat)
    requires InStep(d, {}) && i < |d.orders|
    ensures OrderInStep(d.chains, {}, d.orders[i])
  {
    assert OrderFine(d.chains, {}, d.orders[i]);
  }

  lemma AskOrderRight(d: Disc, cr: Crypto, id: NodeId, live: seq<Entry>, event1: Event, event2: Event, range: TimeRange, tok: nat, now: Timestamp)
    requires AllRight(d.chains, d.answers) && InStep(d, {})
    ensures var r := AskOrder(d, cr, id, live, event1, event2, range, tok, now); AllRight(r.chains, r.answers)
  {
    hide AskChain, InStep, Look, Compared;
    var i := OrderAt(d.orders, event1.hash, event2.hash);
    if i >= 0 {
      OrderOf(d, i);
    } else {
      var o := OrderEntry(now, event1, event2, Undetermined, InProgress, [tok]);
      var d1 := d.(orders := d.orders + [o]);
      var u := {event1.hash, event2.hash};
      NewOrderInStep(d, o);
      AskChainRight(d1, cr, id, live, event1, range, Node, now, u);
      AskChainInStep(d1, cr, id, live, event1, range, Node, now, u);
      var d2 := AskChain(d1, cr, id, live, event1, range, Node, now);
      AskChainRight(d2, cr, id, live, event2, range, Node, now, Left(u, Node, event1.hash));
    }
  }

  lemma ComeHomeRight(d: Disc, cr: Crypto, id: NodeId, live: seq<Entry>, ch: EventChain)
    requires AllRight(d.chains, d.answers)
    ensures var r := ComeHome(d, cr, id, live, ch); AllRight(r.chains, r.answers)
  {
    hide AllRight, Conclude;
    var i := ChainAt(d.chains, ch.event.hash);
    if i >= 0 && d.chains[i].state.InProgress? {
      var (r, attached) := ChainBuild.Enclose(live, id, ch);
      EncloseSameEvent(live, id, ch);
      ConcludeRight(d, i, r, attached, cr, id);
    }
  }

  lemma ReactRight(d: Disc, cr: Crypto, id: NodeId, x: Input)
    requires AllRight(d.chains, d.answers) && InStep(d, {}) && !x.Expire?
    ensures var r := React(d, cr, id, x); AllRight(r.chains, r.answers)
  {
    hide AllRight, InStep, AskChain, AskBounds, AskOrder, ComeHome;
    match x
    case ForChain(event, range, tok, now, live) => AskChainRight(d, cr, id, live, event, range, Client(tok), now, {});
    case ForBounds(event, range, tok, now, live) => AskBoundsRight(d, cr, id, live, event, range, tok, now);
    case ForOrder(event1, event2, range, tok, now, live) => AskOrderRight(d, cr, id, live, event1, event2, range, tok, now);
    case Response(ch, live) => ComeHomeRight(d, cr, id, live, ch);
  }

  // ---------------------------------------------------------------------------
  // whole runs
  // ---------------------------------------------------------------------------

  /** Over every run in which nothing expires, every answer ever given agrees with the chain
      queries as they now stand. */
  lemma {:induction false} EveryAnswerStands(cr: Crypto, id: NodeId, xs: seq<Input>)
    requires NothingExpires(xs)
    ensures var d := Run(cr, id, xs); AllRight(d.chains, d.answers)
  {
    hide InStep, React, Right;
    if xs != [] {
      assert xs == Front(xs) + [Last(xs)];
      EveryAnswerStands(cr, id, Front(xs));
      QueriesInStep(cr, id, Front(xs));
      ReactRight(Run(cr, id, Front(xs)), cr, id, Last(xs));
    }
  }

  /** So two clients told about the same two events were told the same. */
  lemma AnswersAgree(cr: Crypto, id: NodeId, xs: seq<Input>, a: Answer, b: Answer)
    requires NothingExpires(xs) && a in Run(cr, id, xs).answers && b in Run(cr, id, xs).answers
    requires (a.OrderDone? || a.OrderFailed?) && (b.OrderDone? || b.OrderFailed?)
    requires a.event1.hash == b.event1.hash && a.event2.hash == b.event2.hash
    ensures a.OrderDone? == b.OrderDone?
    ensures a.OrderDone? ==> a.order == b.order
  {
    hide Run, Look, Compared;
    var d := Run(cr, id, xs);
    EveryAnswerStands(cr, id, xs);
    assert Right(d.chains, a) && Right(d.chains, b);
  }
}
