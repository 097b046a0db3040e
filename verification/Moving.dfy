/** Over every run, expiry included, no query is left behind: a bounds query in progress is one
    whose chain query is in progress with the node waiting on it, and an order query in progress
    is never one both of whose chains the node waited on and got. */
module Moving {
  import opened Domain
  import opened Hashing
  import opened Log
  import opened Discovery
  import opened DiscoveryLaws
  import opened Progress
  import ChainBuild
  import Validate

  ghost predicate OneChain(cs: seq<ChainEntry>) {
    forall i, j :: 0 <= i < j < |cs| ==> cs[i].event.hash != cs[j].event.hash
  }

  ghost predicate OneEach(os: seq<OrderEntry>) {
    forall i, j :: 0 <= i < j < |os| ==> os[i].event1.hash != os[j].event1.hash || os[i].event2.hash != os[j].event2.hash
  }

  ghost predicate SameEvents(os: seq<OrderEntry>, os': seq<OrderEntry>) {
    |os'| == |os| && forall i :: 0 <= i < |os| ==> os'[i].event1 == os[i].event1 && os'[i].event2 == os[i].event2
  }

  lemma OneEachStays(os: seq<OrderEntry>, os': seq<OrderEntry>)
    requires OneEach(os) && SameEvents(os, os')
    ensures OneEach(os')
  {
  }

  /** The chain query completed, and the node was waiting on it. */
  ghost predicate Got(cs: seq<ChainEntry>, u: Pending, h: Hash) {
    Done(cs, u, h) && Node in Look(cs, h).value.waiters
  }

  ghost predicate BoundsMoves(cs: seq<ChainEntry>, u: Pending, b: BoundsEntry) {
    b.state.InProgress? ==> Underway(cs, u, b.event.hash)
  }

  ghost predicate OrderMoves(cs: seq<ChainEntry>, u: Pending, o: OrderEntry) {
    o.state.InProgress? ==> !(Got(cs, u, o.event1.hash) && Got(cs, u, o.event2.hash))
  }

  ghost predicate AllMoving(d: Disc, u: Pending) {
    && OneChain(d.chains) && OneBounds(d.bounds) && OneEach(d.orders)
    && (forall e :: e in d.chains ==> ChainFine(e))
    && (forall b :: b in d.bounds ==> BoundsMoves(d.chains, u, b))
    && (forall o :: o in d.orders ==> OrderMoves(d.chains, u, o))
  }

  // ---------------------------------------------------------------------------
  // telling the node
  // ---------------------------------------------------------------------------

  lemma DecidedMoves(d: Disc, o: OrderEntry, ch: EventChain, u: Pending)
    requires Look(d.chains, ch.event.hash).Some? && Look(d.chains, ch.event.hash).value.chain == ch && Completes(d.chains, ch.event.hash)
    requires OrderMoves(d.chains, u, o)
    ensures OrderMoves(d.chains, u - {ch.event.hash}, Decided(d, o, ch))
    ensures Decided(d, o, ch).event1 == o.event1 && Decided(d, o, ch).event2 == o.event2
  {
    hide Decided;
    DecidedIsExact(d, o, ch);
  }

  lemma BoundsCompleteMoves(d: Disc, ch: EventChain, u: Pending)
    requires AllMoving(d, u)
    requires Look(d.chains, ch.event.hash).Some? && Look(d.chains, ch.event.hash).value.chain == ch && Completes(d.chains, ch.event.hash)
    ensures var r := CompleteBounds(d, ch); OneBounds(r.bounds) && forall b :: b in r.bounds ==> BoundsMoves(d.chains, u - {ch.event.hash}, b)
  {
    var h, r := ch.event.hash, CompleteBounds(d, ch);
    assert Bounded(ch) by {
      assert ChainFine(Look(d.chains, h).value);
    }
    var i := BoundsAt(d.bounds, h);
    forall b | b in r.bounds
      ensures BoundsMoves(d.chains, u - {h}, b)
    {
      var j :| 0 <= j < |r.bounds| && r.bounds[j] == b;
      assert BoundsMoves(d.chains, u, d.bounds[j]);
      if j != i && i >= 0 {
        assert d.bounds[j].event.hash != h;
      }
    }
  }

  lemma CompletedMoves(d: Disc, ch: EventChain, u: Pending)
    requires AllMoving(d, u)
    requires Look(d.chains, ch.event.hash).Some? && Look(d.chains, ch.event.hash).value.chain == ch && Completes(d.chains, ch.event.hash)
    ensures AllMoving(OnChainCompleted(d, ch), u - {ch.event.hash})
  {
    hide OrderMoves, BoundsMoves, ChainFine, CompleteBounds, CompleteOrders, Decided, OneEach;
    BoundsCompleteMoves(d, ch, u);
    BoundsOnly(d, ch);
    var d1 := CompleteBounds(d, ch);
    CompleteOrdersPointwise(d1, ch, |d1.orders|);
    var r := OnChainCompleted(d, ch);
    forall j | 0 <= j < |r.orders|
      ensures OrderMoves(r.chains, u - {ch.event.hash}, r.orders[j])
      ensures r.orders[j].event1 == d.orders[j].event1 && r.orders[j].event2 == d.orders[j].event2
    {
      assert d1.orders[j] in d1.orders;
      DecidedMoves(d1, d1.orders[j], ch, u);
    }
    OneEachStays(d.orders, r.orders);
  }

  lemma AbortedMoves(d: Disc, event: Event, u: Pending)
    requires AllMoving(d, u) && Aborts(d.chains, event.hash)
    ensures AllMoving(OnChainAborted(d, event), u - {event.hash})
  {
    hide ChainFine, AbortOrders, OneEach;
    var h := event.hash;
    var d1 := AbortBounds(d, h);
    AbortOrdersPointwise(d1, h, |d1.orders|);
    var r := OnChainAborted(d, event);
    forall o | o in r.orders
      ensures OrderMoves(r.chains, u - {h}, o)
    {
      var j :| 0 <= j < |r.orders| && r.orders[j] == o;
      assert d1.orders[j] in d1.orders;
    }
    OneEachStays(d.orders, r.orders);
    BoundsAbortMoves(d, h, u);
  }

  lemma BoundsAbortMoves(d: Disc, h: Hash, u: Pending)
    requires AllMoving(d, u) && Aborts(d.chains, h)
    ensures var r := AbortBounds(d, h); OneBounds(r.bounds) && forall b :: b in r.bounds ==> BoundsMoves(d.chains, u - {h}, b)
  {
    var r := AbortBounds(d, h);
    var i := BoundsAt(d.bounds, h);
    forall b | b in r.bounds
      ensures BoundsMoves(d.chains, u - {h}, b)
    {
      var j :| 0 <= j < |r.bounds| && r.bounds[j] == b;
      assert BoundsMoves(d.chains, u, d.bounds[j]);
      if j != i && i >= 0 {
        assert d.bounds[j].event.hash != h;
      }
    }
  }

  lemma MovingAnswers(d: Disc, u: Pending, answers: seq<Answer>)
    requires AllMoving(d, u)
    ensures AllMoving(d.(answers := answers), u)
  {
  }

  lemma TellDoneMoves(d: Disc, w: Waiter, event: Event, ch: EventChain, u: Pending)
    requires AllMoving(d, u)
    requires Look(d.chains, ch.event.hash).Some? && Look(d.chains, ch.event.hash).value.chain == ch && Completes(d.chains, ch.event.hash)
    ensures AllMoving(TellDone(d, w, event, ch), Left(u, w, ch.event.hash))
  {
    hide AllMoving, OnChainCompleted;
    match w
    case Node => CompletedMoves(d, ch, u);
    case Client(tok) => MovingAnswers(d, u, d.answers + [ChainDone(tok, event, ch)]);
  }

  lemma TellFailedMoves(d: Disc, w: Waiter, event: Event, u: Pending)
    requires AllMoving(d, u) && Aborts(d.chains, event.hash)
    ensures AllMoving(TellFailed(d, w, event), Left(u, w, event.hash))
  {
    hide AllMoving, OnChainAborted;
    match w
    case Node => AbortedMoves(d, event, u);
    case Client(tok) => MovingAnswers(d, u, d.answers + [ChainFailed(tok, event)]);
  }

  lemma {:induction false} TellAllDoneMoves(d: Disc, ws: seq<Waiter>, event: Event, ch: EventChain, u: Pending)
    requires AllMoving(d, u)
    requires Look(d.chains, ch.event.hash).Some? && Look(d.chains, ch.event.hash).value.chain == ch && Completes(d.chains, ch.event.hash)
    ensures AllMoving(TellAllDone(d, ws, event, ch), LeftAll(u, ws, ch.event.hash))
  {
    hide AllMoving, TellDone;
    if ws != [] {
      TellAllDoneMoves(d, Front(ws), event, ch, u);
      LeftMore(u, ws, ch.event.hash);
      TellDoneMoves(TellAllDone(d, Front(ws), event, ch), Last(ws), event, ch, LeftAll(u, Front(ws), ch.event.hash));
    }
  }

  lemma {:induction false} TellAllFailedMoves(d: Disc, ws: seq<Waiter>, event: Event, u: Pending)
    requires AllMoving(d, u) && Aborts(d.chains, event.hash)
    ensures AllMoving(TellAllFailed(d, ws, event), LeftAll(u, ws, event.hash))
  {
    hide AllMoving, TellFailed;
    if ws != [] {
      TellAllFailedMoves(d, Front(ws), event, u);
      LeftMore(u, ws, event.hash);
      TellFailedMoves(TellAllFailed(d, Front(ws), event), Last(ws), event, LeftAll(u, Front(ws), event.hash));
    }
  }

  // ---------------------------------------------------------------------------
  // chain queries settle
  // ---------------------------------------------------------------------------

  /** One chain entry in progress is replaced by one of the same event. */
  lemma Replaced(d: Disc, i: nat, e: ChainEntry, u: Pending)
    requires AllMoving(d, u) && i < |d.chains| && i == ChainAt(d.chains, e.event.hash) && d.chains[i].state.InProgress? && ChainFine(e)
    requires forall w :: w in d.chains[i].waiters ==> w in e.waiters
    ensures var d1 := d.(chains := d.chains[i := e]);
      && Look(d1.chains, e.event.hash) == Some(e) && ChainAt(d1.chains, e.event.hash) == i
      && AllMoving(d1, u + {e.event.hash})
      && (Node !in e.waiters ==> AllMoving(d1, u))
      && (e.state.InProgress? ==> AllMoving(d1, u) && (Node in e.waiters ==> AllMoving(d1, u - {e.event.hash})))
  {
    hide Look;
    var h, d1 := e.event.hash, d.(chains := d.chains[i := e]);
    LookAt(d.chains, i, h);
    SameIndex(d.chains, i, e);
    forall g
      ensures Look(d1.chains, g) == if g == h then Some(e) else Look(d.chains, g)
    {
      LookUpdated(d.chains, i, e, g);
    }
  }

  lemma SettleMoves(d: Disc, i: nat, u: Pending, state: State)
    requires AllMoving(d, u) && i < |d.chains| && i == ChainAt(d.chains, d.chains[i].event.hash) && d.chains[i].state.InProgress?
    requires state.Completed? ==> Bounded(d.chains[i].chain)
    requires !state.InProgress?
    ensures var e := d.chains[i].(state := state); var d1 := d.(chains := d.chains[i := e]);
      AllMoving(if state.Completed? then TellAllDone(d1, e.waiters, e.event, e.chain) else TellAllFailed(d1, e.waiters, e.event),
                LeftAll(u, e.waiters, e.event.hash))
  {
    hide TellAllFailed, TellAllDone, LeftAll, BoundsMoves, OrderMoves;
    assert d.chains[i] in d.chains;
    var e := d.chains[i].(state := state);
    var h, ws := e.event.hash, e.waiters;
    assert ChainFine(e) by {
      assert ChainFine(d.chains[i]);
    }
    Replaced(d, i, e, u);
    Unpended(u, ws, h);
    var d1 := d.(chains := d.chains[i := e]);
    var v := if Node in ws then u + {h} else u;
    if state.Completed? {
      TellAllDoneMoves(d1, ws, e.event, e.chain, v);
    } else {
      TellAllFailedMoves(d1, ws, e.event, v);
    }
    if Node in ws {
      LeftIs(u, ws, h);
    }
  }

  lemma ConcludeMoves(d: Disc, i: nat, ch: EventChain, attached: bool, cr: Crypto, id: NodeId, u: Pending)
    requires AllMoving(d, u) && i < |d.chains| && i == ChainAt(d.chains, d.chains[i].event.hash) && d.chains[i].state.InProgress?
    requires ch.event.hash == d.chains[i].event.hash
    ensures AllMoving(Conclude(d, i, ch, attached, cr, id), LeftAll(u, d.chains[i].waiters, d.chains[i].event.hash))
  {
    hide AllMoving, TellAllDone, TellAllFailed, LeftAll;
    var e := d.chains[i].(chain := ch);
    var d1 := d.(chains := d.chains[i := e]);
    Replaced(d, i, e, u);
    if attached && Validate.Sound(cr, ch, id) {
      SettleMoves(d1, i, u, Completed);
    } else {
      SettleMoves(d1, i, u, Aborted);
    }
  }

  // ---------------------------------------------------------------------------
  // the entry points
  // ---------------------------------------------------------------------------

  lemma JoinMoves(d: Disc, i: nat, event: Event, w: Waiter, u: Pending)
    requires AllMoving(d, u) && i < |d.chains| && i == ChainAt(d.chains, event.hash)
    ensures AllMoving(Join(d, i, event, w), Left(u, w, event.hash))
  {
    hide TellDone, TellFailed, BoundsMoves, OrderMoves;
    LookAt(d.chains, i, event.hash);
    var e := d.chains[i];
    assert ChainFine(e);
    match e.state {
      case InProgress => Replaced(d, i, e.(waiters := e.waiters + [w]), u);
      case Aborted => TellFailedMoves(d, w, event, u);
      case Completed => TellDoneMoves(d, w, event, e.chain, u);
    }
  }

  lemma NewChainMoves(d: Disc, e: ChainEntry, w: Waiter, u: Pending)
    requires AllMoving(d, u) && ChainAt(d.chains, e.event.hash) < 0 && ChainFine(e) && e.state.InProgress? && e.waiters == [w]
    ensures var d1 := d.(chains := d.chains + [e]);
      AllMoving(d1, Left(u, w, e.event.hash)) && ChainAt(d1.chains, e.event.hash) == |d.chains|
  {
    hide Look;
    var h, d1 := e.event.hash, d.(chains := d.chains + [e]);
    LookNone(d.chains, h);
    forall g
      ensures Look(d1.chains, g) == if g == h then Some(e) else Look(d.chains, g)
    {
      LookAppended(d.chains, e, g);
    }
    forall i, j | 0 <= i < j < |d1.chains|
      ensures d1.chains[i].event.hash != d1.chains[j].event.hash
    {
      assert d1.chains[i] in d.chains;
    }
  }

  lemma AskChainMoves(d: Disc, cr: Crypto, id: NodeId, live: seq<Entry>, event: Event, range: TimeRange, w: Waiter, now: Timestamp, u: Pending)
    requires AllMoving(d, u)
    ensures AllMoving(AskChain(d, cr, id, live, event, range, w, now), Left(u, w, event.hash))
  {
    hide AllMoving, Join, Conclude;
    var i := ChainAt(d.chains, event.hash);
    if i >= 0 {
      JoinMoves(d, i, event, w, u);
    } else {
      var e := NewChain(event, range, w, now);
      NewChainMoves(d, e, w, u);
      if event.creator == id {
        var d1 := d.(chains := d.chains + [e]);
        var (ch, attached) := ChainBuild.Enclose(live, id, EventChain(event, [], []));
        EncloseSameEvent(live, id, EventChain(event, [], []));
        ConcludeMoves(d1, |d.chains|, ch, attached, cr, id, Left(u, w, event.hash));
        assert LeftAll(Left(u, w, event.hash), [w], event.hash) == Left(u, w, event.hash);
      }
    }
  }

  lemma NewBoundsMoves(d: Disc, b: BoundsEntry)
    requires AllMoving(d, {}) && BoundsAt(d.bounds, b.event.hash) < 0
    ensures AllMoving(d.(bounds := d.bounds + [b]), {b.event.hash})
  {
    forall i, j | 0 <= i < j < |d.bounds + [b]|
      ensures (d.bounds + [b])[i].event.hash != (d.bounds + [b])[j].event.hash
    {
      assert (d.bounds + [b])[i] in d.bounds;
    }
  }

  lemma JoinBoundsMoves(d: Disc, i: nat, tok: nat)
    requires AllMoving(d, {}) && i < |d.bounds|
    ensures AllMoving(d.(bounds := d.bounds[i := d.bounds[i].(waiters := d.bounds[i].waiters + [tok])]), {})
  {
    var bs := d.bounds[i := d.bounds[i].(waiters := d.bounds[i].waiters + [tok])];
    forall b | b in bs
      ensures BoundsMoves(d.chains, {}, b)
    {
      var j :| 0 <= j < |bs| && bs[j] == b;
      assert BoundsMoves(d.chains, {}, d.bounds[j]);
    }
  }

  lemma AskBoundsMoves(d: Disc, cr: Crypto, id: NodeId, live: seq<Entry>, event: Event, range: TimeRange, tok: nat, now: Timestamp)
    requires AllMoving(d, {})
    ensures AllMoving(AskBounds(d, cr, id, live, event, range, tok, now), {})
  {
    hide AllMoving, AskChain;
    var i := BoundsAt(d.bounds, event.hash);
    if i >= 0 {
      JoinBoundsMoves(d, i, tok);
      MovingAnswers(d, {}, AskBounds(d, cr, id, live, event, range, tok, now).answers);
    } else {
      var b := BoundsEntry(now, event, 0, 0, InProgress, [tok]);
      NewBoundsMoves(d, b);
      AskChainMoves(d.(bounds := d.bounds + [b]), cr, id, live, event, range, Node, now, {event.hash});
      assert Left({event.hash}, Node, event.hash) == {};
    }
  }

  lemma NewOrderMoves(d: Disc, o: OrderEntry)
    requires AllMoving(d, {}) && OrderAt(d.orders, o.event1.hash, o.event2.hash) < 0
    ensures AllMoving(d.(orders := d.orders + [o]), {o.event1.hash, o.event2.hash})
  {
    forall i, j | 0 <= i < j < |d.orders + [o]|
      ensures (d.orders + [o])[i].event1.hash != (d.orders + [o])[j].event1.hash || (d.orders + [o])[i].event2.hash != (d.orders + [o])[j].event2.hash
    {
      assert (d.orders + [o])[i] in d.orders;
    }
  }

  lemma JoinOrderMoves(d: Disc, i: nat, tok: nat)
    requires AllMoving(d, {}) && i < |d.orders|
    ensures AllMoving(d.(orders := d.orders[i := d.orders[i].(waiters := d.orders[i].waiters + [tok])]), {})
  {
    var os := d.orders[i := d.orders[i].(waiters := d.orders[i].waiters + [tok])];
    forall o | o in os
      ensures OrderMoves(d.chains, {}, o)
    {
      var j :| 0 <= j < |os| && os[j] == o;
      assert OrderMoves(d.chains, {}, d.orders[j]);
    }
    OneEachStays(d.orders, os);
  }

  lemma AskOrderMoves(d: Disc, cr: Crypto, id: NodeId, live: seq<Entry>, event1: Event, event2: Event, range: TimeRange, tok: nat, now: Timestamp)
    requires AllMoving(d, {})
    ensures AllMoving(AskOrder(d, cr, id, live, event1, event2, range, tok, now), {})
  {
    hide AllMoving, AskChain;
    var i := OrderAt(d.orders, event1.hash, event2.hash);
    if i >= 0 {
      JoinOrderMoves(d, i, tok);
      MovingAnswers(d, {}, AskOrder(d, cr, id, live, event1, event2, range, tok, now).answers);
    } else {
      var o := OrderEntry(now, event1, event2, Undetermined, InProgress, [tok]);
      var d1 := d.(orders := d.orders + [o]);
      NewOrderMoves(d, o);
      AskChainMoves(d1, cr, id, live, event1, range, Node, now, {event1.hash, event2.hash});
      var d2 := AskChain(d1, cr, id, live, event1, range, Node, now);
      AskChainMoves(d2, cr, id, live, event2, range, Node, now, {event1.hash, event2.hash} - {event1.hash});
      assert {event1.hash, event2.hash} - {event1.hash} - {event2.hash} == {};
    }
  }

  lemma ComeHomeMoves(d: Disc, cr: Crypto, id: NodeId, live: seq<Entry>, ch: EventChain)
    requires AllMoving(d, {})
    ensures AllMoving(ComeHome(d, cr, id, live, ch), {})
  {
    hide AllMoving, Conclude;
    var i := ChainAt(d.chains, ch.event.hash);
    if i >= 0 && d.chains[i].state.InProgress? {
      var (r, attached) := ChainBuild.Enclose(live, id, ch);
      EncloseSameEvent(live, id, ch);
      ConcludeMoves(d, i, r, attached, cr, id, {});
      assert LeftAll({}, d.chains[i].waiters, ch.event.hash) == {};
    }
  }

  // ---------------------------------------------------------------------------
  // expiry
  // ---------------------------------------------------------------------------

  lemma {:induction false} OneIndex(cs: seq<ChainEntry>, i: nat)
    requires OneChain(cs) && i < |cs|
    ensures ChainAt(cs, cs[i].event.hash) == i
  {
    assert Front(cs) + [Last(cs)] == cs;
    if i < |cs| - 1 {
      OneIndex(Front(cs), i);
    }
  }

  lemma RemovedAt(cs: seq<ChainEntry>, i: nat, h: Hash)
    requires OneChain(cs) && i < |cs|
    ensures Look(Remove(cs, i), h) == if h == cs[i].event.hash then None else Look(cs, h)
    ensures OneChain(Remove(cs, i))
  {
    var r := Remove(cs, i);
    forall j | 0 <= j < |r|
      ensures r[j] == if j < i then cs[j] else cs[j + 1]
    {
    }
    if h != cs[i].event.hash && ChainAt(cs, h) >= 0 {
      var k := ChainAt(cs, h);
      assert r[if k < i then k else k - 1] == cs[k];
      OneIndex(r, if k < i then k else k - 1);
    }
  }

  /** A chain entry goes that no bounds query in progress stands on. */
  lemma DropMoves(d: Disc, i: nat)
    requires AllMoving(d, {}) && i < |d.chains| && !d.chains[i].state.InProgress?
    ensures AllMoving(d.(chains := Remove(d.chains, i)), {})
  {
    hide Look;
    var h, cs := d.chains[i].event.hash, Remove(d.chains, i);
    OneIndex(d.chains, i);
    LookAt(d.chains, i, h);
    forall g
      ensures Look(cs, g) == if g == h then None else Look(d.chains, g)
    {
      RemovedAt(d.chains, i, g);
    }
    RemovedAt(d.chains, i, h);
    assert forall e :: e in cs ==> e in d.chains;
  }

  lemma ExpiredMoves(d: Disc, i: nat)
    requires AllMoving(d, {}) && i < |d.chains| && d.chains[i].state.InProgress?
    ensures AllMoving(AbortChain(d, i), {}) && |AbortChain(d, i).chains| == |d.chains| && AbortChain(d, i).chains[i].state.Aborted?
  {
    hide AllMoving, TellAllFailed;
    OnceIndex(d, i);
    SettleMoves(d, i, {}, Aborted);
    assert LeftAll({}, d.chains[i].waiters, d.chains[i].event.hash) == {};
  }

  lemma OnceIndex(d: Disc, i: nat)
    requires AllMoving(d, {}) && i < |d.chains|
    ensures ChainAt(d.chains, d.chains[i].event.hash) == i
  {
    OneIndex(d.chains, i);
  }

  lemma {:induction false} PurgeChainsMoves(d: Disc, i: nat, limit: Timestamp)
    requires AllMoving(d, {}) && i <= |d.chains|
    ensures AllMoving(PurgeChains(d, i, limit), {})
    decreases |d.chains| - i
  {
    hide AllMoving, AbortChain;
    if i < |d.chains| {
      if d.chains[i].start < limit {
        var d1 := if d.chains[i].state.InProgress? then AbortChain(d, i) else d;
        if d.chains[i].state.InProgress? {
          ExpiredMoves(d, i);
        }
        DropMoves(d1, i);
        PurgeChainsMoves(d1.(chains := Remove(d1.chains, i)), i, limit);
      } else {
        PurgeChainsMoves(d, i + 1, limit);
      }
    }
  }

  lemma BoundsGoneMoves(d: Disc, i: nat, answers: seq<Answer>)
    requires AllMoving(d, {}) && i < |d.bounds|
    ensures AllMoving(d.(bounds := Remove(d.bounds, i), answers := answers), {})
  {
    assert forall b :: b in Remove(d.bounds, i) ==> b in d.bounds;
  }

  lemma {:induction false} PurgeBoundsMoves(d: Disc, i: nat, limit: Timestamp)
    requires AllMoving(d, {}) && i <= |d.bounds|
    ensures AllMoving(PurgeBounds(d, i, limit), {})
    decreases |d.bounds| - i
  {
    hide AllMoving;
    if i < |d.bounds| {
      if d.bounds[i].start < limit {
        var d1 := if d.bounds[i].state.InProgress? then SettleBounds(d, i, d.bounds[i].(state := Aborted)) else d;
        assert Remove(d1.bounds, i) == Remove(d.bounds, i);
        BoundsGoneMoves(d, i, d1.answers);
        PurgeBoundsMoves(d1.(bounds := Remove(d1.bounds, i)), i, limit);
      } else {
        PurgeBoundsMoves(d, i + 1, limit);
      }
    }
  }

  lemma OrderGoneMoves(d: Disc, i: nat, answers: seq<Answer>)
    requires AllMoving(d, {}) && i < |d.orders|
    ensures AllMoving(d.(orders := Remove(d.orders, i), answers := answers), {})
  {
    assert forall o :: o in Remove(d.orders, i) ==> o in d.orders;
  }

  lemma {:induction false} PurgeOrdersMoves(d: Disc, i: nat, limit: Timestamp)
    requires AllMoving(d, {}) && i <= |d.orders|
    ensures AllMoving(PurgeOrders(d, i, limit), {})
    decreases |d.orders| - i
  {
    hide AllMoving;
    if i < |d.orders| {
      if d.orders[i].start < limit {
        var d1 := if d.orders[i].state.InProgress? then SettleOrder(d, i, d.orders[i].(state := Aborted)) else d;
        assert Remove(d1.orders, i) == Remove(d.orders, i);
        OrderGoneMoves(d, i, d1.answers);
        PurgeOrdersMoves(d1.(orders := Remove(d1.orders, i)), i, limit);
      } else {
        PurgeOrdersMoves(d, i + 1, limit);
      }
    }
  }

  // ---------------------------------------------------------------------------
  // whole runs
  // ---------------------------------------------------------------------------

  lemma ReactMoves(d: Disc, cr: Crypto, id: NodeId, x: Input)
    requires AllMoving(d, {})
    ensures AllMoving(React(d, cr, id, x), {})
  {
    hide AllMoving, AskChain, AskBounds, AskOrder, ComeHome, PurgeChains, PurgeBounds, PurgeOrders;
    match x
    case ForChain(event, range, tok, now, live) => AskChainMoves(d, cr, id, live, event, range, Client(tok), now, {});
    case ForBounds(event, range, tok, now, live) => AskBoundsMoves(d, cr, id, live, event, range, tok, now);
    case ForOrder(event1, event2, range, tok, now, live) => AskOrderMoves(d, cr, id, live, event1, event2, range, tok, now);
    case Response(ch, live) => ComeHomeMoves(d, cr, id, live, ch);
    case Expire(limit) =>
      PurgeChainsMoves(d, 0, limit);
      PurgeBoundsMoves(PurgeChains(d, 0, limit), 0, limit);
      PurgeOrdersMoves(PurgeBounds(PurgeChains(d, 0, limit), 0, limit), 0, limit);
  }

  lemma IdleMoves()
    ensures AllMoving(IDLE, {})
  {
  }

  lemma {:induction false} RunMoves(cr: Crypto, id: NodeId, xs: seq<Input>)
    ensures AllMoving(Run(cr, id, xs), {})
  {
    hide AllMoving, React;
    if xs == [] {
      IdleMoves();
    } else {
      assert xs == Front(xs) + [Last(xs)];
      RunMoves(cr, id, Front(xs));
      ReactMoves(Run(cr, id, Front(xs)), cr, id, Last(xs));
    }
  }

  /** Over every run, no order query is in progress while the table holds completed chains for
      both its events that the node was waiting on. */
  lemma NoOrderIsStuck(cr: Crypto, id: NodeId, xs: seq<Input>, o: OrderEntry)
    requires o in Run(cr, id, xs).orders
    requires exists e1, e2 :: HoldsBoth(Run(cr, id, xs).chains, o, e1, e2)
    ensures !o.state.InProgress?
  {
    hide Run;
    var d := Run(cr, id, xs);
    RunMoves(cr, id, xs);
    var e1, e2 :| HoldsBoth(d.chains, o, e1, e2);
    var i, j :| 0 <= i < |d.chains| && d.chains[i] == e1 && 0 <= j < |d.chains| && d.chains[j] == e2;
    OneIndex(d.chains, i);
    OneIndex(d.chains, j);
    assert OrderMoves(d.chains, {}, o);
  }

  ghost predicate HoldsBoth(cs: seq<ChainEntry>, o: OrderEntry, e1: ChainEntry, e2: ChainEntry) {
    GotFor(cs, e1, o.event1.hash) && GotFor(cs, e2, o.event2.hash)
  }

  /** A chain entry for the hash, completed, that the node was waiting on. */
  ghost predicate GotFor(cs: seq<ChainEntry>, e: ChainEntry, h: Hash) {
    e in cs && e.event.hash == h && e.state.Completed? && Node in e.waiters
  }

  /** Over every run, a bounds query is in progress only while a chain query for its event is,
      with the node waiting on it. */
  lemma NoBoundsIsStuck(cr: Crypto, id: NodeId, xs: seq<Input>, b: BoundsEntry)
    requires b in Run(cr, id, xs).bounds && b.state.InProgress?
    ensures exists e :: e in Run(cr, id, xs).chains && e.event.hash == b.event.hash && e.state.InProgress? && Node in e.waiters
  {
    hide Run;
    var d := Run(cr, id, xs);
    RunMoves(cr, id, xs);
    assert BoundsMoves(d.chains, {}, b);
    assert Look(d.chains, b.event.hash).value in d.chains;
  }
}
