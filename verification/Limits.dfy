/** Bounds queries: every client is answered, but one may be answered more than once. */
module Limits {
  import opened Domain
  import opened Hashing
  import opened Log
  import opened Discovery
  import opened DiscoveryLaws
  import Arith
  import ChainBuild
  import Validate

  // ---------------------------------------------------------------------------
  // bounds callbacks on abort
  // ---------------------------------------------------------------------------

  function WaitingOnBounds(e: BoundsEntry, t: nat): nat {
    if e.state.InProgress? then Count(e.waiters, t) else 0
  }

  function BoundsWaiters(bs: seq<BoundsEntry>, t: nat): (n: nat) {
    if bs == [] then 0 else BoundsWaiters(Front(bs), t) + WaitingOnBounds(Last(bs), t)
  }

  function BoundsAnswered(a: seq<Answer>, t: nat): (n: nat) {
    if a == [] then 0
    else BoundsAnswered(Front(a), t) + if (Last(a).BoundsDone? || Last(a).BoundsFailed?) && Last(a).tok == t then 1 else 0
  }

  /** Token `t`'s bounds queries: those still waiting and those already answered. */
  function BoundsLedger(d: Disc, t: nat): nat {
    BoundsWaiters(d.bounds, t) + BoundsAnswered(d.answers, t)
  }

  /** How often the node itself waits on a chain. */
  function Selves(ws: seq<Waiter>): (n: nat) {
    if ws == [] then 0 else Selves(Front(ws)) + if Last(ws).Node? then 1 else 0
  }

  lemma {:induction false} BoundsAnsweredConcat(a: seq<Answer>, b: seq<Answer>, t: nat)
    ensures BoundsAnswered(a + b, t) == BoundsAnswered(a, t) + BoundsAnswered(b, t)
  {
    if b == [] {
      assert a + b == a;
    } else {
      assert Front(a + b) == a + Front(b);
      BoundsAnsweredConcat(a, Front(b), t);
    }
  }

  lemma {:induction false} AnswersEveryWaiter(toks: seq<nat>, done: bool, e: BoundsEntry, t: nat)
    ensures BoundsAnswered(BoundsAnswers(toks, done, e), t) == Count(toks, t)
  {
    if toks != [] {
      AnswersEveryWaiter(Front(toks), done, e, t);
      assert Front(BoundsAnswers(toks, done, e)) == BoundsAnswers(Front(toks), done, e);
    }
  }

  lemma {:induction false} OrderAnswersElsewhere(toks: seq<nat>, done: bool, e: OrderEntry, t: nat)
    ensures BoundsAnswered(OrderAnswers(toks, done, e), t) == 0
  {
    if toks != [] {
      OrderAnswersElsewhere(Front(toks), done, e, t);
      assert Front(OrderAnswers(toks, done, e)) == OrderAnswers(Front(toks), done, e);
    }
  }

  lemma {:induction false} WaitersAfter(bs: seq<BoundsEntry>, i: nat, e: BoundsEntry, t: nat)
    requires i < |bs|
    ensures BoundsWaiters(bs[i := e], t) + WaitingOnBounds(bs[i], t) == BoundsWaiters(bs, t) + WaitingOnBounds(e, t)
  {
    if i < |bs| - 1 {
      assert Front(bs[i := e]) == Front(bs)[i := e];
      WaitersAfter(Front(bs), i, e, t);
    } else {
      assert Front(bs[i := e]) == Front(bs);
    }
  }

  /** Aborting an entry that is not in progress answers its waiters again. */
  lemma AbortBoundsLedger(d: Disc, h: Hash, t: nat)
    ensures var i := BoundsAt(d.bounds, h); var r := AbortBounds(d, h);
      && BoundsAt(r.bounds, h) == i
      && (i < 0 ==> r == d)
      && (i >= 0 ==> !r.bounds[i].state.InProgress? && r.bounds[i].waiters == d.bounds[i].waiters)
      && (i >= 0 ==> BoundsLedger(r, t) == BoundsLedger(d, t) + if d.bounds[i].state.InProgress? then 0 else Count(d.bounds[i].waiters, t))
  {
    var i := BoundsAt(d.bounds, h);
    if i >= 0 {
      var e := d.bounds[i].(state := Aborted);
      WaitersAfter(d.bounds, i, e, t);
      AnswersEveryWaiter(e.waiters, false, e, t);
      BoundsAnsweredConcat(d.answers, BoundsAnswers(e.waiters, false, e), t);
      SamePlace(d.bounds, i, e, h);
    }
  }

  lemma {:induction false} SamePlace(bs: seq<BoundsEntry>, i: nat, e: BoundsEntry, h: Hash)
    requires i < |bs| && BoundsAt(bs, h) == i && e.event.hash == h
    ensures BoundsAt(bs[i := e], h) == i
  {
    if i < |bs| - 1 {
      assert Front(bs[i := e]) == Front(bs)[i := e];
      SamePlace(Front(bs), i, e, h);
    }
  }

  lemma {:induction false} AbortOrdersElsewhere(d: Disc, h: Hash, k: nat, t: nat)
    requires k <= |d.orders|
    ensures BoundsLedger(AbortOrders(d, h, k), t) == BoundsLedger(d, t)
  {
    if k > 0 {
      AbortOrdersElsewhere(d, h, k - 1, t);
      var d1 := AbortOrders(d, h, k - 1);
      var e := d1.orders[k - 1].(state := Aborted);
      OrderAnswersElsewhere(e.waiters, false, e, t);
      BoundsAnsweredConcat(d1.answers, OrderAnswers(e.waiters, false, e), t);
    }
  }

  /** One self-callback: the bounds entry is aborted whatever its state. */
  lemma SelfAborts(d: Disc, event: Event, t: nat)
    ensures var i := BoundsAt(d.bounds, event.hash); var r := OnChainAborted(d, event);
      && BoundsAt(r.bounds, event.hash) == i
      && (i < 0 ==> BoundsLedger(r, t) == BoundsLedger(d, t))
      && (i >= 0 ==> !r.bounds[i].state.InProgress? && r.bounds[i].waiters == d.bounds[i].waiters)
      && (i >= 0 ==> BoundsLedger(r, t) == BoundsLedger(d, t) + if d.bounds[i].state.InProgress? then 0 else Count(d.bounds[i].waiters, t))
  {
    AbortBoundsLedger(d, event.hash, t);
    var d1 := AbortBounds(d, event.hash);
    hide AbortBounds, BoundsLedger;
    AbortOrdersElsewhere(d1, event.hash, |d1.orders|, t);
  }

  lemma ClientElsewhere(d: Disc, tok: nat, event: Event, t: nat)
    ensures BoundsLedger(d.(answers := d.answers + [ChainFailed(tok, event)]), t) == BoundsLedger(d, t)
  {
    assert Front(d.answers + [ChainFailed(tok, event)]) == d.answers;
  }

  /** Surplus answers token `t` gets when a chain with these waiters aborts: one round per
      self-callback beyond the one that finds the bounds query in progress. */
  function Surplus(d: Disc, ws: seq<Waiter>, h: Hash, t: nat): nat {
    var i := BoundsAt(d.bounds, h);
    if i < 0 || Selves(ws) == 0 then 0
    else (Selves(ws) - if d.bounds[i].state.InProgress? then 1 else 0) * Count(d.bounds[i].waiters, t)
  }

  lemma SurplusStep(d: Disc, ws: seq<Waiter>, h: Hash, t: nat)
    requires ws != []
    ensures var i := BoundsAt(d.bounds, h);
      Surplus(d, ws, h, t) == Surplus(d, Front(ws), h, t) +
        if i < 0 || Last(ws).Client? || (Selves(Front(ws)) == 0 && d.bounds[i].state.InProgress?) then 0 else Count(d.bounds[i].waiters, t)
  {
    var i := BoundsAt(d.bounds, h);
    if i >= 0 {
      var n, c := Selves(Front(ws)), Count(d.bounds[i].waiters, t);
      Arith.OneMore(n, c);
      if n > 0 {
        Arith.OneMore(n - 1, c);
      }
    }
  }

  /** Where the bounds entry stands after some of the waiters were told. */
  ghost predicate EntryAfter(d: Disc, ws: seq<Waiter>, h: Hash, r: Disc) {
    var i := BoundsAt(d.bounds, h);
    && BoundsAt(r.bounds, h) == i
    && (i >= 0 ==>
          && r.bounds[i].waiters == d.bounds[i].waiters
          && (r.bounds[i].state.InProgress? <==> Selves(ws) == 0 && d.bounds[i].state.InProgress?))
  }

  lemma {:induction false} AbortSurplus(d: Disc, ws: seq<Waiter>, event: Event, t: nat)
    ensures EntryAfter(d, ws, event.hash, TellAllFailed(d, ws, event))
    ensures BoundsLedger(TellAllFailed(d, ws, event), t) == BoundsLedger(d, t) + Surplus(d, ws, event.hash, t)
  {
    if ws != [] {
      hide TellAllFailed, BoundsLedger, OnChainAborted, Surplus;
      AbortSurplus(d, Front(ws), event, t);
      TellLast(d, ws, event);
      SurplusStep(d, ws, event.hash, t);
      var d1 := TellAllFailed(d, Front(ws), event);
      if Last(ws).Node? {
        SelfAborts(d1, event, t);
      } else {
        ClientElsewhere(d1, Last(ws).tok, event, t);
      }
    } else {
      assert Surplus(d, ws, event.hash, t) == 0;
    }
  }

  lemma TellLast(d: Disc, ws: seq<Waiter>, event: Event)
    requires ws != []
    ensures TellAllFailed(d, ws, event) == TellFailed(TellAllFailed(d, Front(ws), event), Last(ws), event)
  {
  }

  /** Aborting a chain leaves every bounds query of token `t` answered exactly once if and only
      if the node waits on the chain at most once, with the bounds query still in progress, or
      there is nobody to answer. */
  lemma BoundsAnsweredOnceIff(d: Disc, ws: seq<Waiter>, event: Event, t: nat)
    ensures var i := BoundsAt(d.bounds, event.hash);
      BoundsLedger(TellAllFailed(d, ws, event), t) == BoundsLedger(d, t)
      <==>
      (|| i < 0 || Selves(ws) == 0 || Count(d.bounds[i].waiters, t) == 0
       || (Selves(ws) == 1 && d.bounds[i].state.InProgress?))
  {
    AbortSurplus(d, ws, event, t);
    hide TellAllFailed, BoundsLedger;
    var i := BoundsAt(d.bounds, event.hash);
    if i >= 0 && Selves(ws) > 0 {
      Arith.ZeroProduct(Selves(ws) - if d.bounds[i].state.InProgress? then 1 else 0, Count(d.bounds[i].waiters, t));
    }
  }


  // ---------------------------------------------------------------------------
  // over whole runs
  // ---------------------------------------------------------------------------

  /** How often the node itself waits, over all chains in progress. */
  function SelfWaits(cs: seq<ChainEntry>): (n: nat) {
    if cs == [] then 0 else SelfWaits(Front(cs)) + SelfWaiting(Last(cs))
  }

  function SelfWaiting(e: ChainEntry): nat {
    if e.state.InProgress? then Selves(e.waiters) else 0
  }

  lemma {:induction false} SelfWaitsUpdate(cs: seq<ChainEntry>, i: nat, e: ChainEntry)
    requires i < |cs|
    ensures SelfWaits(cs[i := e]) + SelfWaiting(cs[i]) == SelfWaits(cs) + SelfWaiting(e)
  {
    if i < |cs| - 1 {
      assert Front(cs[i := e]) == Front(cs)[i := e];
      SelfWaitsUpdate(Front(cs), i, e);
    } else {
      assert Front(cs[i := e]) == Front(cs);
    }
  }

  lemma {:induction false} SelfWaitsRemove(cs: seq<ChainEntry>, i: nat)
    requires i < |cs|
    ensures SelfWaits(Remove(cs, i)) + SelfWaiting(cs[i]) == SelfWaits(cs)
  {
    if i < |cs| - 1 {
      assert Front(Remove(cs, i)) == Remove(Front(cs), i) && Last(Remove(cs, i)) == Last(cs);
      SelfWaitsRemove(Front(cs), i);
    } else {
      assert Remove(cs, i) == Front(cs);
    }
  }

  /** No bounds entry lists token `t` more than `most` times. */
  ghost predicate ListedAtMost(d: Disc, t: nat, most: nat) {
    forall b :: b in d.bounds ==> Count(b.waiters, t) <= most
  }

  /** From `d` to `r` the node came to wait on itself `asked` more times, and each time it was
      called back is at most one more round of answers; `own` new queries of `t` were added. */
  ghost predicate Grows(d: Disc, r: Disc, t: nat, own: nat, asked: nat, most: nat) {
    && SelfWaits(r.chains) <= SelfWaits(d.chains) + asked
    && BoundsLedger(d, t) + own <= BoundsLedger(r, t)
    && BoundsLedger(r, t) <= BoundsLedger(d, t) + own + (SelfWaits(d.chains) + asked - SelfWaits(r.chains)) * most
    && ListedAtMost(r, t, most)
  }

  lemma Rounds(a: nat, b: nat, most: nat)
    ensures a * most + b * most == (a + b) * most
    ensures a <= b ==> a * most <= b * most
  {
    Arith.Sum(a, b, most);
    if a <= b {
      Arith.Mono(a, b, most);
    }
  }

  lemma GrowsThen(d: Disc, m: Disc, r: Disc, t: nat, own: nat, own2: nat, asked: nat, asked2: nat, most: nat)
    requires Grows(d, m, t, own, asked, most) && Grows(m, r, t, own2, asked2, most)
    ensures Grows(d, r, t, own + own2, asked + asked2, most)
  {
    hide BoundsLedger, SelfWaits, ListedAtMost;
    Rounds(SelfWaits(d.chains) + asked - SelfWaits(m.chains), SelfWaits(m.chains) + asked2 - SelfWaits(r.chains), most);
  }

  /** The tables differ in nothing that bounds queries depend on, except one more possible round. */
  lemma GrowsQuietly(d: Disc, r: Disc, t: nat, asked: nat, most: nat)
    requires ListedAtMost(d, t, most) && r.bounds == d.bounds && SelfWaits(r.chains) <= SelfWaits(d.chains) + asked
    requires BoundsAnswered(r.answers, t) == BoundsAnswered(d.answers, t)
    ensures Grows(d, r, t, 0, asked, most)
  {
    hide BoundsAnswered, SelfWaits, BoundsWaiters;
    Rounds(0, SelfWaits(d.chains) + asked - SelfWaits(r.chains), most);
  }

  // ---- telling ----

  lemma AbortedListed(d: Disc, event: Event, t: nat, most: nat)
    requires ListedAtMost(d, t, most)
    ensures ListedAtMost(OnChainAborted(d, event), t, most)
  {
    hide Count, AbortOrders;
  }

  lemma SelfFails(d: Disc, event: Event, t: nat, most: nat)
    requires ListedAtMost(d, t, most)
    ensures Grows(d, OnChainAborted(d, event), t, 0, 1, most)
  {
    hide BoundsLedger, SelfWaits, Count, OnChainAborted;
    SelfAborts(d, event, t);
    AbortedListed(d, event, t, most);
    assert 1 * most == most;
    var i := BoundsAt(d.bounds, event.hash);
    if i >= 0 {
      assert d.bounds[i] in d.bounds;
    }
  }

  /** Completing settles a bounds entry only if it is in progress, so nobody is told twice. */
  lemma CompleteBoundsLedger(d: Disc, ch: EventChain, t: nat, most: nat)
    requires ListedAtMost(d, t, most)
    ensures var r := CompleteBounds(d, ch); BoundsLedger(r, t) == BoundsLedger(d, t) && ListedAtMost(r, t, most) && r.chains == d.chains
  {
    var i := BoundsAt(d.bounds, ch.event.hash);
    if i >= 0 && d.bounds[i].state.InProgress? && Bounded(ch) {
      var e := d.bounds[i].(lower := ch.lower[0].timestamp, upper := Last(ch.upper).timestamp, state := Completed);
      assert d.bounds[i] in d.bounds;
      WaitersAfter(d.bounds, i, e, t);
      AnswersEveryWaiter(e.waiters, true, e, t);
      BoundsAnsweredConcat(d.answers, BoundsAnswers(e.waiters, true, e), t);
    }
  }

  lemma {:induction false} CompleteOrdersElsewhere(d: Disc, ch: EventChain, k: nat, t: nat)
    requires k <= |d.orders|
    ensures BoundsAnswered(CompleteOrders(d, ch, k).answers, t) == BoundsAnswered(d.answers, t)
  {
    hide Offered, BoundsAnswered, CompleteOrders;
    OrdersStep(d, ch, k);
    if k > 0 {
      CompleteOrdersElsewhere(d, ch, k - 1, t);
      OfferedElsewhere(CompleteOrders(d, ch, k - 1), k - 1, ch, t);
    }
  }

  lemma OfferedElsewhere(d: Disc, i: nat, ch: EventChain, t: nat)
    requires i < |d.orders|
    ensures BoundsAnswered(Offered(d, i, ch).answers, t) == BoundsAnswered(d.answers, t)
  {
    hide Decided, OrderAnswers, BoundsAnswered;
    var e := Decided(d, d.orders[i], ch);
    OrderAnswersElsewhere(e.waiters, e.state.Completed?, e, t);
    BoundsAnsweredConcat(d.answers, OrderAnswers(e.waiters, e.state.Completed?, e), t);
  }

  lemma SelfDone(d: Disc, ch: EventChain, t: nat, most: nat)
    requires ListedAtMost(d, t, most)
    ensures Grows(d, OnChainCompleted(d, ch), t, 0, 1, most)
  {
    CompleteBoundsLedger(d, ch, t, most);
    var d1 := CompleteBounds(d, ch);
    CompleteOrdersElsewhere(d1, ch, |d1.orders|, t);
    hide CompleteBounds, CompleteOrders, SelfWaits, BoundsWaiters, BoundsAnswered;
    assert 1 * most == most;
  }

  lemma ToldClient(a: seq<Answer>, x: Answer, t: nat)
    requires x.ChainDone? || x.ChainFailed?
    ensures BoundsAnswered(a + [x], t) == BoundsAnswered(a, t)
  {
    assert Front(a + [x]) == a;
  }

  function Asked(w: Waiter): nat {
    if w.Node? then 1 else 0
  }

  lemma TellFailedGrows(d: Disc, w: Waiter, event: Event, t: nat, most: nat)
    requires ListedAtMost(d, t, most)
    ensures Grows(d, TellFailed(d, w, event), t, 0, Asked(w), most)
  {
    hide OnChainAborted, SelfWaits, BoundsAnswered, ListedAtMost;
    if w.Node? {
      SelfFails(d, event, t, most);
    } else {
      ToldClient(d.answers, ChainFailed(w.tok, event), t);
      GrowsQuietly(d, TellFailed(d, w, event), t, 0, most);
    }
  }

  lemma TellDoneGrows(d: Disc, w: Waiter, event: Event, ch: EventChain, t: nat, most: nat)
    requires ListedAtMost(d, t, most)
    ensures Grows(d, TellDone(d, w, event, ch), t, 0, Asked(w), most)
  {
    hide OnChainCompleted, SelfWaits, BoundsAnswered, ListedAtMost;
    if w.Node? {
      SelfDone(d, ch, t, most);
    } else {
      ToldClient(d.answers, ChainDone(w.tok, event, ch), t);
      GrowsQuietly(d, TellDone(d, w, event, ch), t, 0, most);
    }
  }

  lemma {:induction false} TellAllFailedGrows(d: Disc, ws: seq<Waiter>, event: Event, t: nat, most: nat)
    requires ListedAtMost(d, t, most)
    ensures Grows(d, TellAllFailed(d, ws, event), t, 0, Selves(ws), most)
  {
    if ws == [] {
      GrowsQuietly(d, d, t, 0, most);
    } else {
      TellAllFailedGrows(d, Front(ws), event, t, most);
      var d1 := TellAllFailed(d, Front(ws), event);
      TellFailedGrows(d1, Last(ws), event, t, most);
      TellLast(d, ws, event);
      hide TellAllFailed, TellFailed, BoundsLedger, ListedAtMost, SelfWaits;
      GrowsThen(d, d1, TellAllFailed(d, ws, event), t, 0, 0, Selves(Front(ws)), Asked(Last(ws)), most);
    }
  }

  lemma TellLastDone(d: Disc, ws: seq<Waiter>, event: Event, ch: EventChain)
    requires ws != []
    ensures TellAllDone(d, ws, event, ch) == TellDone(TellAllDone(d, Front(ws), event, ch), Last(ws), event, ch)
  {
  }

  lemma {:induction false} TellAllDoneGrows(d: Disc, ws: seq<Waiter>, event: Event, ch: EventChain, t: nat, most: nat)
    requires ListedAtMost(d, t, most)
    ensures Grows(d, TellAllDone(d, ws, event, ch), t, 0, Selves(ws), most)
  {
    if ws == [] {
      GrowsQuietly(d, d, t, 0, most);
    } else {
      TellAllDoneGrows(d, Front(ws), event, ch, t, most);
      var d1 := TellAllDone(d, Front(ws), event, ch);
      TellDoneGrows(d1, Last(ws), event, ch, t, most);
      TellLastDone(d, ws, event, ch);
      hide TellAllDone, TellDone, BoundsLedger, ListedAtMost, SelfWaits;
      GrowsThen(d, d1, TellAllDone(d, ws, event, ch), t, 0, 0, Selves(Front(ws)), Asked(Last(ws)), most);
    }
  }

  // ---- chains ----

  /** The waits that a settled chain gives up are the ones its callbacks use. */
  lemma Settled(d: Disc, d1: Disc, r: Disc, t: nat, selves: nat, most: nat)
    requires SelfWaits(d1.chains) + selves == SelfWaits(d.chains) && d1.bounds == d.bounds && d1.answers == d.answers
    requires Grows(d1, r, t, 0, selves, most)
    ensures Grows(d, r, t, 0, 0, most)
  {
    hide SelfWaits, BoundsWaiters, BoundsAnswered, ListedAtMost;
  }

  lemma AbortChainGrows(d: Disc, i: nat, t: nat, most: nat)
    requires i < |d.chains| && d.chains[i].state.InProgress? && ListedAtMost(d, t, most)
    ensures Grows(d, AbortChain(d, i), t, 0, 0, most)
  {
    hide TellAllFailed, SelfWaits, BoundsLedger;
    var e := d.chains[i].(state := Aborted);
    var d1 := d.(chains := d.chains[i := e]);
    SelfWaitsUpdate(d.chains, i, e);
    TellAllFailedGrows(d1, e.waiters, e.event, t, most);
    Settled(d, d1, AbortChain(d, i), t, Selves(e.waiters), most);
  }

  lemma ConcludeGrows(d: Disc, i: nat, ch: EventChain, attached: bool, cr: Crypto, id: NodeId, t: nat, most: nat)
    requires i < |d.chains| && d.chains[i].state.InProgress? && ListedAtMost(d, t, most)
    ensures Grows(d, Conclude(d, i, ch, attached, cr, id), t, 0, 0, most)
  {
    hide TellAllDone, AbortChain, SelfWaits, BoundsWaiters, BoundsAnswered, Validate.Sound;
    var d1 := d.(chains := d.chains[i := d.chains[i].(chain := ch)]);
    SelfWaitsUpdate(d.chains, i, d1.chains[i]);
    GrowsQuietly(d, d1, t, 0, most);
    if attached && Validate.Sound(cr, ch, id) {
      var e := d1.chains[i].(state := Completed);
      var d2 := d1.(chains := d1.chains[i := e]);
      SelfWaitsUpdate(d1.chains, i, e);
      TellAllDoneGrows(d2, e.waiters, e.event, ch, t, most);
      Settled(d1, d2, TellAllDone(d2, e.waiters, e.event, ch), t, Selves(e.waiters), most);
    } else {
      AbortChainGrows(d1, i, t, most);
    }
    GrowsThen(d, d1, Conclude(d, i, ch, attached, cr, id), t, 0, 0, 0, 0, most);
  }

  // ---- the entry points ----

  lemma JoinGrows(d: Disc, i: nat, event: Event, w: Waiter, t: nat, most: nat)
    requires i < |d.chains| && ListedAtMost(d, t, most)
    ensures Grows(d, Join(d, i, event, w), t, 0, Asked(w), most)
  {
    hide TellFailed, TellDone, SelfWaits, BoundsWaiters, BoundsAnswered, ListedAtMost;
    var e := d.chains[i];
    match e.state {
      case InProgress =>
        var e' := e.(waiters := e.waiters + [w]);
        assert Front(e'.waiters) == e.waiters;
        SelfWaitsUpdate(d.chains, i, e');
        GrowsQuietly(d, Join(d, i, event, w), t, Asked(w), most);
      case Aborted => TellFailedGrows(d, w, event, t, most);
      case Completed => TellDoneGrows(d, w, event, e.chain, t, most);
    }
  }

  lemma NewChainWaits(cs: seq<ChainEntry>, event: Event, range: TimeRange, w: Waiter, now: Timestamp)
    ensures SelfWaits(cs + [NewChain(event, range, w, now)]) == SelfWaits(cs) + Asked(w)
  {
    assert Front(cs + [NewChain(event, range, w, now)]) == cs && Front([w]) == [];
    assert Selves([w]) == Asked(w);
  }

  lemma AskChainGrows(d: Disc, cr: Crypto, id: NodeId, live: seq<Entry>, event: Event, range: TimeRange, w: Waiter, now: Timestamp, t: nat, most: nat)
    requires ListedAtMost(d, t, most)
    ensures Grows(d, AskChain(d, cr, id, live, event, range, w, now), t, 0, Asked(w), most)
  {
    hide Join, Conclude, SelfWaits, BoundsWaiters, BoundsAnswered;
    var i := ChainAt(d.chains, event.hash);
    if i >= 0 {
      JoinGrows(d, i, event, w, t, most);
    } else {
      var d1 := d.(chains := d.chains + [NewChain(event, range, w, now)]);
      NewChainWaits(d.chains, event, range, w, now);
      GrowsQuietly(d, d1, t, Asked(w), most);
      if event.creator == id {
        var (ch, attached) := ChainBuild.Enclose(live, id, EventChain(event, [], []));
        ConcludeGrows(d1, |d.chains|, ch, attached, cr, id, t, most);
        GrowsThen(d, d1, Conclude(d1, |d.chains|, ch, attached, cr, id), t, 0, 0, Asked(w), 0, most);
      }
    }
  }

  lemma CountMore(toks: seq<nat>, tok: nat, t: nat)
    ensures Count(toks + [tok], t) == Count(toks, t) + if tok == t then 1 else 0
  {
    assert Front(toks + [tok]) == toks;
  }

  lemma GrowsBy(d: Disc, r: Disc, t: nat, own: nat, asked: nat, most: nat)
    requires r.chains == d.chains && BoundsLedger(r, t) == BoundsLedger(d, t) + own && ListedAtMost(r, t, most)
    ensures Grows(d, r, t, own, asked, most)
  {
    hide SelfWaits, BoundsLedger, ListedAtMost;
    Rounds(0, asked, most);
  }

  lemma JoinWaiting(d: Disc, i: nat, tok: nat, t: nat, most: nat)
    requires i < |d.bounds| && d.bounds[i].state.InProgress? && ListedAtMost(d, t, most)
    ensures var own := if tok == t then 1 else 0;
      Grows(d, d.(bounds := d.bounds[i := d.bounds[i].(waiters := d.bounds[i].waiters + [tok])]), t, own, 1, most + own)
  {
    hide Grows, BoundsAnswered, BoundsWaiters, Count;
    var own := if tok == t then 1 else 0;
    var e := d.bounds[i].(waiters := d.bounds[i].waiters + [tok]);
    var r := d.(bounds := d.bounds[i := e]);
    assert d.bounds[i] in d.bounds;
    CountMore(d.bounds[i].waiters, tok, t);
    WaitersAfter(d.bounds, i, e, t);
    assert ListedAtMost(r, t, most + own);
    GrowsBy(d, r, t, own, 1, most + own);
  }

  lemma JoinAnswered(d: Disc, x: Answer, t: nat, most: nat)
    requires (x.BoundsDone? || x.BoundsFailed?) && ListedAtMost(d, t, most)
    ensures var own := if x.tok == t then 1 else 0; Grows(d, d.(answers := d.answers + [x]), t, own, 1, most + own)
  {
    hide Grows, BoundsWaiters, Count;
    var own := if x.tok == t then 1 else 0;
    var r := d.(answers := d.answers + [x]);
    assert Front(d.answers + [x]) == d.answers;
    assert ListedAtMost(r, t, most + own);
    GrowsBy(d, r, t, own, 1, most + own);
  }

  lemma NewBoundsGrows(d: Disc, event: Event, tok: nat, now: Timestamp, t: nat, most: nat)
    requires ListedAtMost(d, t, most)
    ensures var own := if tok == t then 1 else 0;
      Grows(d, d.(bounds := d.bounds + [BoundsEntry(now, event, 0, 0, InProgress, [tok])]), t, own, 0, most + own)
  {
    hide Grows, BoundsAnswered;
    var own := if tok == t then 1 else 0;
    var e := BoundsEntry(now, event, 0, 0, InProgress, [tok]);
    var r := d.(bounds := d.bounds + [e]);
    assert Front(r.bounds) == d.bounds && Front([tok]) == [];
    assert Count([tok], t) == own;
    GrowsBy(d, r, t, own, 0, most + own);
  }

  lemma AskBoundsGrows(d: Disc, cr: Crypto, id: NodeId, live: seq<Entry>, event: Event, range: TimeRange, tok: nat, now: Timestamp, t: nat, most: nat)
    requires ListedAtMost(d, t, most)
    ensures var own := if tok == t then 1 else 0;
      Grows(d, AskBounds(d, cr, id, live, event, range, tok, now), t, own, 1, most + own)
  {
    hide AskChain, Grows, ListedAtMost;
    var own := if tok == t then 1 else 0;
    var i := BoundsAt(d.bounds, event.hash);
    if i >= 0 {
      var e := d.bounds[i];
      match e.state {
        case InProgress => JoinWaiting(d, i, tok, t, most);
        case Aborted => JoinAnswered(d, BoundsFailed(tok, event), t, most);
        case Completed => JoinAnswered(d, BoundsDone(tok, event, e.lower, e.upper), t, most);
      }
    } else {
      var d1 := d.(bounds := d.bounds + [BoundsEntry(now, event, 0, 0, InProgress, [tok])]);
      NewBoundsGrows(d, event, tok, now, t, most);
      GrowsListed(d, d1, t, own, 0, most + own);
      AskChainGrows(d1, cr, id, live, event, range, Node, now, t, most + own);
      GrowsThen(d, d1, AskBounds(d, cr, id, live, event, range, tok, now), t, own, 0, 0, 1, most + own);
    }
  }

  lemma GrowsListed(d: Disc, r: Disc, t: nat, own: nat, asked: nat, most: nat)
    requires Grows(d, r, t, own, asked, most)
    ensures ListedAtMost(r, t, most)
  {
  }

  lemma OrderTold(a: seq<Answer>, x: Answer, t: nat)
    requires x.OrderDone? || x.OrderFailed?
    ensures BoundsAnswered(a + [x], t) == BoundsAnswered(a, t)
  {
    assert Front(a + [x]) == a;
  }

  lemma AskOrderGrows(d: Disc, cr: Crypto, id: NodeId, live: seq<Entry>, event1: Event, event2: Event, range: TimeRange, tok: nat, now: Timestamp, t: nat, most: nat)
    requires ListedAtMost(d, t, most)
    ensures Grows(d, AskOrder(d, cr, id, live, event1, event2, range, tok, now), t, 0, 2, most)
  {
    hide AskChain, Grows, BoundsAnswered, SelfWaits;
    var i := OrderAt(d.orders, event1.hash, event2.hash);
    if i >= 0 {
      var e := d.orders[i];
      OrderTold(d.answers, OrderFailed(tok, event1, event2), t);
      OrderTold(d.answers, OrderDone(tok, event1, event2, e.order), t);
      GrowsQuietly(d, AskOrder(d, cr, id, live, event1, event2, range, tok, now), t, 2, most);
    } else {
      var d1 := d.(orders := d.orders + [OrderEntry(now, event1, event2, Undetermined, InProgress, [tok])]);
      GrowsQuietly(d, d1, t, 0, most);
      hide ListedAtMost;
      GrowsListed(d, d1, t, 0, 0, most);
      var d2 := AskChain(d1, cr, id, live, event1, range, Node, now);
      AskChainGrows(d1, cr, id, live, event1, range, Node, now, t, most);
      GrowsThen(d, d1, d2, t, 0, 0, 0, 1, most);
      GrowsListed(d, d2, t, 0, 1, most);
      AskChainGrows(d2, cr, id, live, event2, range, Node, now, t, most);
      GrowsThen(d, d2, AskChain(d2, cr, id, live, event2, range, Node, now), t, 0, 0, 1, 1, most);
    }
  }

  // ---- expiry ----

  lemma {:induction false} PurgeChainsGrows(d: Disc, i: nat, limit: Timestamp, t: nat, most: nat)
    requires i <= |d.chains| && ListedAtMost(d, t, most)
    ensures Grows(d, PurgeChains(d, i, limit), t, 0, 0, most)
    decreases |d.chains| - i
  {
    hide AbortChain, SelfWaits, BoundsAnswered, Grows;
    if i == |d.chains| {
      GrowsQuietly(d, d, t, 0, most);
    } else if d.chains[i].start < limit {
      var d1 := if d.chains[i].state.InProgress? then AbortChain(d, i) else d;
      if d.chains[i].state.InProgress? {
        AbortChainGrows(d, i, t, most);
      } else {
        GrowsQuietly(d, d, t, 0, most);
      }
      GrowsListed(d, d1, t, 0, 0, most);
      var d2 := d1.(chains := Remove(d1.chains, i));
      SelfWaitsRemove(d1.chains, i);
      GrowsQuietly(d1, d2, t, 0, most);
      GrowsThen(d, d1, d2, t, 0, 0, 0, 0, most);
      PurgeChainsGrows(d2, i, limit, t, most);
      GrowsThen(d, d2, PurgeChains(d2, i, limit), t, 0, 0, 0, 0, most);
    } else {
      PurgeChainsGrows(d, i + 1, limit, t, most);
    }
  }

  lemma {:induction false} WaitersRemoved(bs: seq<BoundsEntry>, i: nat, t: nat)
    requires i < |bs|
    ensures BoundsWaiters(Remove(bs, i), t) + WaitingOnBounds(bs[i], t) == BoundsWaiters(bs, t)
  {
    if i < |bs| - 1 {
      assert Front(Remove(bs, i)) == Remove(Front(bs), i) && Last(Remove(bs, i)) == Last(bs);
      WaitersRemoved(Front(bs), i, t);
    } else {
      assert Remove(bs, i) == Front(bs);
    }
  }

  lemma RemoveListed(d: Disc, r: Disc, i: nat, t: nat, most: nat)
    requires i < |d.bounds| && r.bounds == Remove(d.bounds, i) && ListedAtMost(d, t, most)
    ensures ListedAtMost(r, t, most)
  {
    hide Count;
    assert forall b :: b in Remove(d.bounds, i) ==> b in d.bounds;
  }

  lemma PurgeOne(d: Disc, i: nat, t: nat, most: nat)
    requires i < |d.bounds| && ListedAtMost(d, t, most)
    ensures var e := d.bounds[i];
      var d1 := if e.state.InProgress? then SettleBounds(d, i, e.(state := Aborted)) else d;
      Grows(d, d1.(bounds := Remove(d1.bounds, i)), t, 0, 0, most)
  {
    hide Grows, ListedAtMost, BoundsAnswered, BoundsWaiters, BoundsAnswers, Count;
    var e := d.bounds[i].(state := Aborted);
    var d1 := if d.bounds[i].state.InProgress? then SettleBounds(d, i, e) else d;
    var r := d1.(bounds := Remove(d1.bounds, i));
    if d.bounds[i].state.InProgress? {
      WaitersAfter(d.bounds, i, e, t);
      AnswersEveryWaiter(e.waiters, false, e, t);
      BoundsAnsweredConcat(d.answers, BoundsAnswers(e.waiters, false, e), t);
    }
    WaitersRemoved(d1.bounds, i, t);
    assert Remove(d1.bounds, i) == Remove(d.bounds, i);
    RemoveListed(d, r, i, t, most);
    GrowsBy(d, r, t, 0, 0, most);
  }

  lemma {:induction false} PurgeBoundsGrows(d: Disc, i: nat, limit: Timestamp, t: nat, most: nat)
    requires i <= |d.bounds| && ListedAtMost(d, t, most)
    ensures Grows(d, PurgeBounds(d, i, limit), t, 0, 0, most)
    decreases |d.bounds| - i
  {
    hide SelfWaits, BoundsAnswered, Grows, ListedAtMost;
    if i == |d.bounds| {
      GrowsQuietly(d, d, t, 0, most);
    } else if d.bounds[i].start < limit {
      PurgeOne(d, i, t, most);
      var d1 := if d.bounds[i].state.InProgress? then SettleBounds(d, i, d.bounds[i].(state := Aborted)) else d;
      var d2 := d1.(bounds := Remove(d1.bounds, i));
      GrowsListed(d, d2, t, 0, 0, most);
      PurgeBoundsGrows(d2, i, limit, t, most);
      GrowsThen(d, d2, PurgeBounds(d2, i, limit), t, 0, 0, 0, 0, most);
    } else {
      PurgeBoundsGrows(d, i + 1, limit, t, most);
    }
  }

  lemma {:induction false} PurgeOrdersGrows(d: Disc, i: nat, limit: Timestamp, t: nat, most: nat)
    requires i <= |d.orders| && ListedAtMost(d, t, most)
    ensures Grows(d, PurgeOrders(d, i, limit), t, 0, 0, most)
    decreases |d.orders| - i
  {
    hide SelfWaits, BoundsAnswered, Grows;
    if i == |d.orders| {
      GrowsQuietly(d, d, t, 0, most);
    } else if d.orders[i].start < limit {
      var e := d.orders[i].(state := Aborted);
      OrderAnswersElsewhere(e.waiters, false, e, t);
      BoundsAnsweredConcat(d.answers, OrderAnswers(e.waiters, false, e), t);
      var d1 := if d.orders[i].state.InProgress? then SettleOrder(d, i, e) else d;
      var d2 := d1.(orders := Remove(d1.orders, i));
      GrowsQuietly(d, d2, t, 0, most);
      PurgeOrdersGrows(d2, i, limit, t, most);
      GrowsThen(d, d2, PurgeOrders(d2, i, limit), t, 0, 0, 0, 0, most);
    } else {
      PurgeOrdersGrows(d, i + 1, limit, t, most);
    }
  }

  lemma PurgeGrows(d: Disc, limit: Timestamp, t: nat, most: nat)
    requires ListedAtMost(d, t, most)
    ensures Grows(d, Purge(d, limit), t, 0, 0, most)
  {
    hide Grows, ListedAtMost, PurgeChains, PurgeBounds, PurgeOrders;
    var d1 := PurgeChains(d, 0, limit);
    PurgeChainsGrows(d, 0, limit, t, most);
    GrowsListed(d, d1, t, 0, 0, most);
    var d2 := PurgeBounds(d1, 0, limit);
    PurgeBoundsGrows(d1, 0, limit, t, most);
    GrowsListed(d1, d2, t, 0, 0, most);
    PurgeOrdersGrows(d2, 0, limit, t, most);
    GrowsThen(d, d1, d2, t, 0, 0, 0, 0, most);
    GrowsThen(d, d2, PurgeOrders(d2, 0, limit), t, 0, 0, 0, 0, most);
  }

  // ---- runs ----

  function OwnQuery(x: Input, t: nat): nat {
    if x.ForBounds? && x.tok == t then 1 else 0
  }

  /** The bounds queries registered for token `t`. */
  function BoundsQueries(xs: seq<Input>, t: nat): nat {
    if xs == [] then 0 else BoundsQueries(Front(xs), t) + OwnQuery(Last(xs), t)
  }

  function SelfAsk(x: Input): nat {
    if x.ForBounds? then 1 else if x.ForOrder? then 2 else 0
  }

  /** How often the node may have come to wait on itself: once for each bounds query and twice
      for each order query. */
  function SelfAsks(xs: seq<Input>): nat {
    if xs == [] then 0 else SelfAsks(Front(xs)) + SelfAsk(Last(xs))
  }

  lemma ReactGrows(d: Disc, cr: Crypto, id: NodeId, x: Input, t: nat, most: nat)
    requires ListedAtMost(d, t, most)
    ensures Grows(d, React(d, cr, id, x), t, OwnQuery(x, t), SelfAsk(x), most + OwnQuery(x, t))
  {
    hide Grows, AskChain, AskBounds, AskOrder, Conclude, Purge;
    match x
    case ForChain(event, range, tok, now, live) => AskChainGrows(d, cr, id, live, event, range, Client(tok), now, t, most);
    case ForBounds(event, range, tok, now, live) => AskBoundsGrows(d, cr, id, live, event, range, tok, now, t, most);
    case ForOrder(event1, event2, range, tok, now, live) =>
      AskOrderGrows(d, cr, id, live, event1, event2, range, tok, now, t, most);
    case Response(ch, live) =>
      var i := ChainAt(d.chains, ch.event.hash);
      if i >= 0 && d.chains[i].state.InProgress? {
        var (r, attached) := ChainBuild.Enclose(live, id, ch);
        ConcludeGrows(d, i, r, attached, cr, id, t, most);
      } else {
        GrowsQuietly(d, d, t, 0, most);
      }
    case Expire(limit) => PurgeGrows(d, limit, t, most);
  }

  lemma Accumulate(q: nat, own: nat, asks: nat, asked: nat, before: nat, after: nat, ledger: nat, ledger': nat)
    requires before <= asks && after <= before + asked
    requires ledger <= q + (asks - before) * q && ledger' <= ledger + own + (before + asked - after) * (q + own)
    ensures ledger' <= (q + own) + (asks + asked - after) * (q + own)
  {
    var x, y, most := asks - before, before + asked - after, q + own;
    assert x * most == x * q + x * own;
    assert x * own >= 0;
    Rounds(x, y, most);
  }

  /** Of `q` registrations all are waiting or answered, and of the `asks` times the node came to
      wait on itself, each one no longer waiting has cost at most one more round of answers. */
  ghost predicate Within(d: Disc, t: nat, q: nat, asks: nat) {
    && SelfWaits(d.chains) <= asks && ListedAtMost(d, t, q)
    && q <= BoundsLedger(d, t) <= q + (asks - SelfWaits(d.chains)) * q
  }

  lemma StepWithin(d: Disc, r: Disc, t: nat, q: nat, own: nat, asks: nat, asked: nat)
    requires Within(d, t, q, asks) && Grows(d, r, t, own, asked, q + own)
    ensures Within(r, t, q + own, asks + asked)
  {
    hide BoundsLedger, SelfWaits, ListedAtMost;
    Accumulate(q, own, asks, asked, SelfWaits(d.chains), SelfWaits(r.chains), BoundsLedger(d, t), BoundsLedger(r, t));
  }

  lemma NothingYet(cr: Crypto, id: NodeId, t: nat)
    ensures Within(Run(cr, id, []), t, 0, 0)
  {
  }

  lemma RunLast(cr: Crypto, id: NodeId, xs: seq<Input>)
    requires xs != []
    ensures Run(cr, id, xs) == React(Run(cr, id, Front(xs)), cr, id, Last(xs))
  {
  }

  lemma WithinListed(d: Disc, t: nat, q: nat, asks: nat)
    requires Within(d, t, q, asks)
    ensures ListedAtMost(d, t, q)
  {
  }

  /** Over every run: no bounds query is ever forgotten, and a client is answered at most once
      per registration plus once more for each time the node waited on itself. */
  lemma {:induction false} BoundsAnswersOverRuns(cr: Crypto, id: NodeId, xs: seq<Input>, t: nat)
    ensures Within(Run(cr, id, xs), t, BoundsQueries(xs, t), SelfAsks(xs))
  {
    hide React, Within, Grows, ListedAtMost, Run;
    if xs == [] {
      NothingYet(cr, id, t);
    } else {
      RunLast(cr, id, xs);
      var d, x := Run(cr, id, Front(xs)), Last(xs);
      var q := BoundsQueries(Front(xs), t);
      BoundsAnswersOverRuns(cr, id, Front(xs), t);
      WithinListed(d, t, q, SelfAsks(Front(xs)));
      ReactGrows(d, cr, id, x, t, q);
      StepWithin(d, React(d, cr, id, x), t, q, OwnQuery(x, t), SelfAsks(Front(xs)), SelfAsk(x));
    }
  }

  // ---------------------------------------------------------------------------
  // told twice
  // ---------------------------------------------------------------------------

  /** An order query and a bounds query about the same remote event make the node wait twice on
      its chain; when the queries expire, the bounds client, registered once, is told twice. */
  lemma BoundsClientCanBeToldTwice(cr: Crypto, id: NodeId, e: Event, f: Event, range: TimeRange)
    requires e.creator != id && f.creator != id && e.hash != f.hash
    ensures var xs := [ForOrder(e, f, range, 1, 0, []), ForBounds(e, range, 2, 0, []), Expire(1)];
      BoundsQueries(xs, 2) == 1 && BoundsAnswered(Run(cr, id, xs).answers, 2) == 2
  {
    hide React, AskOrder, AskBounds, Purge, Run, BoundsAnswered;
    var a, b, x := ForOrder(e, f, range, 1, 0, []), ForBounds(e, range, 2, 0, []), Expire(1);
    RunTwo(cr, id, a, b);
    OrderAsked(cr, id, e, f, range);
    BoundsAsked(cr, id, AskOrder(IDLE, cr, id, [], e, f, range, 1, 0), e, f, range);
    var d := Run(cr, id, [a, b]);
    assert Front([a, b, x]) == [a, b] && Front([a, b]) == [a] && Front([a]) == [];
    RunLast(cr, id, [a, b, x]);
    assert React(d, cr, id, x) == Purge(d, 1) by {
      ReactExpires(d, cr, id, 1);
    }
    ExpiryTellsTwice(d, BoundsEntry(0, e, 0, 0, InProgress, [2]), f);
    assert BoundsQueries([a], 2) == 0 && BoundsQueries([a, b], 2) == 1;
  }

  lemma RunTwo(cr: Crypto, id: NodeId, a: Input, b: Input)
    requires a.ForOrder? && b.ForBounds?
    ensures Run(cr, id, [a, b]) ==
      AskBounds(AskOrder(IDLE, cr, id, a.live, a.event1, a.event2, a.range, a.tok, a.now), cr, id, b.live, b.event, b.range, b.tok, b.now)
  {
    hide AskOrder, AskBounds;
    assert Front([a, b]) == [a] && Front([a]) == [];
    assert Run(cr, id, [a]) == React(IDLE, cr, id, a);
  }

  lemma OrderAsked(cr: Crypto, id: NodeId, e: Event, f: Event, range: TimeRange)
    requires e.creator != id && f.creator != id && e.hash != f.hash
    ensures var d := AskOrder(IDLE, cr, id, [], e, f, range, 1, 0);
      d.chains == [NewChain(e, range, Node, 0), NewChain(f, range, Node, 0)] && d.bounds == [] && d.answers == []
  {
    var x := NewChain(e, range, Node, 0);
    assert ChainAt([x], f.hash) == -1 by {
      assert Front([x]) == [];
    }
    assert [] + [x] == [x] && [x] + [NewChain(f, range, Node, 0)] == [x, NewChain(f, range, Node, 0)];
  }

  lemma BoundsAsked(cr: Crypto, id: NodeId, d: Disc, e: Event, f: Event, range: TimeRange)
    requires e.hash != f.hash && d.bounds == [] && d.answers == []
    requires d.chains == [NewChain(e, range, Node, 0), NewChain(f, range, Node, 0)]
    ensures var r := AskBounds(d, cr, id, [], e, range, 2, 0);
      && r.chains == [NewChain(e, range, Node, 0).(waiters := [Node, Node]), NewChain(f, range, Node, 0)]
      && r.bounds == [BoundsEntry(0, e, 0, 0, InProgress, [2])] && r.answers == []
  {
    var x, y := NewChain(e, range, Node, 0), NewChain(f, range, Node, 0);
    assert ChainAt([x, y], e.hash) == 0 by {
      assert Front([x, y]) == [x] && Front([x]) == [];
    }
    assert [Node] + [Node] == [Node, Node];
  }

  lemma TwiceTold(d: Disc, b: BoundsEntry)
    requires |d.chains| == 2 && d.chains[0].state.InProgress? && d.chains[0].waiters == [Node, Node]
    requires d.bounds == [b] && b.state.InProgress? && b.waiters == [2] && b.event.hash == d.chains[0].event.hash && d.answers == []
    ensures var r := AbortChain(d, 0);
      && r.chains == [d.chains[0].(state := Aborted), d.chains[1]] && r.bounds == [b.(state := Aborted)]
      && BoundsAnswered(r.answers, 2) == 2
  {
    hide TellAllFailed;
    var c := d.chains[0].(state := Aborted);
    var d1 := d.(chains := d.chains[0 := c]);
    var r := TellAllFailed(d1, [Node, Node], c.event);
    assert Front(d1.bounds) == [] && Front(r.bounds) == [] by {
      OneBounds(d1, [Node, Node], c.event);
    }
    assert Selves([Node, Node]) == 2 && Count([2], 2) == 1 by {
      assert Front([2]) == [] && Front([Node, Node]) == [Node] && Front([Node]) == [];
    }
    OneBounds(d1, [Node, Node], c.event);
    AbortSurplus(d1, [Node, Node], c.event, 2);
  }

  /** A lone bounds entry ends up aborted as soon as the node itself is told. */
  lemma {:induction false} OneBounds(d: Disc, ws: seq<Waiter>, event: Event)
    requires |d.bounds| == 1 && d.bounds[0].event.hash == event.hash
    ensures TellAllFailed(d, ws, event).bounds == [if Selves(ws) > 0 then d.bounds[0].(state := Aborted) else d.bounds[0]]
  {
    if ws != [] {
      OneBounds(d, Front(ws), event);
    }
  }

  lemma ReactExpires(d: Disc, cr: Crypto, id: NodeId, limit: Timestamp)
    ensures React(d, cr, id, Expire(limit)) == Purge(d, limit)
  {
  }

  lemma ExpiryTellsTwice(d: Disc, b: BoundsEntry, f: Event)
    requires |d.chains| == 2 && d.chains[0].state.InProgress? && d.chains[0].waiters == [Node, Node] && d.chains[0].start == 0
    requires d.chains[1].state.InProgress? && d.chains[1].start == 0 && d.chains[1].event == f
    requires d.bounds == [b] && b.start == 0 && b.state.InProgress? && b.waiters == [2]
    requires b.event.hash == d.chains[0].event.hash != f.hash && d.answers == []
    ensures BoundsAnswered(Purge(d, 1).answers, 2) == 2
  {
    hide AbortChain, PurgeBounds, PurgeOrders, BoundsAnswered;
    var d1 := AbortChain(d, 0);
    TwiceTold(d, b);
    var d2 := d1.(chains := Remove(d1.chains, 0));
    OtherSilent(d2, f, 2);
    var d3 := AbortChain(d2, 0);
    var d4 := d3.(chains := Remove(d3.chains, 0));
    assert PurgeChains(d, 0, 1) == PurgeChains(d2, 0, 1) == PurgeChains(d4, 0, 1) == d4;
    var d5 := PurgeBounds(d4, 0, 1);
    var d6 := PurgeOrders(d5, 0, 1);
    LastAnswers(d4, d5, d6);
  }

  /** Once nobody waits, expiring bounds and orders tells no bounds client anything more. */
  lemma LastAnswers(d: Disc, d1: Disc, d2: Disc)
    requires d.chains == [] && |d.bounds| == 1 && !d.bounds[0].state.InProgress? && d.bounds[0].start == 0
    requires d1 == PurgeBounds(d, 0, 1) && d2 == PurgeOrders(d1, 0, 1)
    ensures BoundsAnswered(d2.answers, 2) == BoundsAnswered(d.answers, 2)
  {
    hide BoundsAnswered, PurgeOrders;
    assert d1.bounds == [] && d1.answers == d.answers && d1.chains == [];
    PurgeOrdersGrows(d1, 0, 1, 2, 0);
    OrdersOnly(d1, 0, 1);
  }

  lemma {:induction false} OrdersOnly(d: Disc, i: nat, limit: Timestamp)
    requires i <= |d.orders|
    ensures var r := PurgeOrders(d, i, limit); r.bounds == d.bounds && r.chains == d.chains
    decreases |d.orders| - i
  {
    if i < |d.orders| {
      if d.orders[i].start < limit {
        var d1 := if d.orders[i].state.InProgress? then SettleOrder(d, i, d.orders[i].(state := Aborted)) else d;
        OrdersOnly(d1.(orders := Remove(d1.orders, i)), i, limit);
      } else {
        OrdersOnly(d, i + 1, limit);
      }
    }
  }

  /** Aborting the other chain finds no bounds query. */
  lemma OtherSilent(d: Disc, f: Event, t: nat)
    requires |d.chains| == 1 && d.chains[0].event == f && |d.bounds| == 1 && d.bounds[0].event.hash != f.hash
    requires !d.bounds[0].state.InProgress?
    ensures var r := AbortChain(d, 0);
      && |r.chains| == 1 && |r.bounds| == 1 && !r.bounds[0].state.InProgress? && r.bounds[0].start == d.bounds[0].start
      && BoundsAnswered(r.answers, t) == BoundsAnswered(d.answers, t)
  {
    hide TellAllFailed, BoundsAnswered;
    var e := d.chains[0].(state := Aborted);
    var d1 := d.(chains := d.chains[0 := e]);
    assert BoundsAt(d.bounds, f.hash) < 0;
    OtherBoundsStay(d1, e.waiters, f);
    AbortSurplus(d1, e.waiters, f, t);
  }

  lemma {:induction false} OtherBoundsStay(d: Disc, ws: seq<Waiter>, event: Event)
    requires BoundsAt(d.bounds, event.hash) < 0
    ensures TellAllFailed(d, ws, event).bounds == d.bounds
  {
    if ws != [] {
      OtherBoundsStay(d, Front(ws), event);
    }
  }
}
