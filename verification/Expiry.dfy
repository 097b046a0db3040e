/** What expiry leaves: exactly the queries and flood records that are not too old, each chain
    query as it was and each bounds or order query as it was unless a chain query it stands on was
    cut off. Every callback expiry makes reports a failure. */
module Expiry {
  import opened Domain
  import opened Hashing
  import opened Log
  import opened Discovery
  import opened DiscoveryLaws
  import opened Progress
  import opened Moving
  import Answers
  import ChainBuild
  import Validate

  // ---------------------------------------------------------------------------
  // what is kept
  // ---------------------------------------------------------------------------

  function KeptChains(cs: seq<ChainEntry>, limit: Timestamp): seq<ChainEntry> {
    if cs == [] then [] else (if cs[0].start < limit then [] else [cs[0]]) + KeptChains(cs[1..], limit)
  }

  function KeptBounds(bs: seq<BoundsEntry>, limit: Timestamp): seq<BoundsEntry> {
    if bs == [] then [] else (if bs[0].start < limit then [] else [bs[0]]) + KeptBounds(bs[1..], limit)
  }

  function KeptOrders(os: seq<OrderEntry>, limit: Timestamp): seq<OrderEntry> {
    if os == [] then [] else (if os[0].start < limit then [] else [os[0]]) + KeptOrders(os[1..], limit)
  }

  /** The hashes whose chain queries expire while the node itself is waiting on them. */
  ghost predicate CutOff(cs: seq<ChainEntry>, limit: Timestamp, h: Hash) {
    exists e :: e in cs && e.event.hash == h && CutsOff(e, limit)
  }

  ghost predicate CutsOff(e: ChainEntry, limit: Timestamp) {
    e.start < limit && e.state.InProgress? && Node in e.waiters
  }

  ghost function BoundsLeft(cs: seq<ChainEntry>, limit: Timestamp, b: BoundsEntry): BoundsEntry {
    if CutOff(cs, limit, b.event.hash) then b.(state := Aborted) else b
  }

  ghost function OrderLeft(cs: seq<ChainEntry>, limit: Timestamp, o: OrderEntry): OrderEntry {
    if o.state.InProgress? && (CutOff(cs, limit, o.event1.hash) || CutOff(cs, limit, o.event2.hash)) then o.(state := Aborted) else o
  }

  ghost predicate Failure(a: Answer) {
    a.ChainFailed? || a.BoundsFailed? || a.OrderFailed?
  }

  /** The answers of `d`, and after them only failures. */
  ghost predicate FailsOnly(d: Disc, r: Disc) {
    |d.answers| <= |r.answers| && r.answers[..|d.answers|] == d.answers && forall i :: |d.answers| <= i < |r.answers| ==> Failure(r.answers[i])
  }

  lemma FailsThen(a: Disc, b: Disc, c: Disc)
    requires FailsOnly(a, b) && FailsOnly(b, c)
    ensures FailsOnly(a, c)
  {
    assert a.answers == b.answers[..|a.answers|] == c.answers[..|b.answers|][..|a.answers|];
    forall i | |a.answers| <= i < |c.answers|
      ensures Failure(c.answers[i])
    {
      if i < |b.answers| {
        assert c.answers[i] == c.answers[..|b.answers|][i] == b.answers[i];
      }
    }
  }

  // ---------------------------------------------------------------------------
  // one chain query is cut off
  // ---------------------------------------------------------------------------

  /** Bounds and order queries after the chain query for `h` failed under the node. */
  ghost predicate Failing(d: Disc, r: Disc, h: Hash, node: bool) {
    && FailsOnly(d, r) && r.chains == d.chains && |r.bounds| == |d.bounds| && |r.orders| == |d.orders|
    && (forall j :: 0 <= j < |d.bounds| ==> r.bounds[j] == if node && d.bounds[j].event.hash == h then d.bounds[j].(state := Aborted) else d.bounds[j])
    && (forall j :: 0 <= j < |d.orders| ==> r.orders[j] == if node then AbortedOrder(d.orders[j], h) else d.orders[j])
  }

  lemma SettleBoundsFails(d: Disc, i: nat)
    requires i < |d.bounds|
    ensures FailsOnly(d, SettleBounds(d, i, d.bounds[i].(state := Aborted)))
  {
    var b := d.bounds[i].(state := Aborted);
    BoundsFail(b.waiters, b);
  }

  lemma {:induction false} BoundsFail(toks: seq<nat>, b: BoundsEntry)
    ensures forall a :: a in BoundsAnswers(toks, false, b) ==> Failure(a)
  {
    if toks != [] {
      BoundsFail(Front(toks), b);
    }
  }

  lemma {:induction false} OrdersFail(toks: seq<nat>, o: OrderEntry)
    ensures forall a :: a in OrderAnswers(toks, false, o) ==> Failure(a)
  {
    if toks != [] {
      OrdersFail(Front(toks), o);
    }
  }

  lemma SettleOrderFails(d: Disc, i: nat)
    requires i < |d.orders|
    ensures FailsOnly(d, SettleOrder(d, i, d.orders[i].(state := Aborted)))
  {
    var o := d.orders[i].(state := Aborted);
    OrdersFail(o.waiters, o);
  }

  lemma {:induction false} AbortOrdersFails(d: Disc, h: Hash, k: nat)
    requires k <= |d.orders|
    ensures FailsOnly(d, AbortOrders(d, h, k))
  {
    hide FailsOnly, SettleOrder;
    if k == 0 {
      FailsNothing(d, d);
    } else {
      AbortOrdersFails(d, h, k - 1);
      var d1 := AbortOrders(d, h, k - 1);
      SettleOrderFails(d1, k - 1);
      FailsNothing(d1, d1);
      FailsThen(d, d1, AbortOrders(d, h, k));
    }
  }

  lemma FailsNothing(d: Disc, r: Disc)
    requires r.answers == d.answers
    ensures FailsOnly(d, r)
  {
  }

  lemma AbortedFails(d: Disc, event: Event)
    requires OneBounds(d.bounds)
    ensures Failing(d, OnChainAborted(d, event), event.hash, true)
  {
    hide AbortOrders, FailsOnly, OneBounds;
    var h, d1 := event.hash, AbortBounds(d, event.hash);
    var i := BoundsAt(d.bounds, h);
    if i >= 0 {
      SettleBoundsFails(d, i);
    } else {
      FailsNothing(d, d1);
    }
    AbortOrdersFails(d1, h, |d1.orders|);
    AbortOrdersPointwise(d1, h, |d1.orders|);
    FailsThen(d, d1, OnChainAborted(d, event));
    forall j | 0 <= j < |d.bounds|
      ensures (d.bounds[j].event.hash == h) == (j == i)
    {
      Answers.OneBoundsIndex(d.bounds, j);
    }
  }

  lemma {:induction false} TellAllFailedFails(d: Disc, ws: seq<Waiter>, event: Event)
    requires OneBounds(d.bounds)
    ensures Failing(d, TellAllFailed(d, ws, event), event.hash, Node in ws)
  {
    hide FailsOnly, OnChainAborted;
    if ws == [] {
      FailsNothing(d, d);
    } else {
      TellAllFailedFails(d, Front(ws), event);
      assert ws == Front(ws) + [Last(ws)];
      var d1 := TellAllFailed(d, Front(ws), event);
      if Last(ws).Node? {
        AbortedFails(d1, event);
        FailsThen(d, d1, TellAllFailed(d, ws, event));
      } else {
        OneFailure(d1, ChainFailed(Last(ws).tok, event));
        FailsThen(d, d1, TellAllFailed(d, ws, event));
      }
    }
  }

  lemma OneFailure(d: Disc, a: Answer)
    requires Failure(a)
    ensures FailsOnly(d, d.(answers := d.answers + [a]))
  {
  }

  lemma AbortChainFails(d: Disc, i: nat)
    requires OneBounds(d.bounds) && i < |d.chains|
    ensures var r := AbortChain(d, i); var e := d.chains[i];
      && Failing(d.(chains := d.chains[i := e.(state := Aborted)]), r, e.event.hash, Node in e.waiters)
      && r.chains == d.chains[i := e.(state := Aborted)]
  {
    hide Failing, TellAllFailed;
    var e := d.chains[i].(state := Aborted);
    TellAllFailedFails(d.(chains := d.chains[i := e]), e.waiters, e.event);
    FailingChains(d.(chains := d.chains[i := e]), AbortChain(d, i), e.event.hash, Node in e.waiters);
  }

  lemma FailingChains(d: Disc, r: Disc, h: Hash, node: bool)
    requires Failing(d, r, h, node)
    ensures r.chains == d.chains
  {
  }

  // ---------------------------------------------------------------------------
  // the three tables
  // ---------------------------------------------------------------------------

  lemma CutOffSplit(cs: seq<ChainEntry>, limit: Timestamp, h: Hash)
    requires cs != []
    ensures CutOff(cs, limit, h) <==> (cs[0].event.hash == h && CutsOff(cs[0], limit)) || CutOff(cs[1..], limit, h)
  {
    if CutOff(cs, limit, h) {
      var e :| e in cs && e.event.hash == h && CutsOff(e, limit);
      assert e == cs[0] || e in cs[1..];
    }
  }

  /** What is left of a table of chain queries from index `i` on, and of the queries behind it. */
  ghost predicate ChainsPurged(d: Disc, r: Disc, i: nat, limit: Timestamp)
    requires i <= |d.chains|
  {
    && FailsOnly(d, r) && |r.bounds| == |d.bounds| && |r.orders| == |d.orders|
    && r.chains == d.chains[..i] + KeptChains(d.chains[i..], limit)
    && (forall j :: 0 <= j < |d.bounds| ==> r.bounds[j] == BoundsLeft(d.chains[i..], limit, d.bounds[j]))
    && (forall j :: 0 <= j < |d.orders| ==> r.orders[j] == OrderLeft(d.chains[i..], limit, d.orders[j]))
  }

  /** The entry at `i` alone, removed. */
  function Dropped(d: Disc, i: nat): Disc
    requires i < |d.chains|
  {
    var d1 := if d.chains[i].state.InProgress? then AbortChain(d, i) else d;
    d1.(chains := Remove(d1.chains, i))
  }

  lemma DroppedFails(d: Disc, i: nat, limit: Timestamp)
    requires OneBounds(d.bounds) && i < |d.chains| && d.chains[i].start < limit
    ensures var r := Dropped(d, i); var e := d.chains[i];
      && |r.chains| == |d.chains| - 1 && r.chains[..i] == d.chains[..i] && r.chains[i..] == d.chains[i + 1..]
      && Failing(d.(chains := r.chains), r, e.event.hash, CutsOff(e, limit))
  {
    hide FailsOnly, AbortChain;
    if d.chains[i].state.InProgress? {
      AbortChainFails(d, i);
      FailsSame(d.(chains := AbortChain(d, i).chains), AbortChain(d, i), d.(chains := Dropped(d, i).chains), Dropped(d, i));
    } else {
      FailsNothing(d.(chains := Dropped(d, i).chains), Dropped(d, i));
    }
  }

  lemma FailsSame(d: Disc, r: Disc, d': Disc, r': Disc)
    requires FailsOnly(d, r) && d'.answers == d.answers && r'.answers == r.answers
    ensures FailsOnly(d', r')
  {
  }

  lemma {:induction false} PurgeChainsIsExact(d: Disc, i: nat, limit: Timestamp)
    requires OneBounds(d.bounds) && i <= |d.chains|
    ensures ChainsPurged(d, PurgeChains(d, i, limit), i, limit)
    decreases |d.chains| - i
  {
    hide OneBounds, Dropped, Failing, CutsOff, ChainsPurged;
    PurgeStep(d, i, limit);
    if i == |d.chains| {
      NothingPurged(d, limit);
    } else if d.chains[i].start < limit {
      DroppedFails(d, i, limit);
      var d1 := Dropped(d, i);
      OneLeft(d, d1, i, limit);
      PurgeChainsIsExact(d1, i, limit);
      PurgedOne(d, d1, PurgeChains(d1, i, limit), i, limit);
    } else {
      PurgeChainsIsExact(d, i + 1, limit);
      SkippedOne(d, PurgeChains(d, i, limit), i, limit);
    }
  }

  lemma PurgeStep(d: Disc, i: nat, limit: Timestamp)
    requires i <= |d.chains|
    ensures PurgeChains(d, i, limit) ==
      if i == |d.chains| then d else if d.chains[i].start < limit then PurgeChains(Dropped(d, i), i, limit) else PurgeChains(d, i + 1, limit)
  {
    hide AbortChain;
  }

  lemma NothingPurged(d: Disc, limit: Timestamp)
    ensures ChainsPurged(d, d, |d.chains|, limit)
  {
  }

  lemma OneLeft(d: Disc, r: Disc, i: nat, limit: Timestamp)
    requires OneBounds(d.bounds) && i < |d.chains| && Failing(d.(chains := r.chains), r, d.chains[i].event.hash, CutsOff(d.chains[i], limit))
    ensures OneBounds(r.bounds)
  {
  }

  lemma PurgedOne(d: Disc, d1: Disc, r: Disc, i: nat, limit: Timestamp)
    requires i < |d.chains| && d.chains[i].start < limit
    requires |d1.chains| >= i && d1.chains[..i] == d.chains[..i] && d1.chains[i..] == d.chains[i + 1..]
    requires Failing(d.(chains := d1.chains), d1, d.chains[i].event.hash, CutsOff(d.chains[i], limit))
    requires ChainsPurged(d1, r, i, limit)
    ensures ChainsPurged(d, r, i, limit)
  {
    hide FailsOnly, CutsOff, CutOff;
    var cs := d.chains[i..];
    assert cs[1..] == d.chains[i + 1..];
    FailsSame(d.(chains := d1.chains), d1, d, d1);
    FailsThen(d, d1, r);
    forall h
      ensures CutOff(cs, limit, h) <==> (cs[0].event.hash == h && CutsOff(cs[0], limit)) || CutOff(cs[1..], limit, h)
    {
      CutOffSplit(cs, limit, h);
    }
  }

  lemma SkippedOne(d: Disc, r: Disc, i: nat, limit: Timestamp)
    requires i < |d.chains| && d.chains[i].start >= limit && ChainsPurged(d, r, i + 1, limit)
    ensures ChainsPurged(d, r, i, limit)
  {
    hide FailsOnly, CutOff;
    var cs := d.chains[i..];
    assert cs[1..] == d.chains[i + 1..];
    assert d.chains[..i + 1] == d.chains[..i] + [d.chains[i]];
    forall h
      ensures CutOff(cs, limit, h) <==> CutOff(cs[1..], limit, h)
    {
      CutOffSplit(cs, limit, h);
    }
  }

  lemma {:induction false} PurgeBoundsIsExact(d: Disc, i: nat, limit: Timestamp)
    requires i <= |d.bounds|
    ensures var r := PurgeBounds(d, i, limit);
      FailsOnly(d, r) && r.chains == d.chains && r.orders == d.orders && r.bounds == d.bounds[..i] + KeptBounds(d.bounds[i..], limit)
    decreases |d.bounds| - i
  {
    hide FailsOnly;
    if i == |d.bounds| {
      FailsNothing(d, d);
    } else if d.bounds[i].start < limit {
      var d1 := BoundsDropped(d, i);
      PurgeBoundsIsExact(d1, i, limit);
      FailsThen(d, d1, PurgeBounds(d1, i, limit));
    } else {
      PurgeBoundsIsExact(d, i + 1, limit);
      Onward(d.bounds, i);
    }
  }

  lemma BoundsDropped(d: Disc, i: nat) returns (r: Disc)
    requires i < |d.bounds|
    ensures var d1 := if d.bounds[i].state.InProgress? then SettleBounds(d, i, d.bounds[i].(state := Aborted)) else d;
      r == d1.(bounds := Remove(d1.bounds, i))
    ensures FailsOnly(d, r) && r.chains == d.chains && r.orders == d.orders && |r.bounds| == |d.bounds| - 1
    ensures r.bounds[i..] == d.bounds[i..][1..] && r.bounds[..i] == d.bounds[..i]
  {
    hide FailsOnly;
    var d1 := if d.bounds[i].state.InProgress? then SettleBounds(d, i, d.bounds[i].(state := Aborted)) else d;
    r := d1.(bounds := Remove(d1.bounds, i));
    SettleBoundsFails(d, i);
    FailsNothing(d, d);
    FailsSame(d, d1, d, r);
  }

  lemma Onward<T>(s: seq<T>, i: nat)
    requires i < |s|
    ensures s[..i + 1] == s[..i] + [s[i]] && s[i + 1..] == s[i..][1..]
  {
  }

  lemma {:induction false} PurgeOrdersIsExact(d: Disc, i: nat, limit: Timestamp)
    requires i <= |d.orders|
    ensures var r := PurgeOrders(d, i, limit);
      FailsOnly(d, r) && r.chains == d.chains && r.bounds == d.bounds && r.orders == d.orders[..i] + KeptOrders(d.orders[i..], limit)
    decreases |d.orders| - i
  {
    hide FailsOnly;
    if i == |d.orders| {
      FailsNothing(d, d);
    } else if d.orders[i].start < limit {
      var d1 := OrderDropped(d, i);
      PurgeOrdersIsExact(d1, i, limit);
      FailsThen(d, d1, PurgeOrders(d1, i, limit));
    } else {
      PurgeOrdersIsExact(d, i + 1, limit);
      Onward(d.orders, i);
    }
  }

  lemma OrderDropped(d: Disc, i: nat) returns (r: Disc)
    requires i < |d.orders|
    ensures var d1 := if d.orders[i].state.InProgress? then SettleOrder(d, i, d.orders[i].(state := Aborted)) else d;
      r == d1.(orders := Remove(d1.orders, i))
    ensures FailsOnly(d, r) && r.chains == d.chains && r.bounds == d.bounds && |r.orders| == |d.orders| - 1
    ensures r.orders[i..] == d.orders[i..][1..] && r.orders[..i] == d.orders[..i]
  {
    hide FailsOnly;
    var d1 := if d.orders[i].state.InProgress? then SettleOrder(d, i, d.orders[i].(state := Aborted)) else d;
    r := d1.(orders := Remove(d1.orders, i));
    SettleOrderFails(d, i);
    FailsNothing(d, d);
    FailsSame(d, d1, d, r);
  }

  // ---------------------------------------------------------------------------
  // all of it
  // ---------------------------------------------------------------------------

  lemma {:induction false} KeptChainsAre(cs: seq<ChainEntry>, limit: Timestamp, e: ChainEntry)
    ensures e in KeptChains(cs, limit) <==> e in cs && e.start >= limit
  {
    if cs != [] {
      KeptChainsAre(cs[1..], limit, e);
      assert cs == [cs[0]] + cs[1..];
    }
  }

  lemma {:induction false} KeptBoundsAre(bs: seq<BoundsEntry>, limit: Timestamp, b: BoundsEntry)
    ensures b in KeptBounds(bs, limit) <==> b in bs && b.start >= limit
  {
    if bs != [] {
      KeptBoundsAre(bs[1..], limit, b);
      assert bs == [bs[0]] + bs[1..];
    }
  }

  lemma {:induction false} KeptOrdersAre(os: seq<OrderEntry>, limit: Timestamp, o: OrderEntry)
    ensures o in KeptOrders(os, limit) <==> o in os && o.start >= limit
  {
    if os != [] {
      KeptOrdersAre(os[1..], limit, o);
      assert os == [os[0]] + os[1..];
    }
  }

  ghost predicate BoundsSurvives(d: Disc, limit: Timestamp, b: BoundsEntry) {
    exists b0 :: b0 in d.bounds && b0.start >= limit && b == BoundsLeft(d.chains, limit, b0)
  }

  ghost predicate OrderSurvives(d: Disc, limit: Timestamp, o: OrderEntry) {
    exists o0 :: o0 in d.orders && o0.start >= limit && o == OrderLeft(d.chains, limit, o0)
  }

  /** After expiry an entry is there exactly if it was there and is not older than the limit. */
  ghost predicate Expired(d: Disc, r: Disc, limit: Timestamp) {
    && FailsOnly(d, r)
    && (forall e :: e in r.chains <==> e in d.chains && e.start >= limit)
    && (forall b :: b in r.bounds <==> BoundsSurvives(d, limit, b))
    && (forall o :: o in r.orders <==> OrderSurvives(d, limit, o))
  }

  lemma PurgeIsExact(d: Disc, limit: Timestamp)
    requires OneBounds(d.bounds)
    ensures Expired(d, Purge(d, limit), limit)
    ensures Purge(d, limit).chains == KeptChains(d.chains, limit)
  {
    hide FailsOnly, OneBounds, PurgeChains, PurgeBounds, PurgeOrders, BoundsLeft, OrderLeft;
    var d1 := PurgeChains(d, 0, limit);
    PurgeChainsIsExact(d, 0, limit);
    assert d.chains[0..] == d.chains && d.chains[..0] == [];
    var d2 := PurgeBounds(d1, 0, limit);
    PurgeBoundsIsExact(d1, 0, limit);
    assert d1.bounds[0..] == d1.bounds && d1.bounds[..0] == [];
    var r := PurgeOrders(d2, 0, limit);
    PurgeOrdersIsExact(d2, 0, limit);
    assert d2.orders[0..] == d2.orders && d2.orders[..0] == [];
    FailsThen(d, d1, d2);
    FailsThen(d, d2, r);
    forall e
      ensures e in r.chains <==> e in d.chains && e.start >= limit
    {
      KeptChainsAre(d.chains, limit, e);
    }
    forall b
      ensures b in r.bounds <==> BoundsSurvives(d, limit, b)
    {
      KeptBoundsAre(d1.bounds, limit, b);
      BoundsMatch(d, d1, limit, b);
    }
    forall o
      ensures o in r.orders <==> OrderSurvives(d, limit, o)
    {
      KeptOrdersAre(d1.orders, limit, o);
      OrdersMatch(d, d1, limit, o);
    }
  }

  lemma BoundsMatch(d: Disc, d1: Disc, limit: Timestamp, b: BoundsEntry)
    requires |d1.bounds| == |d.bounds| && forall j :: 0 <= j < |d.bounds| ==> d1.bounds[j] == BoundsLeft(d.chains, limit, d.bounds[j])
    ensures b in d1.bounds && b.start >= limit <==> BoundsSurvives(d, limit, b)
  {
    hide CutOff;
    if b in d1.bounds && b.start >= limit {
      var j :| 0 <= j < |d1.bounds| && d1.bounds[j] == b;
      assert d.bounds[j] in d.bounds;
    }
    if BoundsSurvives(d, limit, b) {
      var b0 :| b0 in d.bounds && b0.start >= limit && b == BoundsLeft(d.chains, limit, b0);
      var j :| 0 <= j < |d.bounds| && d.bounds[j] == b0;
      assert d1.bounds[j] == b;
    }
  }

  lemma OrdersMatch(d: Disc, d1: Disc, limit: Timestamp, o: OrderEntry)
    requires |d1.orders| == |d.orders| && forall j :: 0 <= j < |d.orders| ==> d1.orders[j] == OrderLeft(d.chains, limit, d.orders[j])
    ensures o in d1.orders && o.start >= limit <==> OrderSurvives(d, limit, o)
  {
    hide CutOff;
    if o in d1.orders && o.start >= limit {
      var j :| 0 <= j < |d1.orders| && d1.orders[j] == o;
      assert d.orders[j] in d.orders;
    }
    if OrderSurvives(d, limit, o) {
      var o0 :| o0 in d.orders && o0.start >= limit && o == OrderLeft(d.chains, limit, o0);
      var j :| 0 <= j < |d.orders| && d.orders[j] == o0;
      assert d1.orders[j] == o;
    }
  }

  // ---------------------------------------------------------------------------
  // an order query whose finished chain expires first
  // ---------------------------------------------------------------------------

  lemma LookIs(cs: seq<ChainEntry>, e: ChainEntry)
    requires OneChain(cs) && e in cs
    ensures Look(cs, e.event.hash) == Some(e)
  {
    var i :| 0 <= i < |cs| && cs[i] == e;
    OneIndex(cs, i);
  }

  /** After expiry, the chain query behind a hash is the one before, if that is kept. */
  lemma LookAfter(d: Disc, limit: Timestamp, h: Hash)
    requires AllMoving(d, {}) && Look(d.chains, h).Some?
    ensures Look(Purge(d, limit).chains, h) == if Look(d.chains, h).value.start >= limit then Look(d.chains, h) else None
  {
    hide Purge, AllMoving;
    MovingUnique(d);
    PurgeIsExact(d, limit);
    PurgedMoves(d, limit);
    var r, e := Purge(d, limit), Look(d.chains, h).value;
    MovingUnique(r);
    if e.start >= limit {
      LookIs(r.chains, e);
    } else if Look(r.chains, h).Some? {
      LookIs(d.chains, Look(r.chains, h).value);
    }
  }

  lemma MovingUnique(d: Disc)
    requires AllMoving(d, {})
    ensures OneChain(d.chains) && OneBounds(d.bounds) && OneEach(d.orders)
  {
  }

  lemma PurgedMoves(d: Disc, limit: Timestamp)
    requires AllMoving(d, {})
    ensures AllMoving(Purge(d, limit), {})
  {
    hide AllMoving, PurgeChains, PurgeBounds, PurgeOrders;
    PurgeChainsMoves(d, 0, limit);
    PurgeBoundsMoves(PurgeChains(d, 0, limit), 0, limit);
    PurgeOrdersMoves(PurgeBounds(PurgeChains(d, 0, limit), 0, limit), 0, limit);
  }

  /** An order query kept by expiry, of whose two chain queries none is cut off. */
  lemma OrderKept(d: Disc, limit: Timestamp, o: OrderEntry)
    requires AllMoving(d, {}) && o in d.orders && o.start >= limit
    requires forall h :: h == o.event1.hash || h == o.event2.hash ==> Look(d.chains, h).Some? && !CutsOff(Look(d.chains, h).value, limit)
    ensures o in Purge(d, limit).orders
  {
    hide Purge, AllMoving;
    MovingUnique(d);
    PurgeIsExact(d, limit);
    forall e | e in d.chains && (e.event.hash == o.event1.hash || e.event.hash == o.event2.hash)
      ensures !CutsOff(e, limit)
    {
      LookIs(d.chains, e);
    }
    assert OrderLeft(d.chains, limit, o) == o;
    assert OrderSurvives(d, limit, o);
  }

  /** An order query with one chain there (`g`) and the node waiting on the other (`h`). */
  ghost predicate HalfDone(d: Disc, o: OrderEntry, g: Hash, h: Hash) {
    && o in d.orders && o.state.InProgress? && g != h && {g, h} == {o.event1.hash, o.event2.hash}
    && Completes(d.chains, g) && Awaited(d.chains, h)
  }

  /** An order query is half done when expiry comes, itself young enough and so is the chain
      query it still waits on; then that one succeeds. The order query completes if and only if
      its finished chain query was young enough too: otherwise it is left in progress, although
      both chains were found. */
  lemma ExpiryCanLeaveOrderBehind(cr: Crypto, id: NodeId, xs: seq<Input>, limit: Timestamp, ch: EventChain, live: seq<Entry>,
                                  o: OrderEntry, g: Hash, h: Hash) returns (o': OrderEntry)
    requires var d := Run(cr, id, xs); HalfDone(d, o, g, h) && o.start >= limit && Look(d.chains, h).value.start >= limit
    requires ch.event.hash == h && ChainBuild.Enclose(live, id, ch).1 && Validate.Sound(cr, ChainBuild.Enclose(live, id, ch).0, id)
    ensures o' in Run(cr, id, xs + [Expire(limit)] + [Response(ch, live)]).orders
    ensures o'.event1 == o.event1 && o'.event2 == o.event2 && o'.waiters == o.waiters
    ensures o'.state == if Look(Run(cr, id, xs).chains, g).value.start >= limit then Completed else InProgress
  {
    hide Conclude, Purge, ChainBuild.Enclose, Validate.Sound, AllMoving, Compared, Look;
    var d := Run(cr, id, xs);
    RunMoves(cr, id, xs);
    PurgedMoves(d, limit);
    var d1 := Purge(d, limit);
    assert Front(xs + [Expire(limit)]) == xs;
    assert Front(xs + [Expire(limit)] + [Response(ch, live)]) == xs + [Expire(limit)];
    MovingUnique(d1);
    LookAfter(d, limit, g);
    LookAfter(d, limit, h);
    OrderKept(d, limit, o);
    var j :| 0 <= j < |d1.orders| && d1.orders[j] == o;
    var enclosed := ChainBuild.Enclose(live, id, ch).0;
    EncloseSameEvent(live, id, ch);
    var i := FoundAt(d1.chains, h);
    Answers.ChainCompletesOrder(d1, i, enclosed, cr, id, j, OrderFailed(0, o.event1, o.event2));
    o' := Answers.Outcome(d1.chains, o, enclosed);
  }

  lemma FoundAt(cs: seq<ChainEntry>, h: Hash) returns (i: nat)
    requires Look(cs, h).Some?
    ensures i < |cs| && i == ChainAt(cs, h) && cs[i] == Look(cs, h).value
  {
    i := ChainAt(cs, h);
  }
}
