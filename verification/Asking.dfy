/** A query leaves its mark: its entry carries the event, the window, the time it was asked and
    who waits, whatever becomes of it at once; a query for something already asked joins it. */
module Asking {
  import opened Domain
  import opened Hashing
  import opened Log
  import opened Discovery
  import opened DiscoveryLaws
  import opened Progress
  import ChainBuild
  import Validate

  ghost predicate SameBounds(b: BoundsEntry, b': BoundsEntry) {
    b'.start == b.start && b'.event == b.event && b'.waiters == b.waiters
  }

  ghost predicate SameOrder(o: OrderEntry, o': OrderEntry) {
    o'.start == o.start && o'.event1 == o.event1 && o'.event2 == o.event2 && o'.waiters == o.waiters
  }

  /** Who asked what and when stands as it did. */
  ghost predicate SameAsked(d: Disc, r: Disc) {
    && |r.bounds| == |d.bounds| && |r.orders| == |d.orders|
    && (forall j :: 0 <= j < |d.bounds| ==> SameBounds(d.bounds[j], r.bounds[j]))
    && (forall j :: 0 <= j < |d.orders| ==> SameOrder(d.orders[j], r.orders[j]))
  }

  lemma Then(a: Disc, b: Disc, c: Disc)
    requires SameAsked(a, b) && SameAsked(b, c)
    ensures SameAsked(a, c)
  {
  }

  lemma {:induction false} OfferingKeeps(d: Disc, ch: EventChain, k: nat)
    requires k <= |d.orders|
    ensures SameAsked(d, CompleteOrders(d, ch, k))
  {
    if k > 0 {
      OfferingKeeps(d, ch, k - 1);
    }
  }

  lemma CompletedKeeps(d: Disc, ch: EventChain)
    ensures SameAsked(d, OnChainCompleted(d, ch))
  {
    hide CompleteOrders;
    var d1 := CompleteBounds(d, ch);
    OfferingKeeps(d1, ch, |d1.orders|);
  }

  lemma {:induction false} AbortingKeeps(d: Disc, h: Hash, k: nat)
    requires k <= |d.orders|
    ensures SameAsked(d, AbortOrders(d, h, k))
  {
    if k > 0 {
      AbortingKeeps(d, h, k - 1);
    }
  }

  lemma AbortedKeeps(d: Disc, event: Event)
    ensures SameAsked(d, OnChainAborted(d, event))
  {
    hide AbortOrders;
    var d1 := AbortBounds(d, event.hash);
    AbortingKeeps(d1, event.hash, |d1.orders|);
  }

  lemma {:induction false} TellingDoneKeeps(d: Disc, ws: seq<Waiter>, event: Event, ch: EventChain)
    ensures SameAsked(d, TellAllDone(d, ws, event, ch))
  {
    hide OnChainCompleted;
    if ws != [] {
      TellingDoneKeeps(d, Front(ws), event, ch);
      CompletedKeeps(TellAllDone(d, Front(ws), event, ch), ch);
    }
  }

  lemma {:induction false} TellingFailedKeeps(d: Disc, ws: seq<Waiter>, event: Event)
    ensures SameAsked(d, TellAllFailed(d, ws, event))
  {
    hide OnChainAborted;
    if ws != [] {
      TellingFailedKeeps(d, Front(ws), event);
      AbortedKeeps(TellAllFailed(d, Front(ws), event), event);
    }
  }

  /** Concluding a chain query changes its chain and its state only. */
  lemma ConcludingKeeps(d: Disc, i: nat, ch: EventChain, attached: bool, cr: Crypto, id: NodeId)
    requires i < |d.chains|
    ensures var r := Conclude(d, i, ch, attached, cr, id);
      SameAsked(d, r) && exists state :: r.chains == d.chains[i := d.chains[i].(chain := ch, state := state)]
  {
    hide TellAllDone, TellAllFailed, Validate.Sound;
    var state := if attached && Validate.Sound(cr, ch, id) then Completed else Aborted;
    var e := d.chains[i].(chain := ch, state := state);
    var d1 := d.(chains := d.chains[i := e]);
    assert d.chains[i := d.chains[i].(chain := ch)][i := e] == d1.chains;
    TellingDoneKeeps(d1, e.waiters, e.event, ch);
    TellingFailedKeeps(d1, e.waiters, e.event);
  }

  /** The chain entry for a hash, asked by `w` at `now`. */
  ghost predicate AskedChain(e: ChainEntry, event: Event, range: TimeRange, w: Waiter, now: Timestamp) {
    e.event == event && e.range == range && e.start == now && e.waiters == [w]
  }

  /** A chain query is registered under its event: with the window, the time and the asker if it
      is the first; behind the others if one is under way; and not at all if one has settled. */
  lemma ChainIsRegistered(d: Disc, cr: Crypto, id: NodeId, live: seq<Entry>, event: Event, range: TimeRange, w: Waiter, now: Timestamp)
    ensures var r := AskChain(d, cr, id, live, event, range, w, now); var before, after := Look(d.chains, event.hash), Look(r.chains, event.hash);
      && SameAsked(d, r) && after.Some?
      && (before.None? ==> AskedChain(after.value, event, range, w, now))
      && (before.Some? && before.value.state.InProgress? ==> after.value == before.value.(waiters := before.value.waiters + [w]))
      && (before.Some? && !before.value.state.InProgress? ==> r.chains == d.chains)
      && (forall h :: h != event.hash ==> Look(r.chains, h) == Look(d.chains, h))
  {
    hide Look, TellDone, TellFailed, Conclude;
    var i := ChainAt(d.chains, event.hash);
    if i >= 0 {
      var e := d.chains[i];
      LookAt(d.chains, i, event.hash);
      OneTold(d, w, event, e.chain);
      forall h
        ensures Look(d.chains[i := e.(waiters := e.waiters + [w])], h) ==
          if h == event.hash then Some(e.(waiters := e.waiters + [w])) else Look(d.chains, h)
      {
        LookUpdated(d.chains, i, e.(waiters := e.waiters + [w]), h);
      }
    } else {
      var e, at := NewChain(event, range, w, now), |d.chains|;
      LookNone(d.chains, event.hash);
      var d1 := d.(chains := d.chains + [e]);
      forall h
        ensures Look(d1.chains, h) == if h == event.hash then Some(e) else Look(d.chains, h)
      {
        LookAppended(d.chains, e, h);
      }
      if event.creator == id {
        var (ch, attached) := ChainBuild.Enclose(live, id, EventChain(event, [], []));
        ConcludingKeeps(d1, at, ch, attached, cr, id);
        var r := Conclude(d1, at, ch, attached, cr, id);
        var state :| r.chains == d1.chains[at := e.(chain := ch, state := state)];
        assert r.chains == d.chains + [e.(chain := ch, state := state)];
        forall h
          ensures Look(r.chains, h) == if h == event.hash then Some(e.(chain := ch, state := state)) else Look(d.chains, h)
        {
          LookAppended(d.chains, e.(chain := ch, state := state), h);
        }
      }
    }
  }

  lemma OneTold(d: Disc, w: Waiter, event: Event, ch: EventChain)
    ensures SameAsked(d, TellDone(d, w, event, ch)) && SameAsked(d, TellFailed(d, w, event))
  {
    hide OnChainCompleted, OnChainAborted;
    CompletedKeeps(d, ch);
    AbortedKeeps(d, event);
  }

  /** A bounds query nobody asked before is registered with its event, time and asker. */
  lemma BoundsIsRegistered(d: Disc, cr: Crypto, id: NodeId, live: seq<Entry>, event: Event, range: TimeRange, tok: nat, now: Timestamp)
    ensures var r := AskBounds(d, cr, id, live, event, range, tok, now); var i := BoundsAt(d.bounds, event.hash);
      && (i < 0 ==> |r.bounds| == |d.bounds| + 1 && Last(r.bounds).start == now && Last(r.bounds).event == event && Last(r.bounds).waiters == [tok])
      && (i >= 0 && d.bounds[i].state.InProgress? ==>
            && r.bounds == d.bounds[i := d.bounds[i].(waiters := d.bounds[i].waiters + [tok])]
            && r == d.(bounds := r.bounds))
      && (i >= 0 && !d.bounds[i].state.InProgress? ==> r == d.(answers := r.answers))
  {
    hide AskChain, Look;
    if BoundsAt(d.bounds, event.hash) < 0 {
      var d1 := d.(bounds := d.bounds + [BoundsEntry(now, event, 0, 0, InProgress, [tok])]);
      ChainIsRegistered(d1, cr, id, live, event, range, Node, now);
    }
  }

  /** An order query nobody asked before is registered with its events, time and asker. */
  lemma OrderIsRegistered(d: Disc, cr: Crypto, id: NodeId, live: seq<Entry>, event1: Event, event2: Event, range: TimeRange, tok: nat, now: Timestamp)
    ensures var r := AskOrder(d, cr, id, live, event1, event2, range, tok, now); var i := OrderAt(d.orders, event1.hash, event2.hash);
      && (i < 0 ==>
            && |r.orders| == |d.orders| + 1 && Last(r.orders).start == now && Last(r.orders).event1 == event1
            && Last(r.orders).event2 == event2 && Last(r.orders).waiters == [tok])
      && (i >= 0 && d.orders[i].state.InProgress? ==>
            && r.orders == d.orders[i := d.orders[i].(waiters := d.orders[i].waiters + [tok])]
            && r == d.(orders := r.orders))
      && (i >= 0 && !d.orders[i].state.InProgress? ==> r == d.(answers := r.answers))
  {
    hide AskChain, Look;
    if OrderAt(d.orders, event1.hash, event2.hash) < 0 {
      var d1 := d.(orders := d.orders + [OrderEntry(now, event1, event2, Undetermined, InProgress, [tok])]);
      ChainIsRegistered(d1, cr, id, live, event1, range, Node, now);
      var d2 := AskChain(d1, cr, id, live, event1, range, Node, now);
      ChainIsRegistered(d2, cr, id, live, event2, range, Node, now);
      Then(d1, d2, AskChain(d2, cr, id, live, event2, range, Node, now));
    }
  }
}
