/** The discovery tables as the node keeps them: updated in place, answering waiters in loops. */
module Queries {
  import opened Domain
  import opened Hashing
  import opened Log
  import opened Discovery
  import ChainBuild
  import Validate

  class QueryTables {
    var chains: seq<ChainEntry>
    var bounds: seq<BoundsEntry>
    var orders: seq<OrderEntry>
    var answers: seq<Answer>

    ghost function View(): Disc
      reads this
    {
      Disc(chains, bounds, orders, answers)
    }

    constructor ()
      ensures View() == IDLE
    {
      chains, bounds, orders, answers := [], [], [], [];
    }

    // ---- bounds and order queries ----

    /** Store the settled entry and call every waiter back. */
    method FinishBounds(i: nat, e: BoundsEntry)
      requires i < |bounds|
      modifies this
      ensures View() == SettleBounds(old(View()), i, e)
    {
      bounds := bounds[i := e];
      for k := 0 to |e.waiters|
        invariant chains == old(chains) && orders == old(orders) && bounds == old(bounds)[i := e]
        invariant answers == old(answers) + BoundsAnswers(e.waiters[..k], e.state.Completed?, e)
      {
        assert Front(e.waiters[..k + 1]) == e.waiters[..k];
        var a := if e.state.Completed? then BoundsDone(e.waiters[k], e.event, e.lower, e.upper) else BoundsFailed(e.waiters[k], e.event);
        answers := answers + [a];
      }
      assert e.waiters[..|e.waiters|] == e.waiters;
    }

    method FinishOrder(i: nat, e: OrderEntry)
      requires i < |orders|
      modifies this
      ensures View() == SettleOrder(old(View()), i, e)
    {
      orders := orders[i := e];
      for k := 0 to |e.waiters|
        invariant chains == old(chains) && bounds == old(bounds) && orders == old(orders)[i := e]
        invariant answers == old(answers) + OrderAnswers(e.waiters[..k], e.state.Completed?, e)
      {
        assert Front(e.waiters[..k + 1]) == e.waiters[..k];
        var a := if e.state.Completed? then OrderDone(e.waiters[k], e.event1, e.event2, e.order) else OrderFailed(e.waiters[k], e.event1, e.event2);
        answers := answers + [a];
      }
      assert e.waiters[..|e.waiters|] == e.waiters;
    }

    method ChainCompleted(ch: EventChain)
      requires Bounded(ch)
      modifies this
      ensures View() == OnChainCompleted(old(View()), ch)
    {
      var b := BoundsAt(bounds, ch.event.hash);
      if b >= 0 && bounds[b].state.InProgress? {
        FinishBounds(b, bounds[b].(lower := ch.lower[0].timestamp, upper := Last(ch.upper).timestamp, state := Completed));
      }
      ghost var d1 := View();
      assert d1 == Discovery.CompleteBounds(old(View()), ch);
      var n := |orders|;
      for k := 0 to n
        invariant |orders| == n && View() == CompleteOrders(d1, ch, k)
      {
        OfferOrder(k, ch);
      }
    }

    /** One turn of the order loop: complete the query if its other chain is already there. */
    method OfferOrder(k: nat, ch: EventChain)
      requires k < |orders|
      modifies this
      ensures |orders| == |old(orders)|
      ensures View() == Offered(old(View()), k, ch)
    {
      var e := orders[k];
      if !e.state.InProgress? {
        return;
      }
      if e.event1.hash == ch.event.hash {
        var j := ChainAt(chains, e.event2.hash);
        if j >= 0 && chains[j].state.Completed? {
          FinishOrder(k, e.(order := Compared(ch, chains[j].chain), state := Completed));
        }
      } else if e.event2.hash == ch.event.hash {
        var j := ChainAt(chains, e.event1.hash);
        if j >= 0 && chains[j].state.Completed? {
          FinishOrder(k, e.(order := Compared(chains[j].chain, ch), state := Completed));
        }
      }
    }

    method ChainAborted(event: Event)
      modifies this
      ensures View() == OnChainAborted(old(View()), event)
    {
      var b := BoundsAt(bounds, event.hash);
      if b >= 0 {
        FinishBounds(b, bounds[b].(state := Aborted));
      }
      ghost var d1 := View();
      var n := |orders|;
      for k := 0 to n
        invariant |orders| == n && View() == AbortOrders(d1, event.hash, k)
      {
        var e := orders[k];
        if e.state.InProgress? && (e.event1.hash == event.hash || e.event2.hash == event.hash) {
          FinishOrder(k, e.(state := Aborted));
        }
      }
    }

    // ---- chain queries ----

    method TellCompleted(w: Waiter, event: Event, ch: EventChain)
      requires Bounded(ch)
      modifies this
      ensures View() == TellDone(old(View()), w, event, ch)
    {
      match w
      case Node => ChainCompleted(ch);
      case Client(tok) => answers := answers + [ChainDone(tok, event, ch)];
    }

    method TellAborted(w: Waiter, event: Event)
      modifies this
      ensures View() == TellFailed(old(View()), w, event)
    {
      match w
      case Node => ChainAborted(event);
      case Client(tok) => answers := answers + [ChainFailed(tok, event)];
    }

    method Abort(i: nat)
      requires i < |chains|
      modifies this
      ensures View() == AbortChain(old(View()), i)
    {
      var e := chains[i].(state := Aborted);
      chains := chains[i := e];
      ghost var d := View();
      for k := 0 to |e.waiters|
        invariant View() == TellAllFailed(d, e.waiters[..k], e.event)
      {
        assert Front(e.waiters[..k + 1]) == e.waiters[..k];
        TellAborted(e.waiters[k], e.event);
      }
      assert e.waiters[..|e.waiters|] == e.waiters;
    }

    method Complete(i: nat, cr: Crypto, id: NodeId)
      requires i < |chains|
      modifies this
      ensures View() == CompleteChain(old(View()), i, cr, id)
    {
      var v := Validate.VerifyChain(cr, chains[i].chain, id);
      if v.Rejected? {
        Abort(i);
        return;
      }
      var e := chains[i].(state := Completed);
      chains := chains[i := e];
      ghost var d := View();
      for k := 0 to |e.waiters|
        invariant View() == TellAllDone(d, e.waiters[..k], e.event, e.chain)
      {
        assert Front(e.waiters[..k + 1]) == e.waiters[..k];
        TellCompleted(e.waiters[k], e.event, e.chain);
      }
      assert e.waiters[..|e.waiters|] == e.waiters;
    }

    method Finish(i: nat, ch: EventChain, attached: bool, cr: Crypto, id: NodeId)
      requires i < |chains|
      modifies this
      ensures View() == Conclude(old(View()), i, ch, attached, cr, id)
    {
      chains := chains[i := chains[i].(chain := ch)];
      if attached {
        Complete(i, cr, id);
      } else {
        Abort(i);
      }
    }

    /** A second query for the same hash. */
    method JoinChain(i: nat, event: Event, w: Waiter)
      requires i < |chains| && (chains[i].state.Completed? ==> Bounded(chains[i].chain))
      modifies this
      ensures View() == Join(old(View()), i, event, w)
    {
      var e := chains[i];
      match e.state
      case InProgress => chains := chains[i := e.(waiters := e.waiters + [w])];
      case Aborted => TellAborted(w, event);
      case Completed => TellCompleted(w, event, e.chain);
    }

    // ---- expiry ----

    method Expire(limit: Timestamp)
      modifies this
      ensures View() == Purge(old(View()), limit)
    {
      ExpireChains(limit);
      ExpireBounds(limit);
      ExpireOrders(limit);
    }

    method ExpireChains(limit: Timestamp)
      modifies this
      ensures View() == PurgeChains(old(View()), 0, limit)
    {
      var i := 0;
      while i < |chains|
        invariant i <= |chains| && PurgeChains(View(), i, limit) == PurgeChains(old(View()), 0, limit)
        decreases |chains| - i
      {
        if chains[i].start < limit {
          if chains[i].state.InProgress? {
            Abort(i);
          }
          chains := Remove(chains, i);
        } else {
          i := i + 1;
        }
      }
    }

    method ExpireBounds(limit: Timestamp)
      modifies this
      ensures View() == PurgeBounds(old(View()), 0, limit)
    {
      var i := 0;
      while i < |bounds|
        invariant i <= |bounds| && PurgeBounds(View(), i, limit) == PurgeBounds(old(View()), 0, limit)
        decreases |bounds| - i
      {
        if bounds[i].start < limit {
          if bounds[i].state.InProgress? {
            FinishBounds(i, bounds[i].(state := Aborted));
          }
          bounds := Remove(bounds, i);
        } else {
          i := i + 1;
        }
      }
    }

    method ExpireOrders(limit: Timestamp)
      modifies this
      ensures View() == PurgeOrders(old(View()), 0, limit)
    {
      var i := 0;
      while i < |orders|
        invariant i <= |orders| && PurgeOrders(View(), i, limit) == PurgeOrders(old(View()), 0, limit)
        decreases |orders| - i
      {
        if orders[i].start < limit {
          if orders[i].state.InProgress? {
            FinishOrder(i, orders[i].(state := Aborted));
          }
          orders := Remove(orders, i);
        } else {
          i := i + 1;
        }
      }
    }
  }
}
