/** The query tables of a node in a running network: nothing is left behind there either, and
    expiry keeps exactly what is young enough. */
module Upkeep {
  import opened Domain
  import opened Hashing
  import opened History
  import opened NodeModel
  import opened Network
  import opened Discovery
  import opened DiscoveryLaws
  import opened Progress
  import opened Moving
  import Expiry
  import Invariant
  import Log
  import Router

  // ---------------------------------------------------------------------------
  // a node's steps are query steps
  // ---------------------------------------------------------------------------

  /** Each step of a node either leaves its queries alone, is one of the inputs they react to,
      or forgets them all. */
  ghost predicate QueryStep(cr: Crypto, s: NodeState, r: NodeState) {
    || r.disc == s.disc
    || r.disc == IDLE.(answers := s.disc.answers)
    || exists x :: r.disc == React(s.disc, cr, s.id, x)
  }

  lemma PacketQueries(s: NodeState, cr: Crypto, from: NodeId, m: Payload, now: Timestamp, rnd: nat -> nat)
    ensures QueryStep(cr, s, OnPacket(s, cr, from, m, now, rnd).0)
  {
    hide ComeHome;
    if Router.IsNeighbor(s.nbrs, from) && m.ChainResponse? && m.originator == s.id {
      assert React(s.disc, cr, s.id, Response(m.eventChain, s.log.live)) == ComeHome(s.disc, cr, s.id, s.log.live, m.eventChain);
    }
  }

  lemma OrderIsAsked(s: NodeState, cr: Crypto, e: Event, e2: Event, range: TimeRange, tok: nat, now: Timestamp, rnd: nat -> nat, rnd2: nat -> nat)
    ensures DiscoverOrder(s, cr, e, e2, range, tok, now, rnd, rnd2).0.disc == AskOrder(s.disc, cr, s.id, s.log.live, e, e2, range, tok, now)
  {
    hide AskChain, Launch;
  }

  lemma EffectQueries(st: Setup, w: World, a: Action)
    requires Enabled(st, w, a) && IsNodeStep(a)
    ensures QueryStep(st.cr, w.nodes[Actor(w, a)], Effect(st, w, a).0)
  {
    hide AskChain, AskBounds, AskOrder, Purge, OnPacket, Launch, NewClock, NewEvent, DiscoverOrder;
    var s := w.nodes[Actor(w, a)];
    match a
    case Deliver(k, now, rnd) => PacketQueries(s, st.cr, w.net[k].from, w.net[k].msg, now, rnd);
    case QueryChain(_, e, range, tok, now, rnd) =>
      assert React(s.disc, st.cr, s.id, ForChain(e, range, tok, now, s.log.live)) == AskChain(s.disc, st.cr, s.id, s.log.live, e, range, Client(tok), now);
    case QueryBounds(_, e, range, tok, now, rnd) =>
      assert React(s.disc, st.cr, s.id, ForBounds(e, range, tok, now, s.log.live)) == AskBounds(s.disc, st.cr, s.id, s.log.live, e, range, tok, now);
    case QueryOrder(_, e, e2, range, tok, now, rnd, rnd2) =>
      OrderIsAsked(s, st.cr, e, e2, range, tok, now, rnd, rnd2);
      assert React(s.disc, st.cr, s.id, ForOrder(e, e2, range, tok, now, s.log.live)) == AskOrder(s.disc, st.cr, s.id, s.log.live, e, e2, range, tok, now);
    case DoExpire(_, now) =>
      assert React(s.disc, st.cr, s.id, Expire(now - s.cfg.expiry)) == Purge(s.disc, now - s.cfg.expiry);
    case _ =>
  }

  lemma QueryStepMoves(cr: Crypto, s: NodeState, r: NodeState)
    requires QueryStep(cr, s, r) && AllMoving(s.disc, {})
    ensures AllMoving(r.disc, {})
  {
    hide AllMoving, React;
    if r.disc == IDLE.(answers := s.disc.answers) {
      IdleMoves();
      MovingAnswers(IDLE, {}, s.disc.answers);
    } else if r.disc != s.disc {
      var x :| r.disc == React(s.disc, cr, s.id, x);
      ReactMoves(s.disc, cr, s.id, x);
    }
  }

  lemma {:induction false} NodeMoves(st: Setup, run: seq<Action>, w: World, n: NodeId)
    requires Runs(st, run, w) && n in w.nodes
    ensures AllMoving(w.nodes[n].disc, {})
  {
    hide AllMoving, Effect, QueryStep;
    if run == [] {
      IdleMoves();
    } else {
      var v :| Runs(st, Front(run), v) && Enabled(st, v, Last(run)) && w == Step(st, v, Last(run));
      if n in v.nodes {
        NodeMoves(st, Front(run), v, n);
      }
      if IsNodeStep(Last(run)) && n == Actor(v, Last(run)) {
        EffectQueries(st, v, Last(run));
        QueryStepMoves(st.cr, v.nodes[n], w.nodes[n]);
      }
    }
  }

  /** In every world of a network, whatever was lost, repeated, expired or restarted: no order
      query is in progress whose two chains the node waited on and has, and a bounds query is in
      progress only while a chain query for its event is. */
  lemma NoQueryIsLeftBehind(st: Setup, w: World, n: NodeId)
    requires Reachable(st, w) && n in w.nodes
    ensures var d := w.nodes[n].disc;
      && (forall o, e1, e2 :: o in d.orders && HoldsBoth(d.chains, o, e1, e2) ==> !o.state.InProgress?)
      && (forall b :: b in d.bounds && b.state.InProgress? ==> AwaitedFor(d.chains, b.event.hash))
  {
    hide Runs;
    var run: seq<Action> :| Runs(st, run, w);
    NodeMoves(st, run, w, n);
    var d := w.nodes[n].disc;
    forall o, e1, e2 | o in d.orders && HoldsBoth(d.chains, o, e1, e2)
      ensures !o.state.InProgress?
    {
      Expiry.LookIs(d.chains, e1);
      Expiry.LookIs(d.chains, e2);
      assert OrderMoves(d.chains, {}, o);
    }
    forall b | b in d.bounds && b.state.InProgress?
      ensures AwaitedFor(d.chains, b.event.hash)
    {
      assert BoundsMoves(d.chains, {}, b);
      assert Look(d.chains, b.event.hash).value in d.chains;
    }
  }

  ghost predicate AwaitedFor(cs: seq<ChainEntry>, h: Hash) {
    exists e :: e in cs && e.event.hash == h && e.state.InProgress? && Node in e.waiters
  }

  // ---------------------------------------------------------------------------
  // expiry
  // ---------------------------------------------------------------------------

  /** In every world of a network, expiry keeps exactly the queries and flood records not older
      than the configured age: chain queries and flood records as they were, bounds and order
      queries as they were unless a chain query they stand on is cut off; it tells clients of
      failures only, and touches nothing else of the node. */
  lemma ExpireAllIsExact(st: Setup, w: World, n: NodeId, now: Timestamp)
    requires Reachable(st, w) && n in w.nodes
    ensures var s := w.nodes[n]; var r, age := ExpireAll(s, now), s.cfg.expiry;
      && r == s.(disc := r.disc, seen := r.seen)
      && (forall e :: e in r.disc.chains <==> e in s.disc.chains && e.start + age >= now)
      && (forall b :: b in r.disc.bounds <==> Expiry.BoundsSurvives(s.disc, now - age, b))
      && (forall o :: o in r.disc.orders <==> Expiry.OrderSurvives(s.disc, now - age, o))
      && (forall k :: k in r.seen <==> k in s.seen && s.seen[k].first + age >= now)
      && (forall k :: k in r.seen ==> r.seen[k] == s.seen[k])
      && Expiry.FailsOnly(s.disc, r.disc)
  {
    hide Runs, Purge, AllMoving, Expiry.FailsOnly, Expiry.BoundsSurvives, Expiry.OrderSurvives;
    var run: seq<Action> :| Runs(st, run, w);
    NodeMoves(st, run, w, n);
    Expiry.MovingUnique(w.nodes[n].disc);
    Expiry.PurgeIsExact(w.nodes[n].disc, now - w.nodes[n].cfg.expiry);
  }

  // ---------------------------------------------------------------------------
  // garbage collection
  // ---------------------------------------------------------------------------

  lemma {:induction false} PruneAllIsExact(log: Log.Log, cfg: NodeConfig, k: nat, chain: nat)
    ensures var r := PruneAll(log, cfg, k);
      && r == log.(live := r.live)
      && Log.OnChain(r.live, chain) == if chain < k then Invariant.Retained(Log.OnChain(log.live, chain), cfg.Keep(chain)) else Log.OnChain(log.live, chain)
  {
    hide Log.Prune, Log.OnChain, Invariant.Retained;
    if k > 0 {
      PruneAllIsExact(log, cfg, k - 1, chain);
      PruneIsExact(PruneAll(log, cfg, k - 1), k - 1, cfg.Keep(k - 1), chain);
    }
  }

  lemma PruneIsExact(log: Log.Log, c: nat, keep: nat, chain: nat)
    ensures var r := Log.Prune(log, c, keep);
      && r == log.(live := r.live)
      && Log.OnChain(r.live, chain) == if chain == c then Invariant.Retained(Log.OnChain(log.live, chain), keep) else Log.OnChain(log.live, chain)
  {
    hide Log.OnChain, Log.KeepNewest;
    Log.KeepNewestOnChain(log.live, c, keep, chain);
  }

  /** Garbage collection leaves, on any log, exactly the newest clock events of each chain that
      its capacity allows, all of a chain without one, and nothing else changes. */
  lemma GcIsExact(s: NodeState, chain: nat)
    ensures var r := Gc(s);
      && r == s.(log := s.log.(live := r.log.live))
      && Log.OnChain(r.log.live, chain) == Invariant.Retained(Log.OnChain(s.log.live, chain), s.cfg.Keep(chain))
  {
    hide PruneAll, Log.OnChain;
    PruneAllIsExact(s.log, s.cfg, |s.cfg.keeps|, chain);
  }
}
