/** What one discovery can cost the whole network: the fan-out and the forward cap bound the
    requests sent on its behalf, whatever the topology. */
module FloodBound {
  import opened Domain
  import opened Hashing
  import opened History
  import opened NodeModel
  import opened Network
  import Arith
  import Discovery
  import Log
  import ChainBuild
  import Quiescence
  import Router

  type Nodes = map<NodeId, NodeState>

  // ---------------------------------------------------------------------------
  // counting the requests of one discovery
  // ---------------------------------------------------------------------------

  predicate Concerns(m: Payload, o: NodeId, h: Hash) {
    m.ChainRequest? && m.originator == o && m.event.hash == h
  }

  /** The requests in `out` that belong to originator `o`'s discovery of `h`. */
  function Requests(out: seq<Send>, o: NodeId, h: Hash): (n: nat) {
    if out == [] then 0 else Requests(Front(out), o, h) + if Concerns(Last(out).msg, o, h) then 1 else 0
  }

  lemma {:induction false} RequestsConcat(a: seq<Send>, b: seq<Send>, o: NodeId, h: Hash)
    ensures Requests(a + b, o, h) == Requests(a, o, h) + Requests(b, o, h)
  {
    if b == [] {
      assert a + b == a;
    } else {
      assert Front(a + b) == a + Front(b);
      RequestsConcat(a, Front(b), o, h);
    }
  }

  lemma {:induction false} RequestsAtMost(out: seq<Send>, o: NodeId, h: Hash)
    ensures Requests(out, o, h) <= |out|
    ensures (forall x :: x in out ==> !Concerns(x.msg, o, h)) ==> Requests(out, o, h) == 0
  {
    if out != [] {
      RequestsAtMost(Front(out), o, h);
      assert Last(out) in out;
    }
  }

  // ---------------------------------------------------------------------------
  // what a node has spent on it
  // ---------------------------------------------------------------------------

  function Forwarded(s: NodeState, o: NodeId, h: Hash): nat {
    if (o, h) in s.seen then s.seen[(o, h)].forwards else 0
  }

  function Started(s: NodeState, h: Hash): nat {
    if Discovery.ChainAt(s.disc.chains, h) >= 0 then 1 else 0
  }

  /** Floods of the discovery made by this node: re-floods, and the first one at its originator. */
  function Spent(s: NodeState, o: NodeId, h: Hash): nat {
    Forwarded(s, o, h) + if s.id == o then Started(s, h) else 0
  }

  ghost predicate FloodsBoundedBy(cfg: NodeConfig, k: nat, cap: nat) {
    cfg.routing.Flood? && 0 < cfg.fanout <= k && 0 < cfg.forwardCap <= cap
  }

  /** Requests sent are paid for by floods made; what was spent stays spent. */
  ghost predicate PaidFor(s: NodeState, s': NodeState, out: seq<Send>, o: NodeId, h: Hash, k: nat) {
    Requests(out, o, h) + k * Spent(s, o, h) <= k * Spent(s', o, h)
  }

  lemma Pays(sent: nat, a: nat, b: nat, k: nat)
    requires (sent == 0 && a <= b) || (sent <= k && a + 1 <= b)
    ensures sent + k * a <= k * b
  {
    Arith.Mono(a, b, k);
    if a + 1 <= b {
      Arith.Mono(a + 1, b, k);
      assert k * (a + 1) == k * a + k;
    }
  }

  // ---------------------------------------------------------------------------
  // chain entries stay
  // ---------------------------------------------------------------------------

  lemma {:induction false} EntriesStay(cs: seq<Discovery.ChainEntry>, cs': seq<Discovery.ChainEntry>, h: Hash)
    requires |cs| <= |cs'| && forall i :: 0 <= i < |cs| ==> cs[i].event.hash == cs'[i].event.hash
    ensures Discovery.ChainAt(cs, h) >= 0 ==> Discovery.ChainAt(cs', h) >= 0
  {
    var i := Discovery.ChainAt(cs, h);
    if i >= 0 {
      assert cs'[i] in cs';
    }
  }

  lemma ConcludeEntries(d: Discovery.Disc, i: nat, ch: EventChain, attached: bool, cr: Crypto, id: NodeId)
    requires i < |d.chains|
    ensures var r := Discovery.Conclude(d, i, ch, attached, cr, id);
      |r.chains| == |d.chains| && forall j :: 0 <= j < |d.chains| ==> r.chains[j].event == d.chains[j].event
  {
    hide Discovery.TellAllDone, Discovery.TellAllFailed;
  }

  lemma AskStarts(d: Discovery.Disc, cr: Crypto, id: NodeId, live: seq<Log.Entry>, event: Event, range: TimeRange,
                  w: Discovery.Waiter, now: Timestamp, h: Hash)
    ensures var r := Discovery.AskChain(d, cr, id, live, event, range, w, now);
      && (Discovery.ChainAt(d.chains, h) >= 0 ==> Discovery.ChainAt(r.chains, h) >= 0)
      && (event.hash == h ==> Discovery.ChainAt(r.chains, h) >= 0)
  {
    hide Discovery.TellDone, Discovery.TellFailed;
    var i := Discovery.ChainAt(d.chains, event.hash);
    var r := Discovery.AskChain(d, cr, id, live, event, range, w, now);
    if i < 0 {
      var d1 := d.(chains := d.chains + [Discovery.NewChain(event, range, w, now)]);
      if event.creator == id {
        var (ch, attached) := ChainBuild.Enclose(live, id, EventChain(event, [], []));
        ConcludeEntries(d1, |d.chains|, ch, attached, cr, id);
      }
      hide Discovery.Conclude;
      assert r.chains[|d.chains|].event == event;
      assert r.chains[|d.chains|] in r.chains;
    }
    EntriesStay(d.chains, r.chains, h);
  }

  lemma HomeStays(d: Discovery.Disc, cr: Crypto, id: NodeId, live: seq<Log.Entry>, ch: EventChain, h: Hash)
    ensures Discovery.ChainAt(d.chains, h) >= 0 ==> Discovery.ChainAt(Discovery.ComeHome(d, cr, id, live, ch).chains, h) >= 0
  {
    var i := Discovery.ChainAt(d.chains, ch.event.hash);
    if i >= 0 && d.chains[i].state.InProgress? {
      var (enclosed, attached) := ChainBuild.Enclose(live, id, ch);
      ConcludeEntries(d, i, enclosed, attached, cr, id);
      hide Discovery.Conclude;
      EntriesStay(d.chains, Discovery.ComeHome(d, cr, id, live, ch).chains, h);
    }
  }

  // ---------------------------------------------------------------------------
  // each operation pays
  // ---------------------------------------------------------------------------

  lemma FloodCounts(s: NodeState, m: Payload, rnd: nat -> nat, o: NodeId, h: Hash, k: nat, cap: nat)
    requires m.ChainRequest? && FloodsBoundedBy(s.cfg, k, cap)
    ensures Requests(FloodRequest(s, m, rnd), o, h) <= k
    ensures m.originator != o || m.event.hash != h ==> Requests(FloodRequest(s, m, rnd), o, h) == 0
  {
    Quiescence.FloodAtMost(s, m, rnd);
    RequestsAtMost(FloodRequest(s, m, rnd), o, h);
  }

  lemma RetraceCounts(s: NodeState, whose: NodeId, ch: EventChain, path: seq<NodeId>, o: NodeId, h: Hash)
    ensures Requests(Retrace(s, whose, ch, path), o, h) == 0
  {
    RequestsAtMost(Retrace(s, whose, ch, path), o, h);
  }

  lemma RequestPays(s: NodeState, from: NodeId, m: Payload, now: Timestamp, rnd: nat -> nat, o: NodeId, h: Hash, k: nat, cap: nat)
    requires m.ChainRequest? && FloodsBoundedBy(s.cfg, k, cap)
    ensures var (s', out) := OnRequest(s, from, m, now, rnd);
      PaidFor(s, s', out, o, h, k) && (Forwarded(s, o, h) <= cap ==> Forwarded(s', o, h) <= cap)
  {
    hide FloodRequest, Retrace;
    var (s', out) := OnRequest(s, from, m, now, rnd);
    FloodCounts(s, m, rnd, o, h, k, cap);
    forall ch {
      RetraceCounts(s, m.originator, ch, m.path, o, h);
    }
    Pays(Requests(out, o, h), Spent(s, o, h), Spent(s', o, h), k);
  }

  lemma ResponsePays(s: NodeState, cr: Crypto, from: NodeId, m: Payload, o: NodeId, h: Hash, k: nat)
    requires m.ChainResponse?
    ensures var (s', out) := OnResponse(s, cr, from, m);
      PaidFor(s, s', out, o, h, k) && Forwarded(s', o, h) == Forwarded(s, o, h)
  {
    hide Retrace, Discovery.ComeHome;
    var (s', out) := OnResponse(s, cr, from, m);
    forall ch {
      RetraceCounts(s, m.originator, ch, m.path, o, h);
    }
    HomeStays(s.disc, cr, s.id, s.log.live, m.eventChain, h);
    Pays(Requests(out, o, h), Spent(s, o, h), Spent(s', o, h), k);
  }

  lemma ChainQueryPays(s: NodeState, cr: Crypto, event: Event, range: TimeRange, w: Discovery.Waiter, now: Timestamp, rnd: nat -> nat,
                       o: NodeId, h: Hash, k: nat, cap: nat)
    requires FloodsBoundedBy(s.cfg, k, cap)
    ensures var (s', out) := DiscoverChain(s, cr, event, range, w, now, rnd);
      PaidFor(s, s', out, o, h, k) && Forwarded(s', o, h) == Forwarded(s, o, h)
  {
    hide FloodRequest, Discovery.AskChain;
    var (s', out) := DiscoverChain(s, cr, event, range, w, now, rnd);
    AskStarts(s.disc, cr, s.id, s.log.live, event, range, w, now, h);
    FloodCounts(s, Request(s, event, range), rnd, o, h, k, cap);
    Pays(Requests(out, o, h), Spent(s, o, h), Spent(s', o, h), k);
  }

  lemma BoundsQueryPays(s: NodeState, cr: Crypto, event: Event, range: TimeRange, tok: nat, now: Timestamp, rnd: nat -> nat,
                        o: NodeId, h: Hash, k: nat, cap: nat)
    requires FloodsBoundedBy(s.cfg, k, cap)
    ensures var (s', out) := DiscoverBounds(s, cr, event, range, tok, now, rnd);
      PaidFor(s, s', out, o, h, k) && Forwarded(s', o, h) == Forwarded(s, o, h)
  {
    hide FloodRequest, Discovery.AskChain;
    var (s', out) := DiscoverBounds(s, cr, event, range, tok, now, rnd);
    if Discovery.BoundsAt(s.disc.bounds, event.hash) < 0 {
      var d1 := s.disc.(bounds := s.disc.bounds + [Discovery.BoundsEntry(now, event, 0, 0, Discovery.InProgress, [tok])]);
      AskStarts(d1, cr, s.id, s.log.live, event, range, Discovery.Node, now, h);
      FloodCounts(s, Request(s, event, range), rnd, o, h, k, cap);
    }
    Pays(Requests(out, o, h), Spent(s, o, h), Spent(s', o, h), k);
  }

  lemma OrderQueryPays(s: NodeState, cr: Crypto, e1: Event, e2: Event, range: TimeRange, tok: nat, now: Timestamp,
                       rnd1: nat -> nat, rnd2: nat -> nat, o: NodeId, h: Hash, k: nat, cap: nat)
    requires FloodsBoundedBy(s.cfg, k, cap)
    ensures var (s', out) := DiscoverOrder(s, cr, e1, e2, range, tok, now, rnd1, rnd2);
      PaidFor(s, s', out, o, h, k) && Forwarded(s', o, h) == Forwarded(s, o, h)
  {
    hide FloodRequest, Discovery.AskChain, Launch;
    if Discovery.OrderAt(s.disc.orders, e1.hash, e2.hash) < 0 {
      var s1 := s.(disc := s.disc.(orders := s.disc.orders + [Discovery.OrderEntry(now, e1, e2, Undetermined, Discovery.InProgress, [tok])]));
      var (s2, out1) := DiscoverChain(s1, cr, e1, range, Discovery.Node, now, rnd1);
      var (s3, out2) := DiscoverChain(s2, cr, e2, range, Discovery.Node, now, rnd2);
      ChainQueryPays(s1, cr, e1, range, Discovery.Node, now, rnd1, o, h, k, cap);
      ChainQueryPays(s2, cr, e2, range, Discovery.Node, now, rnd2, o, h, k, cap);
      RequestsConcat(out1, out2, o, h);
    }
  }

  lemma {:induction false} NotificationsCount(nbrs: seq<Neighbor>, c: ClockEvent, o: NodeId, h: Hash)
    ensures Requests(Notifications(nbrs, c), o, h) == 0
  {
    RequestsAtMost(Notifications(nbrs, c), o, h);
  }

  /** The step forgets neither the discovery's dedup entry nor its originator's chain entry. */
  ghost predicate Remembers(s: NodeState, s': NodeState, o: NodeId, h: Hash) {
    ((o, h) in s.seen ==> (o, h) in s'.seen) && Started(s, h) <= Started(s', h)
  }

  /** An expiry or a restart drops the discovery's dedup entry or its originator's chain entry. */
  ghost predicate Forgets(st: Setup, w: World, a: Action, o: NodeId, h: Hash)
    requires Enabled(st, w, a)
  {
    (a.DoExpire? || a.Restart?) && !Remembers(w.nodes[a.n], Effect(st, w, a).0, o, h)
  }

  lemma EffectPays(st: Setup, w: World, a: Action, o: NodeId, h: Hash, k: nat, cap: nat)
    requires Enabled(st, w, a) && IsNodeStep(a) && FloodsBoundedBy(w.nodes[Actor(w, a)].cfg, k, cap)
    requires !Forgets(st, w, a, o, h)
    ensures var s, (s', out) := w.nodes[Actor(w, a)], Effect(st, w, a);
      PaidFor(s, s', out, o, h, k) && (Forwarded(s, o, h) <= cap ==> Forwarded(s', o, h) <= cap)
  {
    hide OnRequest, OnResponse, DiscoverChain, DiscoverBounds, DiscoverOrder, OnNotification, Notifications, NewClock, NewEvent;
    var s := w.nodes[Actor(w, a)];
    if a.Deliver? {
      var p := w.net[a.k];
      if p.msg.ChainRequest? {
        RequestPays(s, p.from, p.msg, a.now, a.rnd, o, h, k, cap);
      } else if p.msg.ChainResponse? {
        ResponsePays(s, st.cr, p.from, p.msg, o, h, k);
      } else {
        NotificationPays(s, p.from, p.msg.chain, p.msg.hash, p.msg.theirs, o, h, k);
      }
    } else if a.QueryChain? {
      ChainQueryPays(s, st.cr, a.event, a.range, Discovery.Client(a.tok), a.now, a.rnd, o, h, k, cap);
    } else if a.QueryBounds? {
      BoundsQueryPays(s, st.cr, a.event, a.range, a.tok, a.now, a.rnd, o, h, k, cap);
    } else if a.QueryOrder? {
      OrderQueryPays(s, st.cr, a.event, a.event2, a.range, a.tok, a.now, a.rnd, a.rnd2, o, h, k, cap);
    } else if a.DoTick? {
      NotificationsCount(s.nbrs, NewClock(s, st.cr, a.chain, a.salt, a.now), o, h);
    } else if a.DoExpire? {
      ExpiryPays(s, a.now, o, h, k);
    } else if a.Restart? {
      RestartPays(s, o, h, k);
    }
  }

  lemma RestartPays(s: NodeState, o: NodeId, h: Hash, k: nat)
    requires Remembers(s, Restarted(s), o, h)
    ensures PaidFor(s, Restarted(s), [], o, h, k) && Forwarded(Restarted(s), o, h) == Forwarded(s, o, h)
  {
    Pays(0, Spent(s, o, h), Spent(Restarted(s), o, h), k);
  }

  /** A step that forgets sends nothing, and forgets no more than one flood and `cap` re-floods. */
  lemma ForgettingCosts(st: Setup, w: World, a: Action, o: NodeId, h: Hash, k: nat, cap: nat)
    requires Enabled(st, w, a) && Forgets(st, w, a, o, h) && Forwarded(w.nodes[a.n], o, h) <= cap
    ensures var s, (s', out) := w.nodes[a.n], Effect(st, w, a);
      && Requests(out, o, h) == 0 && Spent(s, o, h) <= Spent(s', o, h) + (1 + cap)
      && Forwarded(s', o, h) <= Forwarded(s, o, h)
  {
  }

  lemma NotificationPays(s: NodeState, from: NodeId, chain: nat, hash: Hash, theirs: Hash, o: NodeId, h: Hash, k: nat)
    ensures var s' := OnNotification(s, from, chain, hash, theirs);
      PaidFor(s, s', [], o, h, k) && Forwarded(s', o, h) == Forwarded(s, o, h)
  {
  }

  lemma ExpiryPays(s: NodeState, now: Timestamp, o: NodeId, h: Hash, k: nat)
    requires Remembers(s, ExpireAll(s, now), o, h)
    ensures PaidFor(s, ExpireAll(s, now), [], o, h, k) && Forwarded(ExpireAll(s, now), o, h) == Forwarded(s, o, h)
  {
    hide Discovery.Purge;
    Pays(0, Spent(s, o, h), Spent(ExpireAll(s, now), o, h), k);
  }

  /** What a step makes its node forget. */
  ghost function Lost(st: Setup, w: World, a: Action, o: NodeId, h: Hash, cap: nat): nat
    requires Enabled(st, w, a)
  {
    if Forgets(st, w, a, o, h) then 1 + cap else 0
  }

  lemma EffectCost(st: Setup, w: World, a: Action, o: NodeId, h: Hash, k: nat, cap: nat)
    requires Enabled(st, w, a) && IsNodeStep(a)
    requires FloodsBoundedBy(w.nodes[Actor(w, a)].cfg, k, cap) && Forwarded(w.nodes[Actor(w, a)], o, h) <= cap
    ensures var s, (s', out) := w.nodes[Actor(w, a)], Effect(st, w, a);
      && Requests(out, o, h) + k * Spent(s, o, h) <= k * (Spent(s', o, h) + Lost(st, w, a, o, h, cap))
      && Forwarded(s', o, h) <= cap
  {
    hide Effect, Spent, Forwarded, Requests, Remembers, FloodsBoundedBy;
    if Forgets(st, w, a, o, h) {
      ForgettingCosts(st, w, a, o, h, k, cap);
      Arith.Mono(Spent(w.nodes[a.n], o, h), Spent(Effect(st, w, a).0, o, h) + (1 + cap), k);
    } else {
      EffectPays(st, w, a, o, h, k, cap);
    }
  }

  // ---------------------------------------------------------------------------
  // across the network
  // ---------------------------------------------------------------------------

  ghost function TotalSpent(nodes: Nodes, ids: seq<NodeId>, o: NodeId, h: Hash): nat
    requires forall x :: x in ids ==> x in nodes
  {
    if ids == [] then 0 else TotalSpent(nodes, Front(ids), o, h) + Spent(nodes[Last(ids)], o, h)
  }

  ghost predicate Enumerates(ids: seq<NodeId>, nodes: Nodes) {
    Router.Distinct(ids) && (forall x :: x in ids ==> x in nodes) && forall x :: x in nodes ==> x in ids
  }

  lemma {:induction false} SpentElsewhere(nodes: Nodes, ids: seq<NodeId>, n: NodeId, s: NodeState, o: NodeId, h: Hash)
    requires (forall x :: x in ids ==> x in nodes) && n !in ids
    ensures TotalSpent(nodes[n := s], ids, o, h) == TotalSpent(nodes, ids, o, h)
  {
    if ids != [] {
      SpentElsewhere(nodes, Front(ids), n, s, o, h);
    }
  }

  lemma {:induction false} SpentHere(nodes: Nodes, ids: seq<NodeId>, n: NodeId, s: NodeState, o: NodeId, h: Hash)
    requires Router.Distinct(ids) && (forall x :: x in ids ==> x in nodes) && n in ids
    ensures TotalSpent(nodes[n := s], ids, o, h) + Spent(nodes[n], o, h) == TotalSpent(nodes, ids, o, h) + Spent(s, o, h)
  {
    if Last(ids) == n {
      SpentElsewhere(nodes, Front(ids), n, s, o, h);
    } else {
      SpentHere(nodes, Front(ids), n, s, o, h);
    }
  }

  lemma StartedOnce(s: NodeState, h: Hash)
    ensures Started(s, h) <= 1
  {
  }

  /** Every node re-floods at most `cap` times, and only the originator starts. */
  lemma {:induction false} SpentAtMost(nodes: Nodes, ids: seq<NodeId>, o: NodeId, h: Hash, cap: nat)
    requires Router.Distinct(ids)
    requires forall x :: x in ids ==> x in nodes && nodes[x].id == x && Forwarded(nodes[x], o, h) <= cap
    ensures TotalSpent(nodes, ids, o, h) <= |ids| * cap + if o in ids then 1 else 0
  {
    hide Forwarded, Started;
    if ids != [] {
      SpentAtMost(nodes, Front(ids), o, h, cap);
      assert Last(ids) in ids;
      StartedOnce(nodes[Last(ids)], h);
      Arith.OneMore(|Front(ids)|, cap);
    }
  }

  lemma {:induction false} Enumerate(s: set<NodeId>) returns (ids: seq<NodeId>)
    ensures Router.Distinct(ids) && (forall x :: x in ids <==> x in s) && |ids| == |s|
  {
    if s == {} {
      ids := [];
    } else {
      var x :| x in s;
      ids := Enumerate(s - {x});
      ids := ids + [x];
    }
  }

  // ---------------------------------------------------------------------------
  // whole runs
  // ---------------------------------------------------------------------------

  /** The worlds a run passes through. */
  ghost predicate Trace(st: Setup, run: seq<Action>, ws: seq<World>) {
    && |ws| == |run| + 1 && ws[0] == Start(st)
    && forall i :: 0 <= i < |run| ==> Leads(st, ws[i], run[i], ws[i + 1])
  }

  ghost predicate Leads(st: Setup, w: World, a: Action, v: World) {
    Enabled(st, w, a) && v == Step(st, w, a)
  }

  ghost function Emitted(st: Setup, w: World, a: Action): seq<Send>
    requires Enabled(st, w, a)
  {
    if IsNodeStep(a) then Effect(st, w, a).1 else []
  }

  /** The requests sent for the discovery in the first `t` steps. */
  ghost function TotalRequests(st: Setup, run: seq<Action>, ws: seq<World>, t: nat, o: NodeId, h: Hash): nat
    requires Trace(st, run, ws) && t <= |run|
  {
    if t == 0 then 0
    else
      assert Leads(st, ws[t - 1], run[t - 1], ws[t]);
      TotalRequests(st, run, ws, t - 1, o, h) + Requests(Emitted(st, ws[t - 1], run[t - 1]), o, h)
  }

  /** How many of the first `t` steps forget an entry of the discovery. */
  ghost function Forgotten(st: Setup, run: seq<Action>, ws: seq<World>, t: nat, o: NodeId, h: Hash): nat
    requires Trace(st, run, ws) && t <= |run|
  {
    if t == 0 then 0
    else
      assert Leads(st, ws[t - 1], run[t - 1], ws[t]);
      Forgotten(st, run, ws, t - 1, o, h) + if Forgets(st, ws[t - 1], run[t - 1], o, h) then 1 else 0
  }

  ghost predicate AllBounded(cfg: map<NodeId, NodeConfig>, k: nat, cap: nat) {
    forall n :: n in cfg ==> FloodsBoundedBy(cfg[n], k, cap)
  }

  /** What the count relies on at every world of the run. */
  ghost predicate Accounted(st: Setup, w: World, o: NodeId, h: Hash, cap: nat) {
    && w.nodes.Keys == st.cfg.Keys
    && forall n :: n in w.nodes ==> w.nodes[n].id == n && w.nodes[n].cfg == st.cfg[n] && Forwarded(w.nodes[n], o, h) <= cap
  }

  lemma EffectKeepsSelf(st: Setup, w: World, a: Action)
    requires Enabled(st, w, a) && IsNodeStep(a)
    ensures var s := w.nodes[Actor(w, a)]; Effect(st, w, a).0.id == s.id && Effect(st, w, a).0.cfg == s.cfg
  {
    hide NewClock, NewEvent;
  }

  lemma StepPays(st: Setup, w: World, a: Action, ids: seq<NodeId>, o: NodeId, h: Hash, k: nat, cap: nat)
    requires Enabled(st, w, a) && AllBounded(st.cfg, k, cap) && Accounted(st, w, o, h, cap) && Enumerates(ids, w.nodes)
    ensures var v := Step(st, w, a);
      && Accounted(st, v, o, h, cap) && Enumerates(ids, v.nodes)
      && Requests(Emitted(st, w, a), o, h) + k * TotalSpent(w.nodes, ids, o, h) <= k * (TotalSpent(v.nodes, ids, o, h) + Lost(st, w, a, o, h, cap))
  {
    hide Effect, Enabled, Spent, Forwarded, Requests, TotalSpent, FloodsBoundedBy, Lost, Posted, Recorded, TrailOf;
    if IsNodeStep(a) {
      ActorIsNode(st, w, a);
      var n := Actor(w, a);
      var (s, out) := Effect(st, w, a);
      EffectKeepsSelf(st, w, a);
      EffectCost(st, w, a, o, h, k, cap);
      OneNodePays(w.nodes, n, s, out, ids, o, h, k, Lost(st, w, a, o, h, cap));
    } else {
      RequestsAtMost([], o, h);
      Arith.Mono(TotalSpent(w.nodes, ids, o, h), TotalSpent(w.nodes, ids, o, h) + Lost(st, w, a, o, h, cap), k);
    }
  }

  lemma OneNodePays(nodes: Nodes, n: NodeId, s: NodeState, out: seq<Send>, ids: seq<NodeId>, o: NodeId, h: Hash, k: nat, lost: nat)
    requires Enumerates(ids, nodes) && n in nodes
    requires Requests(out, o, h) + k * Spent(nodes[n], o, h) <= k * (Spent(s, o, h) + lost)
    ensures Enumerates(ids, nodes[n := s])
    ensures Requests(out, o, h) + k * TotalSpent(nodes, ids, o, h) <= k * (TotalSpent(nodes[n := s], ids, o, h) + lost)
  {
    hide Spent, Requests;
    SpentHere(nodes, ids, n, s, o, h);
    Distribute(k, TotalSpent(nodes, ids, o, h), TotalSpent(nodes[n := s], ids, o, h) + lost, Spent(nodes[n], o, h), Spent(s, o, h) + lost);
  }

  lemma Distribute(k: nat, before: nat, after: nat, was: nat, now: nat)
    requires after + was == before + now
    ensures k * after - k * before == k * now - k * was
  {
    assert k * (after - before) == k * (now - was);
  }

  lemma ActorIsNode(st: Setup, w: World, a: Action)
    requires Enabled(st, w, a) && IsNodeStep(a)
    ensures a.Deliver? ==> a.k < |w.net|
    ensures Actor(w, a) in w.nodes
  {
  }

  lemma {:induction false} RunPays(st: Setup, run: seq<Action>, ws: seq<World>, t: nat, ids: seq<NodeId>, o: NodeId, h: Hash, k: nat, cap: nat)
    requires Trace(st, run, ws) && t <= |run| && AllBounded(st.cfg, k, cap)
    requires Enumerates(ids, ws[0].nodes)
    ensures Accounted(st, ws[t], o, h, cap) && Enumerates(ids, ws[t].nodes)
    ensures TotalRequests(st, run, ws, t, o, h) <= k * (TotalSpent(ws[t].nodes, ids, o, h) + (1 + cap) * Forgotten(st, run, ws, t, o, h))
  {
    hide Effect, Enabled, Step, TotalSpent, Forgets, Emitted;
    if t > 0 {
      RunPays(st, run, ws, t - 1, ids, o, h, k, cap);
      var w, a := ws[t - 1], run[t - 1];
      assert Leads(st, w, a, ws[t]);
      StepPays(st, w, a, ids, o, h, k, cap);
      Carry(k, cap, TotalRequests(st, run, ws, t - 1, o, h), TotalRequests(st, run, ws, t, o, h) - TotalRequests(st, run, ws, t - 1, o, h),
            TotalSpent(w.nodes, ids, o, h), TotalSpent(ws[t].nodes, ids, o, h), Forgotten(st, run, ws, t - 1, o, h), Forgets(st, w, a, o, h));
    }
  }

  lemma Carry(k: nat, cap: nat, sent: nat, more: nat, before: nat, after: nat, lost: nat, forgets: bool)
    requires sent <= k * (before + (1 + cap) * lost)
    requires more + k * before <= k * (after + if forgets then 1 + cap else 0)
    ensures sent + more <= k * (after + (1 + cap) * (lost + if forgets then 1 else 0))
  {
    var x := (1 + cap) * lost;
    var y := if forgets then 1 + cap else 0;
    assert (1 + cap) * (lost + if forgets then 1 else 0) == x + y;
    assert k * (before + x) == k * before + k * x;
    assert k * (after + y) + k * x == k * (after + (x + y));
  }

  lemma Capped(k: nat, cap: nat, n: nat, spent: nat, lost: nat)
    requires spent <= n * cap + 1
    ensures k * (spent + (1 + cap) * lost) <= k * (1 + n * cap + (1 + cap) * lost)
  {
    var x := (1 + cap) * lost;
    Arith.Mono(spent + x, 1 + n * cap + x, k);
  }

  /** One discovery, fan-out at most `k`, forward cap at most `cap`: at most k * (1 + N * cap)
      requests across the N nodes, and at most k * (1 + cap) more for each expiry or restart
      that makes a node forget it. */
  lemma FloodIsBounded(st: Setup, run: seq<Action>, ws: seq<World>, o: NodeId, h: Hash, k: nat, cap: nat)
    requires Trace(st, run, ws) && AllBounded(st.cfg, k, cap)
    ensures TotalRequests(st, run, ws, |run|, o, h) <= k * (1 + |st.cfg| * cap + (1 + cap) * Forgotten(st, run, ws, |run|, o, h))
  {
    hide Leads, TotalRequests, Forgotten;
    var ids := Enumerate(st.cfg.Keys);
    RunPays(st, run, ws, |run|, ids, o, h, k, cap);
    var nodes := ws[|run|].nodes;
    SpentAtMost(nodes, ids, o, h, cap);
    assert |st.cfg.Keys| == |st.cfg|;
    Capped(k, cap, |st.cfg|, TotalSpent(nodes, ids, o, h), Forgotten(st, run, ws, |run|, o, h));
  }

  /** A node left to its defaults: flooding, with no cap set. */
  ghost predicate ByDefault(c: NodeConfig) {
    exists d: NodeConfig :: d.routing.Flood? && d.fanout == 0 && d.forwardCap == 0 && c == d.Normalized()
  }

  /** Left to their defaults, N nodes spend at most 8 * (1 + 8 * N) requests on a discovery that
      no node forgets: enabling the flood cannot set off an unbounded one. */
  lemma DefaultFloodIsBounded(st: Setup, run: seq<Action>, ws: seq<World>, o: NodeId, h: Hash)
    requires Trace(st, run, ws) && forall n :: n in st.cfg ==> ByDefault(st.cfg[n])
    requires Forgotten(st, run, ws, |run|, o, h) == 0
    ensures TotalRequests(st, run, ws, |run|, o, h) <= 8 * (1 + 8 * |st.cfg|)
  {
    hide TotalRequests, Forgotten;
    FloodIsBounded(st, run, ws, o, h, 8, 8);
  }
}
