/** One node as a value, and what each of its operations does to it and sends. */
module NodeModel {
  import opened Domain
  import opened Hashing
  import opened Log
  import opened Discovery
  import ChainBuild
  import Overlay
  import Router

  datatype Payload =
    | ClockNotification(chain: nat, hash: Hash, theirs: Hash)
    | ChainRequest(originator: NodeId, event: EventReference, range: TimeRange, hopLimit: nat, path: seq<NodeId>)
    | ChainResponse(originator: NodeId, eventChain: EventChain, path: seq<NodeId>)

  datatype Send = Send(to: NodeId, msg: Payload)

  /** How often one discovery was re-flooded here, and when first. */
  datatype Seen = Seen(first: Timestamp, forwards: nat)

  type SeenTable = map<(NodeId, Hash), Seen>

  datatype NodeState = NodeState(id: NodeId, cfg: NodeConfig, log: Log, nbrs: seq<Neighbor>,
                                 routes: map<NodeId, NodeId>, timed: Router.RouteTable,
                                 tails: seq<seq<Event>>, seen: SeenTable, disc: Disc)

  function Fresh(id: NodeId, cfg: NodeConfig): (s: NodeState) {
    NodeState(id, cfg, EMPTY_LOG, [], map[], map[], seq(cfg.NumChains(), i => []), map[], IDLE)
  }

  // ---------------------------------------------------------------------------
  // overlay
  // ---------------------------------------------------------------------------

  function NeighborAt(nbrs: seq<Neighbor>, id: NodeId): (i: int)
    ensures -1 <= i < |nbrs|
    ensures i >= 0 ==> nbrs[i].id == id
    ensures i >= 0 <==> Router.IsNeighbor(nbrs, id)
  {
    if nbrs == [] then -1
    else if Last(nbrs).id == id then |nbrs| - 1
    else
      var i := NeighborAt(Front(nbrs), id);
      assert Router.IsNeighbor(nbrs, id) ==> Router.IsNeighbor(Front(nbrs), id) by {
        if Router.IsNeighbor(nbrs, id) {
          var k :| 0 <= k < |nbrs| && nbrs[k].id == id;
          assert Front(nbrs)[k].id == id;
        }
      }
      i
  }

  /** The neighbour table holds one record per id. */
  function PutNeighbor(nbrs: seq<Neighbor>, n: Neighbor): (r: seq<Neighbor>)
    ensures n in r && forall x :: x in nbrs && x.id != n.id ==> x in r
  {
    var i := NeighborAt(nbrs, n.id);
    if i < 0 then Overlay.Placed(nbrs, n)
    else
      var r := nbrs[i := n];
      assert r[i] == n && forall k :: 0 <= k < |nbrs| && k != i ==> r[k] == nbrs[k];
      r
  }

  function AddNeighbor(s: NodeState, m: NodeId): (r: NodeState) {
    if Router.IsNeighbor(s.nbrs, m) then s else s.(nbrs := Overlay.Placed(s.nbrs, Neighbor(m, [])))
  }

  function LearnRoute(s: NodeState, dest: NodeId, hop: NodeId): (r: NodeState) {
    s.(routes := s.routes[dest := hop])
  }

  function LearnRouteAt(s: NodeState, dest: NodeId, hop: NodeId, validity: TimeRange): (r: NodeState) {
    var known := if dest in s.timed then s.timed[dest] else [];
    s.(timed := s.timed[dest := known + [TimedRoute(validity, [hop])]])
  }

  // ---------------------------------------------------------------------------
  // growing the DAG
  // ---------------------------------------------------------------------------

  /** A reference to the chain's tip, if it has one. */
  function TipRef(live: seq<Entry>, chain: nat): (r: seq<EventReference>) {
    var tip := Tip(live, chain);
    if tip.None? then [] else [ClockRef(tip.value.ce.base)]
  }

  function LiveTipRefs(live: seq<Entry>, k: nat): (r: seq<EventReference>) {
    if k == 0 then [] else LiveTipRefs(live, k - 1) + TipRef(live, k - 1)
  }

  function NewEvent(s: NodeState, cr: Crypto, data: Bytes, salt: nat): (e: Event) {
    var refs := LiveTipRefs(s.log.live, s.cfg.NumChains());
    var hash := EventHash(cr, data, salt, refs);
    Event(s.id, hash, data, salt, refs, cr.sign(s.id, hash))
  }

  function PushAll(tails: seq<seq<Event>>, e: Event): (r: seq<seq<Event>>)
    ensures |r| == |tails| && forall i :: 0 <= i < |tails| ==> r[i] == tails[i] + [e]
  {
    if tails == [] then [] else PushAll(Front(tails), e) + [Last(tails) + [e]]
  }

  function Publish(s: NodeState, cr: Crypto, data: Bytes, salt: nat): (r: NodeState) {
    var e := NewEvent(s, cr, data, salt);
    s.(log := AppendEvent(s.log, e), tails := PushAll(s.tails, e))
  }

  function NeighborTip(nb: Neighbor, chain: nat): (h: Hash) {
    if chain < |nb.tips| then nb.tips[chain] else []
  }

  /** Each neighbour's matched-resolution tip, where one is known. */
  function NeighborRefs(nbrs: seq<Neighbor>, chain: nat): (r: seq<EventReference>) {
    if nbrs == [] then []
    else NeighborRefs(Front(nbrs), chain) +
         if NeighborTip(Last(nbrs), chain) == [] then [] else [EventReference(Last(nbrs).id, NeighborTip(Last(nbrs), chain))]
  }

  function NewClock(s: NodeState, cr: Crypto, chain: nat, salt: nat, now: Timestamp): (c: ClockEvent)
    requires chain < |s.tails|
  {
    var tip := Tip(s.log.live, chain);
    // Never stamp a clock event older than its chain's tip.
    var stamp := if tip.Some? && now < tip.value.ce.base.timestamp then tip.value.ce.base.timestamp else now;
    var refs := TipRef(s.log.live, chain) + NeighborRefs(s.nbrs, chain) + EventRefs(s.tails[chain]);
    var hash := ClockHash(cr, chain, stamp, salt, refs);
    ClockEvent(s.id, hash, chain, stamp, salt, refs, cr.sign(s.id, hash))
  }

  function Notifications(nbrs: seq<Neighbor>, c: ClockEvent): (r: seq<Send>)
    ensures |r| == |nbrs|
    ensures forall i :: 0 <= i < |nbrs| ==>
      r[i] == Send(nbrs[i].id, ClockNotification(c.chain, c.hash, NeighborTip(nbrs[i], c.chain)))
  {
    if nbrs == [] then []
    else Notifications(Front(nbrs), c) + [Send(Last(nbrs).id, ClockNotification(c.chain, c.hash, NeighborTip(Last(nbrs), c.chain)))]
  }

  function Tick(s: NodeState, cr: Crypto, chain: nat, salt: nat, now: Timestamp): (r: (NodeState, seq<Send>))
    requires chain < |s.tails|
  {
    var c := NewClock(s, cr, chain, salt, now);
    var log := Prune(AppendClock(s.log, LocalClockEvent(c, [])), chain, s.cfg.Keep(chain));
    (s.(log := log, tails := s.tails[chain := []]), Notifications(s.nbrs, c))
  }

  function PruneAll(log: Log, cfg: NodeConfig, k: nat): (r: Log) {
    if k == 0 then log else Prune(PruneAll(log, cfg, k - 1), k - 1, cfg.Keep(k - 1))
  }

  function Gc(s: NodeState): (r: NodeState) {
    s.(log := PruneAll(s.log, s.cfg, |s.cfg.keeps|))
  }

  // ---------------------------------------------------------------------------
  // gossip
  // ---------------------------------------------------------------------------

  /** Grow the tip list to hold slot `chain`, then fill the slot. */
  function SetTip(tips: seq<Hash>, chain: nat, h: Hash): (r: seq<Hash>)
    ensures chain < |r| && r[chain] == h
    ensures forall i :: 0 <= i < |r| && i != chain ==> r[i] == if i < |tips| then tips[i] else []
  {
    var grown := if |tips| <= chain then tips + seq(chain + 1 - |tips|, i => []) else tips;
    grown[chain := h]
  }

  /** Bucket an advertised tip into its sender's slot. */
  function LearnTip(nbrs: seq<Neighbor>, from: NodeId, chain: nat, hash: Hash): (r: seq<Neighbor>) {
    var i := NeighborAt(nbrs, from);
    if i < 0 then nbrs else nbrs[i := nbrs[i].(tips := SetTip(nbrs[i].tips, chain, hash))]
  }

  /** Record, once, that `edge` references our clock event with hash `theirs`. */
  function LearnEdge(live: seq<Entry>, edge: EventReference, theirs: Hash): (r: seq<Entry>) {
    var local := ByHash(live, theirs);
    if local.None? || edge in local.value.ce.referencing then live
    else Update(live, local.value.ce.(referencing := local.value.ce.referencing + [edge]))
  }

  function OnNotification(s: NodeState, from: NodeId, chain: nat, hash: Hash, theirs: Hash): (r: NodeState) {
    s.(nbrs := LearnTip(s.nbrs, from, chain, hash),
       log := s.log.(live := LearnEdge(s.log.live, EventReference(from, hash), theirs)))
  }

  // ---------------------------------------------------------------------------
  // requests and responses
  // ---------------------------------------------------------------------------

  /** Never forward to ourselves or back onto the breadcrumb. */
  function Forwards(nbrs: seq<Neighbor>, self: NodeId, hops: seq<NodeId>, incoming: seq<NodeId>, msg: Payload): (r: seq<Send>) {
    if hops == [] then []
    else Forwards(nbrs, self, Front(hops), incoming, msg) +
         if Last(hops) == self || Last(hops) in incoming || !Router.IsNeighbor(nbrs, Last(hops)) then [] else [Send(Last(hops), msg)]
  }

  function FloodRequest(s: NodeState, m: Payload, rnd: nat -> nat): (r: seq<Send>)
    requires m.ChainRequest?
  {
    var hops := Router.NextHops(s.cfg, s.id, s.log.live, s.nbrs, s.routes, s.timed, m.event.creator, m.range, rnd);
    Forwards(s.nbrs, s.id, hops, m.path, ChainRequest(m.originator, m.event, m.range, m.hopLimit, m.path + [s.id]))
  }

  /** One hop back along the breadcrumb. */
  function Retrace(s: NodeState, originator: NodeId, ch: EventChain, path: seq<NodeId>): (r: seq<Send>) {
    if path == [] || !Router.IsNeighbor(s.nbrs, Last(path)) then []
    else [Send(Last(path), ChainResponse(originator, ch, Front(path)))]
  }

  function OnRequest(s: NodeState, from: NodeId, m: Payload, now: Timestamp, rnd: nat -> nat): (r: (NodeState, seq<Send>))
    requires m.ChainRequest?
  {
    if m.event.creator == s.id then
      var local := EventByHash(s.log.events, m.event.hash);
      if local.None? then (s, [])
      else
        var ch := ChainBuild.Splice(s.log, s.id, from, EventChain(local.value, [], []));
        if ch.None? then (s, []) else (s, Retrace(s, m.originator, ch.value, m.path))
    else if s.id in m.path then (s, [])
    else if m.hopLimit > 0 && |m.path| >= m.hopLimit then (s, [])
    else if s.cfg.forwardCap == 0 then (s, FloodRequest(s, m, rnd))
    else
      var key := (m.originator, m.event.hash);
      var prior := if key in s.seen then s.seen[key] else Seen(0, 0);
      var seen := if prior.forwards == 0 then Seen(now, 0) else prior;
      if seen.forwards >= s.cfg.forwardCap then (s.(seen := s.seen[key := seen]), [])
      else (s.(seen := s.seen[key := seen.(forwards := seen.forwards + 1)]), FloodRequest(s, m, rnd))
  }

  ghost function OnResponse(s: NodeState, cr: Crypto, from: NodeId, m: Payload): (r: (NodeState, seq<Send>))
    requires m.ChainResponse?
  {
    if m.originator == s.id then (s.(disc := ComeHome(s.disc, cr, s.id, s.log.live, m.eventChain)), [])
    else if m.path == [] then (s, [])
    else
      var ch := ChainBuild.Splice(s.log, s.id, from, m.eventChain);
      if ch.None? then (s, []) else (s, Retrace(s, m.originator, ch.value, m.path))
  }

  /** A decoded datagram: dropped unless its sender is a known neighbour. */
  ghost function OnPacket(s: NodeState, cr: Crypto, from: NodeId, m: Payload, now: Timestamp, rnd: nat -> nat): (r: (NodeState, seq<Send>)) {
    if !Router.IsNeighbor(s.nbrs, from) then (s, [])
    else match m
      case ClockNotification(chain, hash, theirs) => (OnNotification(s, from, chain, hash, theirs), [])
      case ChainRequest(_, _, _, _, _) => OnRequest(s, from, m, now, rnd)
      case ChainResponse(_, _, _) => OnResponse(s, cr, from, m)
  }

  // ---------------------------------------------------------------------------
  // queries
  // ---------------------------------------------------------------------------

  function Request(s: NodeState, event: Event, range: TimeRange): (m: Payload) {
    ChainRequest(s.id, EventRef(event), range, s.cfg.hopLimit, [])
  }

  function Launch(s: NodeState, event: Event, range: TimeRange, rnd: nat -> nat): (r: seq<Send>) {
    if Launches(s.disc, s.id, event) then FloodRequest(s, Request(s, event, range), rnd) else []
  }

  ghost function DiscoverChain(s: NodeState, cr: Crypto, event: Event, range: TimeRange, w: Waiter, now: Timestamp,
                               rnd: nat -> nat): (r: (NodeState, seq<Send>)) {
    (s.(disc := AskChain(s.disc, cr, s.id, s.log.live, event, range, w, now)), Launch(s, event, range, rnd))
  }

  ghost function DiscoverBounds(s: NodeState, cr: Crypto, event: Event, range: TimeRange, tok: nat, now: Timestamp,
                                rnd: nat -> nat): (r: (NodeState, seq<Send>)) {
    (s.(disc := AskBounds(s.disc, cr, s.id, s.log.live, event, range, tok, now)),
     if BoundsAt(s.disc.bounds, event.hash) < 0 then Launch(s, event, range, rnd) else [])
  }

  ghost function DiscoverOrder(s: NodeState, cr: Crypto, event1: Event, event2: Event, range: TimeRange, tok: nat, now: Timestamp,
                               rnd1: nat -> nat, rnd2: nat -> nat): (r: (NodeState, seq<Send>)) {
    if OrderAt(s.disc.orders, event1.hash, event2.hash) >= 0
    then (s.(disc := AskOrder(s.disc, cr, s.id, s.log.live, event1, event2, range, tok, now)), [])
    else
      var s1 := s.(disc := s.disc.(orders := s.disc.orders + [OrderEntry(now, event1, event2, Undetermined, InProgress, [tok])]));
      var (s2, out1) := DiscoverChain(s1, cr, event1, range, Node, now, rnd1);
      var (s3, out2) := DiscoverChain(s2, cr, event2, range, Node, now, rnd2);
      (s3, out1 + out2)
  }

  function ExpireAll(s: NodeState, now: Timestamp): (r: NodeState) {
    var limit := now - s.cfg.expiry;
    s.(disc := Purge(s.disc, limit), seen := map k | k in s.seen && s.seen[k].first >= limit :: s.seen[k])
  }

  // ---------------------------------------------------------------------------
  // restart
  // ---------------------------------------------------------------------------

  /** Some live clock event of this chain names the hash. */
  ghost predicate ReferencedBy(live: seq<Entry>, h: Hash, chain: nat) {
    exists e :: e in live && e.ce.base.chain == chain && Mentions(e.ce.base.refs, h)
  }

  /** Walk the events newest-first until one is already referenced by the chain. */
  ghost function RebuiltTail(events: seq<Event>, live: seq<Entry>, chain: nat): (r: seq<Event>) {
    if events == [] || ReferencedBy(live, Last(events).hash, chain) then []
    else RebuiltTail(Front(events), live, chain) + [Last(events)]
  }

  ghost function RebuiltTails(log: Log, k: nat): (r: seq<seq<Event>>)
    ensures |r| == k && forall c :: 0 <= c < k ==> r[c] == RebuiltTail(log.events, log.live, c)
  {
    if k == 0 then [] else RebuiltTails(log, k - 1) + [RebuiltTail(log.events, log.live, k - 1)]
  }

  /** A node opened on a store: the overlay is loaded, the tails are rebuilt from the log, the
      dedup table and the queries start empty. */
  ghost function Opened(id: NodeId, cfg: NodeConfig, log: Log, nbrs: seq<Neighbor>, routes: map<NodeId, NodeId>,
                        timed: Router.RouteTable): (s: NodeState) {
    NodeState(id, cfg, log, nbrs, routes, timed, RebuiltTails(log, cfg.NumChains()), map[], IDLE)
  }

  /** On an empty store that is a fresh node. */
  lemma OpenedFresh(id: NodeId, cfg: NodeConfig)
    ensures Opened(id, cfg, EMPTY_LOG, [], map[], map[]) == Fresh(id, cfg)
  {
    var a, b := Opened(id, cfg, EMPTY_LOG, [], map[], map[]), Fresh(id, cfg);
    forall c | 0 <= c < cfg.NumChains()
      ensures a.tails[c] == b.tails[c]
    {
    }
  }

  /** A new process on the same store: the tails are rebuilt from the log, the dedup table and
      every query in flight are gone. What clients were told stays told. */
  ghost function Restarted(s: NodeState): (r: NodeState) {
    s.(tails := RebuiltTails(s.log, s.cfg.NumChains()), seen := map[], disc := IDLE.(answers := s.disc.answers))
  }
}
