/** A network of honest nodes as a state machine: any interleaving of local operations,
    restarts and datagrams being delivered late, out of order, twice or never. */
module Network {
  import opened Domain
  import opened Hashing
  import opened History
  import opened NodeModel
  import Discovery
  import Router

  /** `trail` is a history variable: the forward path of the request a response answers. */
  datatype Packet = Packet(from: NodeId, to: NodeId, msg: Payload, trail: seq<NodeId>)

  datatype World = World(nodes: map<NodeId, NodeState>, net: seq<Packet>, H: History)

  datatype Action =
    | AddPeer(n: NodeId, peer: NodeId)
    | AddRoute(n: NodeId, dest: NodeId, hop: NodeId)
    | AddTimedRoute(n: NodeId, dest: NodeId, hop: NodeId, validity: TimeRange)
    | DoPublish(n: NodeId, data: Bytes, salt: nat, now: Timestamp)
    | DoTick(n: NodeId, chain: nat, salt: nat, now: Timestamp)
    | DoGc(n: NodeId)
    | Deliver(k: nat, now: Timestamp, rnd: nat -> nat)
    | Lose(k: nat)
    | Duplicate(k: nat)
    | QueryChain(n: NodeId, event: Event, range: TimeRange, tok: nat, now: Timestamp, rnd: nat -> nat)
    | QueryBounds(n: NodeId, event: Event, range: TimeRange, tok: nat, now: Timestamp, rnd: nat -> nat)
    | QueryOrder(n: NodeId, event: Event, event2: Event, range: TimeRange, tok: nat, now: Timestamp, rnd: nat -> nat, rnd2: nat -> nat)
    | DoExpire(n: NodeId, now: Timestamp)
    | Restart(n: NodeId)

  ghost function Start(st: Setup): World {
    World(map n | n in st.cfg :: Fresh(n, st.cfg[n]), [], [])
  }

  /** A client only asks its own node about an event that node really published. */
  ghost predicate Askable(w: World, n: NodeId, e: Event) {
    e.creator == n ==> HasEvent(w.H, e)
  }

  /** A new item's hash is fresh: it is not empty and no item anywhere carries it. */
  ghost predicate FreshHash(w: World, h: Hash) {
    h != [] && IndexOf(w.H, h) == -1
  }

  ghost predicate Enabled(st: Setup, w: World, a: Action) {
    match a
    case Deliver(k, _, _) => k < |w.net| && w.net[k].to in w.nodes
    case Lose(k) => k < |w.net|
    case Duplicate(k) => k < |w.net|
    case DoPublish(n, data, salt, _) => n in w.nodes && FreshHash(w, NewEvent(w.nodes[n], st.cr, data, salt).hash)
    case DoTick(n, chain, salt, now) => n in w.nodes && chain < |w.nodes[n].tails| && FreshHash(w, NewClock(w.nodes[n], st.cr, chain, salt, now).hash)
    case QueryChain(n, e, _, _, _, _) => n in w.nodes && Askable(w, n, e)
    case QueryBounds(n, e, _, _, _, _) => n in w.nodes && Askable(w, n, e)
    case QueryOrder(n, e, e2, _, _, _, _, _) => n in w.nodes && Askable(w, n, e) && Askable(w, n, e2)
    case _ => a.n in w.nodes
  }

  function Posted(from: NodeId, out: seq<Send>, trail: seq<NodeId>): (r: seq<Packet>)
    ensures |r| == |out| && forall i :: 0 <= i < |out| ==> r[i] == Packet(from, out[i].to, out[i].msg, trail)
  {
    if out == [] then [] else Posted(from, Front(out), trail) + [Packet(from, Last(out).to, Last(out).msg, trail)]
  }

  function Without<T>(s: seq<T>, k: nat): (r: seq<T>)
    requires k < |s|
  {
    s[..k] + s[k + 1..]
  }

  /** Whether the action is some node's doing, rather than the network's. */
  predicate IsNodeStep(a: Action) {
    !a.Lose? && !a.Duplicate?
  }

  function Actor(w: World, a: Action): NodeId
    requires IsNodeStep(a) && (a.Deliver? ==> a.k < |w.net|)
  {
    if a.Deliver? then w.net[a.k].to else a.n
  }

  /** What the acting node becomes and sends. */
  ghost function Effect(st: Setup, w: World, a: Action): (r: (NodeState, seq<Send>))
    requires Enabled(st, w, a) && IsNodeStep(a)
  {
    var s := w.nodes[Actor(w, a)];
    match a
    case AddPeer(_, peer) => (AddNeighbor(s, peer), [])
    case AddRoute(_, dest, hop) => (LearnRoute(s, dest, hop), [])
    case AddTimedRoute(_, dest, hop, validity) => (LearnRouteAt(s, dest, hop, validity), [])
    case DoPublish(_, data, salt, _) => (Publish(s, st.cr, data, salt), [])
    case DoTick(_, chain, salt, now) => Tick(s, st.cr, chain, salt, now)
    case DoGc(_) => (Gc(s), [])
    case Deliver(k, now, rnd) => OnPacket(s, st.cr, w.net[k].from, w.net[k].msg, now, rnd)
    case QueryChain(_, e, range, tok, now, rnd) => DiscoverChain(s, st.cr, e, range, Discovery.Client(tok), now, rnd)
    case QueryBounds(_, e, range, tok, now, rnd) => DiscoverBounds(s, st.cr, e, range, tok, now, rnd)
    case QueryOrder(_, e, e2, range, tok, now, rnd, rnd2) => DiscoverOrder(s, st.cr, e, e2, range, tok, now, rnd, rnd2)
    case DoExpire(_, now) => (ExpireAll(s, now), [])
    case Restart(_) => (Restarted(s), [])
  }

  /** The history afterwards. */
  ghost function Recorded(st: Setup, w: World, a: Action): History
    requires Enabled(st, w, a)
  {
    if a.DoPublish? then w.H + [Ev(NewEvent(w.nodes[a.n], st.cr, a.data, a.salt), a.now)]
    else if a.DoTick? then w.H + [Ck(NewClock(w.nodes[a.n], st.cr, a.chain, a.salt, a.now), a.now)]
    else w.H
  }

  /** What is still in flight of what was in flight. */
  ghost function Remaining(w: World, a: Action): seq<Packet>
    requires a.Deliver? || a.Lose? ==> a.k < |w.net|
  {
    if a.Deliver? || a.Lose? then Without(w.net, a.k) else w.net
  }

  ghost function TrailOf(w: World, a: Action): seq<NodeId>
    requires a.Deliver? ==> a.k < |w.net|
  {
    if !a.Deliver? then []
    else if w.net[a.k].msg.ChainRequest? then w.net[a.k].msg.path
    else w.net[a.k].trail
  }

  ghost function Step(st: Setup, w: World, a: Action): (r: World)
    requires Enabled(st, w, a)
  {
    if a.Lose? then w.(net := Remaining(w, a))
    else if a.Duplicate? then w.(net := w.net + [w.net[a.k]])
    else
      var (s, out) := Effect(st, w, a);
      World(w.nodes[Actor(w, a) := s], Remaining(w, a) + Posted(Actor(w, a), out, TrailOf(w, a)), Recorded(st, w, a))
  }

  /** The worlds a sequence of actions leads through. */
  ghost predicate Runs(st: Setup, run: seq<Action>, w: World) {
    if run == [] then w == Start(st)
    else exists v :: Runs(st, Front(run), v) && Enabled(st, v, Last(run)) && w == Step(st, v, Last(run))
  }

  ghost predicate Reachable(st: Setup, w: World) {
    exists run: seq<Action> :: Runs(st, run, w)
  }
}
