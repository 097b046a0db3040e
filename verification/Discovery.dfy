/** Discovery bookkeeping: the three tables of in-flight queries, who is waiting on them, and
    who has been answered. A table is an association list with one entry per key. */
module Discovery {
  import opened Domain
  import opened Hashing
  import opened Log
  import ChainBuild
  import Validate

  datatype State = InProgress | Completed | Aborted

  /** A chain query is waited on by a client, or by the node itself on behalf of its bounds and
      order queries. */
  datatype Waiter = Node | Client(tok: nat)

  datatype ChainEntry = ChainEntry(start: Timestamp, event: Event, range: TimeRange, chain: EventChain,
                                   state: State, waiters: seq<Waiter>)

  datatype BoundsEntry = BoundsEntry(start: Timestamp, event: Event, lower: Timestamp, upper: Timestamp,
                                     state: State, waiters: seq<nat>)

  datatype OrderEntry = OrderEntry(start: Timestamp, event1: Event, event2: Event, order: Order,
                                   state: State, waiters: seq<nat>)

  datatype Answer =
    | ChainDone(tok: nat, event: Event, chain: EventChain)
    | ChainFailed(tok: nat, event: Event)
    | BoundsDone(tok: nat, event: Event, lower: Timestamp, upper: Timestamp)
    | BoundsFailed(tok: nat, event: Event)
    | OrderDone(tok: nat, event1: Event, event2: Event, order: Order)
    | OrderFailed(tok: nat, event1: Event, event2: Event)

  /** `answers` lists every client callback made, oldest first. */
  datatype Disc = Disc(chains: seq<ChainEntry>, bounds: seq<BoundsEntry>, orders: seq<OrderEntry>, answers: seq<Answer>)

  const IDLE: Disc := Disc([], [], [], [])

  // ---------------------------------------------------------------------------
  // lookups
  // ---------------------------------------------------------------------------

  function ChainAt(cs: seq<ChainEntry>, h: Hash): (i: int)
    ensures -1 <= i < |cs|
    ensures i >= 0 ==> cs[i].event.hash == h
    ensures i == -1 ==> forall e :: e in cs ==> e.event.hash != h
  {
    if cs == [] then -1
    else if Last(cs).event.hash == h then |cs| - 1 else ChainAt(Front(cs), h)
  }

  function BoundsAt(bs: seq<BoundsEntry>, h: Hash): (i: int)
    ensures -1 <= i < |bs|
    ensures i >= 0 ==> bs[i].event.hash == h
    ensures i == -1 ==> forall e :: e in bs ==> e.event.hash != h
  {
    if bs == [] then -1
    else if Last(bs).event.hash == h then |bs| - 1 else BoundsAt(Front(bs), h)
  }

  function OrderAt(os: seq<OrderEntry>, h1: Hash, h2: Hash): (i: int)
    ensures -1 <= i < |os|
    ensures i >= 0 ==> os[i].event1.hash == h1 && os[i].event2.hash == h2
    ensures i == -1 ==> forall e :: e in os ==> e.event1.hash != h1 || e.event2.hash != h2
  {
    if os == [] then -1
    else if Last(os).event1.hash == h1 && Last(os).event2.hash == h2 then |os| - 1 else OrderAt(Front(os), h1, h2)
  }

  function CompletedChain(d: Disc, h: Hash): (r: Option<EventChain>) {
    var i := ChainAt(d.chains, h);
    if i >= 0 && d.chains[i].state.Completed? then Some(d.chains[i].chain) else None
  }

  // ---------------------------------------------------------------------------
  // bounds and order queries
  // ---------------------------------------------------------------------------

  predicate Bounded(ch: EventChain) {
    ch.lower != [] && ch.upper != []
  }

  function Compared(a: EventChain, b: EventChain): Order {
    if Bounded(a) && Bounded(b) then Validate.Compare(a, b) else Undetermined
  }

  function BoundsAnswers(toks: seq<nat>, done: bool, e: BoundsEntry): (r: seq<Answer>)
    ensures |r| == |toks|
    ensures forall i :: 0 <= i < |r| ==> (r[i].BoundsDone? || r[i].BoundsFailed?) && r[i].tok == toks[i]
  {
    if toks == [] then []
    else BoundsAnswers(Front(toks), done, e) +
         [if done then BoundsDone(Last(toks), e.event, e.lower, e.upper) else BoundsFailed(Last(toks), e.event)]
  }

  function OrderAnswers(toks: seq<nat>, done: bool, e: OrderEntry): (r: seq<Answer>)
    ensures |r| == |toks|
    ensures forall i :: 0 <= i < |r| ==> (r[i].OrderDone? || r[i].OrderFailed?) && r[i].tok == toks[i]
  {
    if toks == [] then []
    else OrderAnswers(Front(toks), done, e) +
         [if done then OrderDone(Last(toks), e.event1, e.event2, e.order) else OrderFailed(Last(toks), e.event1, e.event2)]
  }

  function SettleBounds(d: Disc, i: nat, e: BoundsEntry): (r: Disc)
    requires i < |d.bounds|
  {
    d.(bounds := d.bounds[i := e], answers := d.answers + BoundsAnswers(e.waiters, e.state.Completed?, e))
  }

  function SettleOrder(d: Disc, i: nat, e: OrderEntry): (r: Disc)
    requires i < |d.orders|
  {
    d.(orders := d.orders[i := e], answers := d.answers + OrderAnswers(e.waiters, e.state.Completed?, e))
  }

  function CompleteBounds(d: Disc, ch: EventChain): (r: Disc) {
    var i := BoundsAt(d.bounds, ch.event.hash);
    if i >= 0 && d.bounds[i].state.InProgress? && Bounded(ch)
    then SettleBounds(d, i, d.bounds[i].(lower := ch.lower[0].timestamp, upper := Last(ch.upper).timestamp, state := Completed))
    else d
  }

  /** The order entry that chain `ch` finishes, if its other chain is already there. */
  function Decided(d: Disc, e: OrderEntry, ch: EventChain): (r: OrderEntry) {
    if !e.state.InProgress? then e
    else if e.event1.hash == ch.event.hash then
      var other := CompletedChain(d, e.event2.hash);
      if other.None? then e
      else e.(order := Compared(ch, other.value), state := Completed)
    else if e.event2.hash == ch.event.hash then
      var other := CompletedChain(d, e.event1.hash);
      if other.None? then e
      else e.(order := Compared(other.value, ch), state := Completed)
    else e
  }

  /** One order entry, offered chain `ch`. */
  function Offered(d: Disc, i: nat, ch: EventChain): (r: Disc)
    requires i < |d.orders|
    ensures r.chains == d.chains && r.bounds == d.bounds && |r.orders| == |d.orders|
  {
    var e := Decided(d, d.orders[i], ch);
    if e.state == d.orders[i].state then d else SettleOrder(d, i, e)
  }

  /** The first `k` order entries, offered chain `ch` in turn. */
  function CompleteOrders(d: Disc, ch: EventChain, k: nat): (r: Disc)
    requires k <= |d.orders|
    ensures r.chains == d.chains && r.bounds == d.bounds && |r.orders| == |d.orders|
  {
    if k == 0 then d
    else
      Offered(CompleteOrders(d, ch, k - 1), k - 1, ch)
  }

  function AbortBounds(d: Disc, h: Hash): (r: Disc) {
    var i := BoundsAt(d.bounds, h);
    if i >= 0 then SettleBounds(d, i, d.bounds[i].(state := Aborted)) else d
  }

  function AbortOrders(d: Disc, h: Hash, k: nat): (r: Disc)
    requires k <= |d.orders|
    ensures r.chains == d.chains && r.bounds == d.bounds && |r.orders| == |d.orders|
  {
    if k == 0 then d
    else
      var d1 := AbortOrders(d, h, k - 1);
      var e := d1.orders[k - 1];
      if e.state.InProgress? && (e.event1.hash == h || e.event2.hash == h)
      then SettleOrder(d1, k - 1, e.(state := Aborted)) else d1
  }

  /** The node's own reaction to a completed chain ... */
  function OnChainCompleted(d: Disc, ch: EventChain): (r: Disc)
    ensures r.chains == d.chains && |r.orders| == |d.orders|
  {
    var d1 := CompleteBounds(d, ch);
    CompleteOrders(d1, ch, |d1.orders|)
  }

  /** ... and to an aborted one. The bounds entry is aborted whatever its state. */
  function OnChainAborted(d: Disc, event: Event): (r: Disc)
    ensures r.chains == d.chains && |r.orders| == |d.orders|
  {
    var d1 := AbortBounds(d, event.hash);
    AbortOrders(d1, event.hash, |d1.orders|)
  }

  // ---------------------------------------------------------------------------
  // chain queries
  // ---------------------------------------------------------------------------

  function TellDone(d: Disc, w: Waiter, event: Event, ch: EventChain): (r: Disc)
    ensures r.chains == d.chains
  {
    match w
    case Node => OnChainCompleted(d, ch)
    case Client(tok) => d.(answers := d.answers + [ChainDone(tok, event, ch)])
  }

  function TellFailed(d: Disc, w: Waiter, event: Event): (r: Disc)
    ensures r.chains == d.chains
  {
    match w
    case Node => OnChainAborted(d, event)
    case Client(tok) => d.(answers := d.answers + [ChainFailed(tok, event)])
  }

  function TellAllDone(d: Disc, ws: seq<Waiter>, event: Event, ch: EventChain): (r: Disc)
    ensures r.chains == d.chains
  {
    if ws == [] then d else TellDone(TellAllDone(d, Front(ws), event, ch), Last(ws), event, ch)
  }

  function TellAllFailed(d: Disc, ws: seq<Waiter>, event: Event): (r: Disc)
    ensures r.chains == d.chains
  {
    if ws == [] then d else TellFailed(TellAllFailed(d, Front(ws), event), Last(ws), event)
  }

  function AbortChain(d: Disc, i: nat): (r: Disc)
    requires i < |d.chains|
    ensures |r.chains| == |d.chains|
  {
    var e := d.chains[i].(state := Aborted);
    TellAllFailed(d.(chains := d.chains[i := e]), e.waiters, e.event)
  }

  /** Validate before completing: an unsound chain aborts the query instead. */
  ghost function CompleteChain(d: Disc, i: nat, cr: Crypto, id: NodeId): (r: Disc)
    requires i < |d.chains|
    ensures |r.chains| == |d.chains|
  {
    if !Validate.Sound(cr, d.chains[i].chain, id) then AbortChain(d, i)
    else
      var e := d.chains[i].(state := Completed);
      TellAllDone(d.(chains := d.chains[i := e]), e.waiters, e.event, e.chain)
  }

  /** The tail of a query that holds chain `ch`, attached at both ends or not. */
  ghost function Conclude(d: Disc, i: nat, ch: EventChain, attached: bool, cr: Crypto, id: NodeId): (r: Disc)
    requires i < |d.chains|
  {
    var d1 := d.(chains := d.chains[i := d.chains[i].(chain := ch)]);
    if attached then CompleteChain(d1, i, cr, id) else AbortChain(d1, i)
  }

  function NewChain(event: Event, range: TimeRange, w: Waiter, now: Timestamp): ChainEntry {
    ChainEntry(now, event, range, EventChain(event, [], []), InProgress, [w])
  }

  /** A query for a hash that already has an entry: wait with the others, or be told at once. */
  function Join(d: Disc, i: nat, event: Event, w: Waiter): (r: Disc)
    requires i < |d.chains|
  {
    var e := d.chains[i];
    match e.state
    case InProgress => d.(chains := d.chains[i := e.(waiters := e.waiters + [w])])
    case Aborted => TellFailed(d, w, event)
    case Completed => TellDone(d, w, event, e.chain)
  }

  // ---------------------------------------------------------------------------
  // the entry points
  // ---------------------------------------------------------------------------

  /** Whether a chain query has to be flooded: nobody asked yet, and the event is not ours. */
  predicate Launches(d: Disc, id: NodeId, event: Event) {
    ChainAt(d.chains, event.hash) < 0 && event.creator != id
  }

  ghost function AskChain(d: Disc, cr: Crypto, id: NodeId, live: seq<Entry>, event: Event, range: TimeRange, w: Waiter, now: Timestamp): (r: Disc) {
    var i := ChainAt(d.chains, event.hash);
    if i >= 0 then Join(d, i, event, w)
    else
      var d1 := d.(chains := d.chains + [NewChain(event, range, w, now)]);
      if event.creator != id then d1
      else
        var (ch, attached) := ChainBuild.Enclose(live, id, EventChain(event, [], []));
        Conclude(d1, |d.chains|, ch, attached, cr, id)
  }

  ghost function AskBounds(d: Disc, cr: Crypto, id: NodeId, live: seq<Entry>, event: Event, range: TimeRange, tok: nat, now: Timestamp): (r: Disc) {
    var i := BoundsAt(d.bounds, event.hash);
    if i >= 0 then
      var e := d.bounds[i];
      match e.state
      case InProgress => d.(bounds := d.bounds[i := e.(waiters := e.waiters + [tok])])
      case Aborted => d.(answers := d.answers + [BoundsFailed(tok, event)])
      case Completed => d.(answers := d.answers + [BoundsDone(tok, event, e.lower, e.upper)])
    else
      AskChain(d.(bounds := d.bounds + [BoundsEntry(now, event, 0, 0, InProgress, [tok])]), cr, id, live, event, range, Node, now)
  }

  ghost function AskOrder(d: Disc, cr: Crypto, id: NodeId, live: seq<Entry>, event1: Event, event2: Event,
                          range: TimeRange, tok: nat, now: Timestamp): (r: Disc) {
    var i := OrderAt(d.orders, event1.hash, event2.hash);
    if i >= 0 then
      var e := d.orders[i];
      match e.state
      case InProgress => d.(orders := d.orders[i := e.(waiters := e.waiters + [tok])])
      case Aborted => d.(answers := d.answers + [OrderFailed(tok, event1, event2)])
      case Completed => d.(answers := d.answers + [OrderDone(tok, event1, event2, e.order)])
    else
      var d1 := d.(orders := d.orders + [OrderEntry(now, event1, event2, Undetermined, InProgress, [tok])]);
      var d2 := AskChain(d1, cr, id, live, event1, range, Node, now);
      AskChain(d2, cr, id, live, event2, range, Node, now)
  }

  /** A chain response that reached its originator. */
  ghost function ComeHome(d: Disc, cr: Crypto, id: NodeId, live: seq<Entry>, ch: EventChain): (r: Disc) {
    var i := ChainAt(d.chains, ch.event.hash);
    if i < 0 || !d.chains[i].state.InProgress? then d
    else
      var (enclosed, attached) := ChainBuild.Enclose(live, id, ch);
      Conclude(d, i, enclosed, attached, cr, id)
  }

  // ---------------------------------------------------------------------------
  // expiry
  // ---------------------------------------------------------------------------

  function Remove<T>(s: seq<T>, i: nat): (r: seq<T>)
    requires i < |s|
    ensures |r| == |s| - 1
  {
    s[..i] + s[i + 1..]
  }

  function PurgeChains(d: Disc, i: nat, limit: Timestamp): (r: Disc)
    requires i <= |d.chains|
    decreases |d.chains| - i
  {
    if i == |d.chains| then d
    else if d.chains[i].start < limit then
      var d1 := if d.chains[i].state.InProgress? then AbortChain(d, i) else d;
      PurgeChains(d1.(chains := Remove(d1.chains, i)), i, limit)
    else PurgeChains(d, i + 1, limit)
  }

  function PurgeBounds(d: Disc, i: nat, limit: Timestamp): (r: Disc)
    requires i <= |d.bounds|
    decreases |d.bounds| - i
  {
    if i == |d.bounds| then d
    else if d.bounds[i].start < limit then
      var d1 := if d.bounds[i].state.InProgress? then SettleBounds(d, i, d.bounds[i].(state := Aborted)) else d;
      PurgeBounds(d1.(bounds := Remove(d1.bounds, i)), i, limit)
    else PurgeBounds(d, i + 1, limit)
  }

  function PurgeOrders(d: Disc, i: nat, limit: Timestamp): (r: Disc)
    requires i <= |d.orders|
    decreases |d.orders| - i
  {
    if i == |d.orders| then d
    else if d.orders[i].start < limit then
      var d1 := if d.orders[i].state.InProgress? then SettleOrder(d, i, d.orders[i].(state := Aborted)) else d;
      PurgeOrders(d1.(orders := Remove(d1.orders, i)), i, limit)
    else PurgeOrders(d, i + 1, limit)
  }

  function Purge(d: Disc, limit: Timestamp): (r: Disc) {
    PurgeOrders(PurgeBounds(PurgeChains(d, 0, limit), 0, limit), 0, limit)
  }
}
