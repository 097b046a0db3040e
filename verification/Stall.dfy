/** One run in which an order query is left in progress although the node found both chains. */
module Stall {
  import opened Domain
  import opened Hashing
  import opened Log
  import opened Discovery
  import opened DiscoveryLaws
  import opened Progress
  import opened Witness
  import ChainBuild
  import Expiry
  import Standing
  import Validate

  /** Node `n` ticks at 1 and at 2; in between it publishes `Own`, and `m` publishes `Theirs`, each
      referencing the first tick and referenced by the second. */
  function First(n: NodeId): ClockEvent {
    Clock(n, 0, 1, [])
  }

  function Item(creator: NodeId, data: Bytes, n: NodeId): Event {
    Event(creator, EventHash(Plain(), data, 0, [ClockRef(First(n))]), data, 0, [ClockRef(First(n))], [])
  }

  function Own(n: NodeId): Event {
    Item(n, [], n)
  }

  function Theirs(n: NodeId, m: NodeId): Event {
    Item(m, [7], n)
  }

  function Second(n: NodeId, m: NodeId): ClockEvent {
    Clock(n, 0, 2, [EventRef(Own(n)), EventRef(Theirs(n, m))])
  }

  function Live(n: NodeId, m: NodeId): seq<Entry> {
    [At(0, First(n)), At(1, Second(n, m))]
  }

  lemma HashesDiffer(n: NodeId, m: NodeId)
    ensures First(n).hash != Second(n, m).hash && Own(n).hash != Theirs(n, m).hash
  {
    var refs := [ClockRef(First(n))];
    RefBytesLength(refs);
    ClockHashLength(0, 1, []);
    ClockHashLength(0, 2, Second(n, m).refs);
    assert |Own(n).hash| > 0;
  }

  /** Either event, asked about, is enclosed by the two ticks. */
  lemma Enclosed(n: NodeId, m: NodeId, e: Event)
    requires e == Own(n) || e == Theirs(n, m)
    ensures var ch := EventChain(e, [First(n)], [Second(n, m)]);
      ChainBuild.Enclose(Live(n, m), n, EventChain(e, [], [])) == (ch, true) && Validate.Sound(Plain(), ch, n)
  {
    hide ClockHash, EventHash;
    var c0, c1, live := First(n), Second(n, m), Live(n, m);
    assert Front(live) == [At(0, c0)] && Front([At(0, c0)]) == [];
    HashesDiffer(n, m);
    OnlyHolder(live, 0);
    assert e.refs == [ClockRef(c0)];
    assert FirstOwn(live, n, e.refs) == Some(At(0, c0));
    assert !Mentions([], e.hash);
    assert c1.refs[0] == EventRef(Own(n)) && c1.refs[1] == EventRef(Theirs(n, m));
    assert Mentions(c1.refs, e.hash);
    assert FirstReferencing(live, e.hash) == Some(At(1, c1));
    assert [c0] + [] == [c0] && [] + [c1] == [c1];
  }

  function AskOwn(n: NodeId, m: NodeId, range: TimeRange): Input {
    ForChain(Own(n), range, 0, 0, Live(n, m))
  }

  function AskBoth(n: NodeId, m: NodeId, range: TimeRange): Input {
    ForOrder(Own(n), Theirs(n, m), range, 1, 5, Live(n, m))
  }

  function Waiting(n: NodeId, m: NodeId): OrderEntry {
    OrderEntry(5, Own(n), Theirs(n, m), Undetermined, InProgress, [1])
  }

  function Found(n: NodeId, m: NodeId, range: TimeRange): ChainEntry {
    ChainEntry(0, Own(n), range, EventChain(Own(n), [First(n)], [Second(n, m)]), Completed, [Client(0)])
  }

  lemma OwnAsked(n: NodeId, m: NodeId, range: TimeRange)
    ensures var d := React(IDLE, Plain(), n, AskOwn(n, m, range)); d.chains == [Found(n, m, range)] && d.bounds == [] && d.orders == []
  {
    hide ClockHash, EventHash, ChainBuild.Enclose, Validate.Sound;
    Enclosed(n, m, Own(n));
    var x := NewChain(Own(n), range, Client(0), 0);
    assert [] + [x] == [x];
    var f := Found(n, m, range);
    assert [x][0 := x.(chain := f.chain)][0 := f] == [f];
    Standing.TellOneDone(IDLE.(chains := [f]), Client(0), Own(n), f.chain);
  }

  lemma BothAsked(n: NodeId, m: NodeId, range: TimeRange, d: Disc)
    requires n != m && d.chains == [Found(n, m, range)] && d.bounds == [] && d.orders == []
    ensures var r := React(d, Plain(), n, AskBoth(n, m, range));
      r.orders == [Waiting(n, m)] && r.chains == [Found(n, m, range), NewChain(Theirs(n, m), range, Node, 5)]
  {
    hide ClockHash, EventHash, ChainBuild.Enclose, Validate.Sound;
    HashesDiffer(n, m);
    var o, own, theirs := Waiting(n, m), Own(n), Theirs(n, m);
    assert [] + [o] == [o];
    var d1 := d.(orders := [o]);
    assert ChainAt(d.chains, own.hash) == 0 && Front(d.chains) == [] && ChainAt(d.chains, theirs.hash) == -1;
    assert Decided(d1, o, Found(n, m, range).chain) == o;
    assert CompleteOrders(d1, Found(n, m, range).chain, 1) == d1;
    assert Join(d1, 0, own, Node) == d1;
  }

  function Queries(n: NodeId, m: NodeId, range: TimeRange): seq<Input> {
    [AskOwn(n, m, range), AskBoth(n, m, range)]
  }

  lemma HalfWay(n: NodeId, m: NodeId, range: TimeRange)
    requires n != m
    ensures var d := Run(Plain(), n, Queries(n, m, range));
      && Expiry.HalfDone(d, Waiting(n, m), Own(n).hash, Theirs(n, m).hash)
      && Look(d.chains, Own(n).hash).value.start == 0 && Look(d.chains, Theirs(n, m).hash).value.start == 5
  {
    hide React, ClockHash, EventHash;
    OwnAsked(n, m, range);
    var xs := Queries(n, m, range);
    assert Front(xs) == [xs[0]] && Front([xs[0]]) == [];
    assert Run(Plain(), n, [xs[0]]) == React(IDLE, Plain(), n, xs[0]);
    var d := React(IDLE, Plain(), n, AskOwn(n, m, range));
    BothAsked(n, m, range, d);
    HashesDiffer(n, m);
    var cs := [Found(n, m, range), NewChain(Theirs(n, m), range, Node, 5)];
    assert Front(cs) == [cs[0]] && Front([cs[0]]) == [];
    assert ChainAt(cs, Theirs(n, m).hash) == 1 && ChainAt(cs, Own(n).hash) == 0;
  }

  /** A client asks about the node's own event at time 0, which is answered at once, and about
      the order of both at time 5. Expiry up to 3 drops the finished chain query. The other
      chain then comes home, and the order query is still in progress. */
  lemma OrderIsLeftBehind(n: NodeId, m: NodeId, range: TimeRange) returns (o: OrderEntry)
    requires n != m
    ensures var r := Run(Plain(), n, Queries(n, m, range) + [Expire(3)] + [Response(EventChain(Theirs(n, m), [], []), Live(n, m))]);
      o in r.orders && o.event1 == Own(n) && o.event2 == Theirs(n, m) && o.waiters == [1] && o.state.InProgress?
  {
    hide Run, ChainBuild.Enclose, Validate.Sound, ClockHash, EventHash;
    HalfWay(n, m, range);
    Enclosed(n, m, Theirs(n, m));
    o := Expiry.ExpiryCanLeaveOrderBehind(Plain(), n, Queries(n, m, range), 3, EventChain(Theirs(n, m), [], []), Live(n, m),
                                          Waiting(n, m), Own(n).hash, Theirs(n, m).hash);
  }
}
