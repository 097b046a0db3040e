/** The discovery forwarding policies: which neighbours a request is forwarded to. */
module Router {
  import opened Domain
  import opened Log
  import Ring

  type RouteTable = map<NodeId, seq<TimedRoute>>

  predicate Distinct<T(==)>(s: seq<T>) {
    forall i, j :: 0 <= i < j < |s| ==> s[i] != s[j]
  }

  predicate IsNeighbor(nbrs: seq<Neighbor>, id: NodeId) {
    exists i :: 0 <= i < |nbrs| && nbrs[i].id == id
  }

  // ---------------------------------------------------------------------------
  // StaticShortestPathRouter
  // ---------------------------------------------------------------------------

  function StaticHops(nbrs: seq<Neighbor>, routes: map<NodeId, NodeId>, dest: NodeId): (r: seq<NodeId>)
    ensures |r| <= 1 && (forall h :: h in r ==> IsNeighbor(nbrs, h) && dest in routes && h == routes[dest])
    ensures r != [] <==> dest in routes && IsNeighbor(nbrs, routes[dest])
  {
    if dest !in routes || !IsNeighbor(nbrs, routes[dest]) then [] else [routes[dest]]
  }

  // ---------------------------------------------------------------------------
  // NeighborHistoryRouter
  // ---------------------------------------------------------------------------

  predicate NamesCreator(refs: seq<EventReference>, m: NodeId) {
    exists i :: 0 <= i < |refs| && refs[i].creator == m
  }

  /** Node `m` was cross-linked, in either direction, with a live clock event in the window. */
  ghost predicate CrossLinked(live: seq<Entry>, range: TimeRange, m: NodeId) {
    exists e :: e in live && range.Contains(e.ce.base.timestamp)
      && (NamesCreator(e.ce.base.refs, m) || NamesCreator(e.ce.referencing, m))
  }

  function Collect(self: NodeId, nbrs: seq<Neighbor>, out: seq<NodeId>, refs: seq<EventReference>): (r: seq<NodeId>) {
    if refs == [] then out
    else
      var o := Collect(self, nbrs, out, Front(refs));
      var c := Last(refs).creator;
      if c != self && IsNeighbor(nbrs, c) && c !in o then o + [c] else o
  }

  function HistoryHops(self: NodeId, live: seq<Entry>, nbrs: seq<Neighbor>, range: TimeRange): (r: seq<NodeId>) {
    if live == [] then []
    else
      var o := HistoryHops(self, Front(live), nbrs, range);
      var ce := Last(live).ce;
      if !range.Contains(ce.base.timestamp) then o
      else Collect(self, nbrs, Collect(self, nbrs, o, ce.base.refs), ce.referencing)
  }

  lemma {:induction false} CollectMembers(self: NodeId, nbrs: seq<Neighbor>, out: seq<NodeId>, refs: seq<EventReference>, m: NodeId)
    requires Distinct(out)
    ensures Distinct(Collect(self, nbrs, out, refs))
    ensures m in Collect(self, nbrs, out, refs) <==>
      m in out || (NamesCreator(refs, m) && m != self && IsNeighbor(nbrs, m))
  {
    if refs == [] {
      assert !NamesCreator(refs, m);
    } else {
      hide NamesCreator, IsNeighbor;
      CollectMembers(self, nbrs, out, Front(refs), m);
      NamedLast(refs, m);
    }
  }

  lemma NamedLast(refs: seq<EventReference>, m: NodeId)
    requires refs != []
    ensures NamesCreator(refs, m) <==> NamesCreator(Front(refs), m) || Last(refs).creator == m
  {
    if NamesCreator(refs, m) && Last(refs).creator != m {
      var i :| 0 <= i < |refs| && refs[i].creator == m;
      assert Front(refs)[i].creator == m;
    }
    if NamesCreator(Front(refs), m) {
      var i :| 0 <= i < |refs| - 1 && Front(refs)[i].creator == m;
      assert refs[i].creator == m;
    }
  }

  /** The neighbour history is exactly the known peers cross-linked inside the window. */
  lemma {:induction false} HistoryHopsExact(self: NodeId, live: seq<Entry>, nbrs: seq<Neighbor>, range: TimeRange, m: NodeId)
    ensures Distinct(HistoryHops(self, live, nbrs, range))
    ensures m in HistoryHops(self, live, nbrs, range) <==>
      m != self && IsNeighbor(nbrs, m) && CrossLinked(live, range, m)
  {
    if live != [] {
      HistoryHopsExact(self, Front(live), nbrs, range, m);
      assert live == Front(live) + [Last(live)];
      var o := HistoryHops(self, Front(live), nbrs, range);
      var ce := Last(live).ce;
      CollectMembers(self, nbrs, o, ce.base.refs, m);
      CollectMembers(self, nbrs, Collect(self, nbrs, o, ce.base.refs), ce.referencing, m);
      assert CrossLinked(live, range, m) <==>
        CrossLinked(Front(live), range, m) || (range.Contains(ce.base.timestamp) && (NamesCreator(ce.base.refs, m) || NamesCreator(ce.referencing, m)));
    }
  }

  method CollectInto(self: NodeId, nbrs: seq<Neighbor>, out: seq<NodeId>, seen: set<NodeId>, refs: seq<EventReference>)
    returns (out': seq<NodeId>, seen': set<NodeId>)
    requires forall m :: m in seen <==> m in out
    ensures out' == Collect(self, nbrs, out, refs)
    ensures forall m :: m in seen' <==> m in out'
  {
    out', seen' := out, seen;
    for k := 0 to |refs|
      invariant out' == Collect(self, nbrs, out, refs[..k])
      invariant forall m :: m in seen' <==> m in out'
    {
      assert Front(refs[..k + 1]) == refs[..k];
      var c := refs[k].creator;
      if c != self && IsNeighbor(nbrs, c) && c !in seen' {
        seen' := seen' + {c};
        out' := out' + [c];
      }
    }
    assert refs[..|refs|] == refs;
  }

  /** `records` are the live clock events as the store lists them. */
  method NeighborHistory(self: NodeId, records: seq<LocalClockEvent>, ghost live: seq<Entry>, nbrs: seq<Neighbor>, range: TimeRange)
    returns (out: seq<NodeId>)
    requires records == Ring.Records(live)
    ensures out == HistoryHops(self, live, nbrs, range)
  {
    out := [];
    var seen: set<NodeId> := {};
    for k := 0 to |records|
      invariant out == HistoryHops(self, live[..k], nbrs, range)
      invariant forall m :: m in seen <==> m in out
    {
      assert Front(live[..k + 1]) == live[..k];
      var ce := records[k];
      if range.Contains(ce.base.timestamp) {
        out, seen := CollectInto(self, nbrs, out, seen, ce.base.refs);
        out, seen := CollectInto(self, nbrs, out, seen, ce.referencing);
      }
    }
    assert live[..|live|] == live;
  }

  // ---------------------------------------------------------------------------
  // RoutingTableRouter
  // ---------------------------------------------------------------------------

  function AddHops(crosslinked: seq<NodeId>, out: seq<NodeId>, hops: seq<NodeId>): (r: seq<NodeId>) {
    if hops == [] then out
    else
      var o := AddHops(crosslinked, out, Front(hops));
      if Last(hops) in crosslinked && Last(hops) !in o then o + [Last(hops)] else o
  }

  function Directed(crosslinked: seq<NodeId>, routes: seq<TimedRoute>, range: TimeRange): (r: seq<NodeId>) {
    if routes == [] then []
    else
      var o := Directed(crosslinked, Front(routes), range);
      if Last(routes).validity.Overlaps(range) then AddHops(crosslinked, o, Last(routes).hops) else o
  }

  function TableHops(table: RouteTable, crosslinked: seq<NodeId>, dest: NodeId, range: TimeRange): (r: seq<NodeId>) {
    if dest !in table then crosslinked
    else
      var directed := Directed(crosslinked, table[dest], range);
      if directed == [] then crosslinked else directed
  }

  lemma {:induction false} AddHopsMembers(crosslinked: seq<NodeId>, out: seq<NodeId>, hops: seq<NodeId>)
    requires Distinct(out) && forall m :: m in out ==> m in crosslinked
    ensures var r := AddHops(crosslinked, out, hops);
            Distinct(r) && forall m :: m in r ==> m in crosslinked
  {
    if hops != [] {
      AddHopsMembers(crosslinked, out, Front(hops));
    }
  }

  lemma {:induction false} DirectedMembers(crosslinked: seq<NodeId>, routes: seq<TimedRoute>, range: TimeRange)
    ensures var r := Directed(crosslinked, routes, range);
            Distinct(r) && forall m :: m in r ==> m in crosslinked
  {
    if routes != [] {
      DirectedMembers(crosslinked, Front(routes), range);
      AddHopsMembers(crosslinked, Directed(crosslinked, Front(routes), range), Last(routes).hops);
    }
  }

  method RoutingTable(table: RouteTable, crosslinked: seq<NodeId>, dest: NodeId, range: TimeRange) returns (out: seq<NodeId>)
    ensures out == TableHops(table, crosslinked, dest, range)
  {
    if dest !in table {
      return crosslinked;
    }
    var routes := table[dest];
    var directed: seq<NodeId> := [];
    var added: set<NodeId> := {};
    for i := 0 to |routes|
      invariant directed == Directed(crosslinked, routes[..i], range)
      invariant forall m :: m in added <==> m in directed
    {
      assert Front(routes[..i + 1]) == routes[..i];
      if routes[i].validity.Overlaps(range) {
        var hops := routes[i].hops;
        ghost var start := directed;
        for j := 0 to |hops|
          invariant directed == AddHops(crosslinked, start, hops[..j])
          invariant forall m :: m in added <==> m in directed
        {
          assert Front(hops[..j + 1]) == hops[..j];
          if hops[j] in crosslinked && hops[j] !in added {
            added := added + {hops[j]};
            directed := directed + [hops[j]];
          }
        }
        assert hops[..|hops|] == hops;
      }
    }
    assert routes[..|routes|] == routes;
    return if directed == [] then crosslinked else directed;
  }

  // ---------------------------------------------------------------------------
  // ProbabilisticRouter
  // ---------------------------------------------------------------------------

  function Swap<T>(s: seq<T>, i: nat, j: nat): (r: seq<T>)
    requires i < |s| && j < |s|
    ensures |r| == |s|
  {
    s[i := s[j]][j := s[i]]
  }

  /** The first `k` rounds of a Fisher-Yates shuffle driven by the draws `rnd(0), rnd(1), ...`. */
  function Shuffle(cand: seq<NodeId>, k: nat, rnd: nat -> nat): (r: seq<NodeId>)
    requires k <= |cand|
    ensures |r| == |cand|
  {
    if k == 0 then cand
    else
      var s := Shuffle(cand, k - 1, rnd);
      Swap(s, k - 1, k - 1 + rnd(k - 1) % (|s| - (k - 1)))
  }

  function Sample(cand: seq<NodeId>, k: nat, rnd: nat -> nat): (r: seq<NodeId>) {
    if k == 0 || |cand| <= k then cand else Shuffle(cand, k, rnd)[..k]
  }

  lemma SwapDistinct(s: seq<NodeId>, i: nat, j: nat)
    requires i < |s| && j < |s| && Distinct(s)
    ensures Distinct(Swap(s, i, j))
    ensures forall m :: m in Swap(s, i, j) ==> m in s
  {
  }

  lemma {:induction false} ShuffleKeeps(cand: seq<NodeId>, k: nat, rnd: nat -> nat)
    requires k <= |cand| && Distinct(cand)
    ensures Distinct(Shuffle(cand, k, rnd))
    ensures forall m :: m in Shuffle(cand, k, rnd) ==> m in cand
  {
    if k > 0 {
      ShuffleKeeps(cand, k - 1, rnd);
      var s := Shuffle(cand, k - 1, rnd);
      SwapDistinct(s, k - 1, k - 1 + rnd(k - 1) % (|s| - (k - 1)));
    }
  }

  /** Sampling without replacement: distinct candidates, exactly min(k, candidates) of them. */
  lemma SampleKeeps(cand: seq<NodeId>, k: nat, rnd: nat -> nat)
    requires Distinct(cand)
    ensures var r := Sample(cand, k, rnd);
      && Distinct(r) && (forall m :: m in r ==> m in cand)
      && |r| == if k == 0 then |cand| else Min(k, |cand|)
  {
    if k > 0 && k < |cand| {
      ShuffleKeeps(cand, k, rnd);
    }
  }

  method Probabilistic(inner: seq<NodeId>, k: nat, rnd: nat -> nat) returns (cand: seq<NodeId>)
    ensures cand == Sample(inner, k, rnd)
  {
    cand := inner;
    if k == 0 || |cand| <= k {
      return;
    }
    for i := 0 to k
      invariant |cand| == |inner| && cand == Shuffle(inner, i, rnd)
    {
      var j := i + rnd(i) % (|cand| - i);
      cand := cand[i := cand[j]][j := cand[i]];
    }
    cand := cand[..k];
  }

  // ---------------------------------------------------------------------------
  // the policy a node is configured with
  // ---------------------------------------------------------------------------

  function FloodCandidates(self: NodeId, live: seq<Entry>, nbrs: seq<Neighbor>, table: RouteTable,
                           dest: NodeId, range: TimeRange): (r: seq<NodeId>) {
    TableHops(table, HistoryHops(self, live, nbrs, range), dest, range)
  }

  function NextHops(cfg: NodeConfig, self: NodeId, live: seq<Entry>, nbrs: seq<Neighbor>, routes: map<NodeId, NodeId>,
                    table: RouteTable, dest: NodeId, range: TimeRange, rnd: nat -> nat): (r: seq<NodeId>) {
    match cfg.routing
    case StaticShortestPath => StaticHops(nbrs, routes, dest)
    case Flood => Sample(FloodCandidates(self, live, nbrs, table, dest, range), cfg.fanout, rnd)
  }

  /** The flood stack, for any random source: distinct known neighbours other than self, each
      cross-linked inside the window; empty only when there are none; and as many as the
      fan-out allows. */
  lemma FloodStack(self: NodeId, live: seq<Entry>, nbrs: seq<Neighbor>, table: RouteTable, dest: NodeId,
                   range: TimeRange, k: nat, rnd: nat -> nat)
    ensures var r := Sample(FloodCandidates(self, live, nbrs, table, dest, range), k, rnd);
      && Distinct(r)
      && (forall m :: m in r ==> m != self && IsNeighbor(nbrs, m) && CrossLinked(live, range, m))
      && (r == [] ==> forall m :: m != self && IsNeighbor(nbrs, m) ==> !CrossLinked(live, range, m))
      && |r| == (var n := |FloodCandidates(self, live, nbrs, table, dest, range)|; if k == 0 then n else Min(k, n))
  {
    var hist := HistoryHops(self, live, nbrs, range);
    forall m
      ensures Distinct(hist)
      ensures m in hist <==> m != self && IsNeighbor(nbrs, m) && CrossLinked(live, range, m)
    {
      HistoryHopsExact(self, live, nbrs, range, m);
    }
    if dest in table {
      DirectedMembers(hist, table[dest], range);
    }
    var cand := FloodCandidates(self, live, nbrs, table, dest, range);
    assert Distinct(hist) by {
      HistoryHopsExact(self, live, nbrs, range, self);
    }
    SampleKeeps(cand, k, rnd);
    assert cand == [] ==> hist == [];
    if Sample(cand, k, rnd) == [] {
      forall m | m != self && IsNeighbor(nbrs, m)
        ensures !CrossLinked(live, range, m)
      {
        HistoryHopsExact(self, live, nbrs, range, m);
      }
    }
  }

  /** Whatever the policy, a node forwards to distinct known neighbours, at most one under
      static routing and at most the fan-out under flooding. */
  lemma NextHopsBounded(cfg: NodeConfig, self: NodeId, live: seq<Entry>, nbrs: seq<Neighbor>, routes: map<NodeId, NodeId>,
                        table: RouteTable, dest: NodeId, range: TimeRange, rnd: nat -> nat)
    ensures var r := NextHops(cfg, self, live, nbrs, routes, table, dest, range, rnd);
      && Distinct(r) && (forall m :: m in r ==> IsNeighbor(nbrs, m))
      && (cfg.routing.StaticShortestPath? ==> |r| <= 1)
      && (cfg.routing.Flood? && cfg.fanout > 0 ==> |r| <= cfg.fanout)
  {
    FloodStack(self, live, nbrs, table, dest, range, cfg.fanout, rnd);
  }
}
