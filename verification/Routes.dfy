/** The forwarding policies, exactly: which hops come out, in which order, and that the random
    lid on the flood can pick every selection in exactly one way. */
module Routes {
  import opened Domain
  import opened Log
  import opened NodeModel
  import opened Router

  // ---------------------------------------------------------------------------
  // keeping the first of each
  // ---------------------------------------------------------------------------

  /** `x` is listed before `y` first is. */
  ghost predicate ListedFirst<T>(xs: seq<T>, x: T, y: T) {
    exists k :: 0 <= k <= |xs| && x in xs[..k] && y !in xs[..k]
  }

  /** `r` is what is left of `xs` when only the first of each wanted element is kept: each such
      element once, in the order they are first listed. */
  ghost predicate FirstOfEach<T(!new)>(xs: seq<T>, want: T -> bool, r: seq<T>) {
    && Distinct(r)
    && (forall x :: x in r <==> x in xs && want(x))
    && (forall i, j :: 0 <= i < j < |r| ==> ListedFirst(xs, r[i], r[j]))
  }

  function Once<T(==)>(xs: seq<T>, want: T -> bool): seq<T> {
    if xs == [] then []
    else
      var o := Once(Front(xs), want);
      if want(Last(xs)) && Last(xs) !in o then o + [Last(xs)] else o
  }

  lemma ListedStays<T>(xs: seq<T>, x: T, y: T, z: T)
    requires ListedFirst(xs, x, y)
    ensures ListedFirst(xs + [z], x, y)
  {
    var k :| 0 <= k <= |xs| && x in xs[..k] && y !in xs[..k];
    assert (xs + [z])[..k] == xs[..k];
  }

  lemma ListedBeforeNew<T>(xs: seq<T>, x: T, z: T)
    requires x in xs && z !in xs
    ensures ListedFirst(xs + [z], x, z)
  {
    assert (xs + [z])[..|xs|] == xs;
  }

  lemma {:induction false} OnceIsFirstOfEach<T(!new)>(xs: seq<T>, want: T -> bool)
    ensures FirstOfEach(xs, want, Once(xs, want))
  {
    hide ListedFirst;
    if xs != [] {
      var front, z := Front(xs), Last(xs);
      assert xs == front + [z];
      OnceIsFirstOfEach(front, want);
      var o, r := Once(front, want), Once(xs, want);
      forall i, j | 0 <= i < j < |r|
        ensures ListedFirst(xs, r[i], r[j])
      {
        assert r[i] == o[i];
        if j < |o| {
          ListedStays(front, r[i], r[j], z);
        } else {
          assert r[i] in o && r[j] == z;
          ListedBeforeNew(front, r[i], z);
        }
      }
    }
  }

  lemma {:induction false} OnceMore<T>(xs: seq<T>, ys: seq<T>, want: T -> bool)
    requires ys != []
    ensures var o := Once(xs + Front(ys), want);
      Once(xs + ys, want) == if want(Last(ys)) && Last(ys) !in o then o + [Last(ys)] else o
  {
    assert Front(xs + ys) == xs + Front(ys) && Last(xs + ys) == Last(ys);
  }

  // ---------------------------------------------------------------------------
  // the routing table
  // ---------------------------------------------------------------------------

  /** The hops of every route whose validity overlaps the window, in table order. */
  function Listing(routes: seq<TimedRoute>, range: TimeRange): seq<NodeId> {
    if routes == [] then []
    else Listing(Front(routes), range) + if Last(routes).validity.Overlaps(range) then Last(routes).hops else []
  }

  lemma {:induction false} ListingHas(routes: seq<TimedRoute>, range: TimeRange, m: NodeId)
    ensures m in Listing(routes, range) <==> exists q :: q in routes && q.validity.Overlaps(range) && m in q.hops
  {
    if routes != [] {
      ListingHas(Front(routes), range, m);
      assert routes == Front(routes) + [Last(routes)];
    }
  }

  lemma {:induction false} AddHopsIsOnce(crosslinked: seq<NodeId>, before: seq<NodeId>, hops: seq<NodeId>)
    ensures AddHops(crosslinked, Once(before, x => x in crosslinked), hops) == Once(before + hops, x => x in crosslinked)
  {
    if hops == [] {
      assert before + hops == before;
    } else {
      AddHopsIsOnce(crosslinked, before, Front(hops));
      OnceMore(before, hops, x => x in crosslinked);
    }
  }

  lemma {:induction false} DirectedIsOnce(crosslinked: seq<NodeId>, routes: seq<TimedRoute>, range: TimeRange)
    ensures Directed(crosslinked, routes, range) == Once(Listing(routes, range), x => x in crosslinked)
  {
    if routes != [] {
      DirectedIsOnce(crosslinked, Front(routes), range);
      AddHopsIsOnce(crosslinked, Listing(Front(routes), range), Last(routes).hops);
      assert Listing(Front(routes), range) + [] == Listing(Front(routes), range);
    }
  }

  /** The directed hops are exactly the cross-linked hops of the routes valid in the window,
      each once, in table order. */
  lemma DirectedIsExact(crosslinked: seq<NodeId>, routes: seq<TimedRoute>, range: TimeRange)
    ensures FirstOfEach(Listing(routes, range), x => x in crosslinked, Directed(crosslinked, routes, range))
  {
    DirectedIsOnce(crosslinked, routes, range);
    OnceIsFirstOfEach(Listing(routes, range), x => x in crosslinked);
  }

  /** Some route to `dest`, valid in the window, has a cross-linked hop. */
  ghost predicate HasDirection(table: RouteTable, crosslinked: seq<NodeId>, dest: NodeId, range: TimeRange) {
    dest in table && exists m :: m in crosslinked && OnRoute(table[dest], range, m)
  }

  ghost predicate OnRoute(routes: seq<TimedRoute>, range: TimeRange, m: NodeId) {
    exists q :: q in routes && q.validity.Overlaps(range) && m in q.hops
  }

  /** The table directs exactly when it can; otherwise the flood falls back on the neighbour
      history as a whole. */
  lemma TableIsExact(table: RouteTable, crosslinked: seq<NodeId>, dest: NodeId, range: TimeRange)
    ensures var r := TableHops(table, crosslinked, dest, range);
      if HasDirection(table, crosslinked, dest, range)
      then r != [] && FirstOfEach(Listing(table[dest], range), x => x in crosslinked, r)
      else r == crosslinked
  {
    if dest in table {
      hide FirstOfEach;
      var all, d := Listing(table[dest], range), Directed(crosslinked, table[dest], range);
      DirectedIsExact(crosslinked, table[dest], range);
      forall m
        ensures m in d <==> m in crosslinked && OnRoute(table[dest], range, m)
      {
        FirstHas(all, x => x in crosslinked, d, m);
        ListingHas(table[dest], range, m);
      }
      if d != [] {
        assert d[0] in d;
      }
    }
  }

  lemma FirstHas<T(!new)>(xs: seq<T>, want: T -> bool, r: seq<T>, x: T)
    requires FirstOfEach(xs, want, r)
    ensures x in r <==> x in xs && want(x)
  {
  }

  /** Two windows overlap exactly when they share an instant. */
  lemma OverlapIsSharing(a: TimeRange, b: TimeRange)
    requires a.lo <= a.hi && b.lo <= b.hi
    ensures a.Overlaps(b) <==> exists t :: a.Contains(t) && b.Contains(t)
  {
    if a.Overlaps(b) {
      var t := if a.lo <= b.lo then b.lo else a.lo;
      assert a.Contains(t) && b.Contains(t);
    }
  }

  // ---------------------------------------------------------------------------
  // the neighbour history
  // ---------------------------------------------------------------------------

  function Creators(refs: seq<EventReference>): seq<NodeId> {
    seq(|refs|, i requires 0 <= i < |refs| => refs[i].creator)
  }

  /** The peers named by the clock events of the window, oldest first, references before
      reverse edges. */
  function Named(live: seq<Entry>, range: TimeRange): seq<NodeId> {
    if live == [] then []
    else
      var ce := Last(live).ce;
      Named(Front(live), range) + if range.Contains(ce.base.timestamp) then Creators(ce.base.refs) + Creators(ce.referencing) else []
  }

  lemma CreatorsSplit(refs: seq<EventReference>)
    ensures refs == [] ==> Creators(refs) == []
    ensures refs != [] ==> Creators(refs) != [] && Front(Creators(refs)) == Creators(Front(refs)) && Last(Creators(refs)) == Last(refs).creator
  {
  }

  lemma {:induction false} CollectIsOnce(self: NodeId, nbrs: seq<Neighbor>, before: seq<NodeId>, refs: seq<EventReference>)
    ensures Collect(self, nbrs, Once(before, x => x != self && IsNeighbor(nbrs, x)), refs) ==
            Once(before + Creators(refs), x => x != self && IsNeighbor(nbrs, x))
  {
    hide IsNeighbor, Creators, Once;
    CreatorsSplit(refs);
    if refs == [] {
      assert before + Creators(refs) == before;
    } else {
      CollectIsOnce(self, nbrs, before, Front(refs));
      OnceMore(before, Creators(refs), x => x != self && IsNeighbor(nbrs, x));
    }
  }

  lemma {:induction false} HistoryIsOnce(self: NodeId, live: seq<Entry>, nbrs: seq<Neighbor>, range: TimeRange)
    ensures HistoryHops(self, live, nbrs, range) == Once(Named(live, range), x => x != self && IsNeighbor(nbrs, x))
  {
    hide IsNeighbor, Creators;
    if live != [] {
      HistoryIsOnce(self, Front(live), nbrs, range);
      var before, ce := Named(Front(live), range), Last(live).ce;
      CollectIsOnce(self, nbrs, before, ce.base.refs);
      CollectIsOnce(self, nbrs, before + Creators(ce.base.refs), ce.referencing);
      assert before + [] == before;
      assert before + Creators(ce.base.refs) + Creators(ce.referencing) == before + (Creators(ce.base.refs) + Creators(ce.referencing));
    }
  }

  /** The neighbour history lists each known peer once, in the order the window first names it. */
  lemma HistoryInOrder(self: NodeId, live: seq<Entry>, nbrs: seq<Neighbor>, range: TimeRange)
    ensures FirstOfEach(Named(live, range), x => x != self && IsNeighbor(nbrs, x), HistoryHops(self, live, nbrs, range))
  {
    HistoryIsOnce(self, live, nbrs, range);
    OnceIsFirstOfEach(Named(live, range), x => x != self && IsNeighbor(nbrs, x));
  }

  // ---------------------------------------------------------------------------
  // the random lid
  // ---------------------------------------------------------------------------

  /** What round `i` over `n` candidates makes of its draw: one of the `n - i` left. */
  function Draw(n: nat, i: nat, rnd: nat -> nat): (j: nat)
    requires i < n
    ensures j < n - i
  {
    rnd(i) % (n - i)
  }

  lemma Round(cand: seq<NodeId>, k: nat, rnd: nat -> nat)
    requires k < |cand|
    ensures Shuffle(cand, k + 1, rnd) == Swap(Shuffle(cand, k, rnd), k, k + Draw(|cand|, k, rnd))
  {
  }

  /** Two sources draw the same in the first `k` rounds. */
  ghost predicate SameDraws(n: nat, k: nat, a: nat -> nat, b: nat -> nat)
    requires k <= n
  {
    forall i :: 0 <= i < k ==> Draw(n, i, a) == Draw(n, i, b)
  }

  lemma {:induction false} DrawsDecide(cand: seq<NodeId>, k: nat, a: nat -> nat, b: nat -> nat)
    requires k <= |cand| && SameDraws(|cand|, k, a, b)
    ensures Shuffle(cand, k, a) == Shuffle(cand, k, b)
  {
    hide Draw, Shuffle;
    if k > 0 {
      DrawsDecide(cand, k - 1, a, b);
      Round(cand, k - 1, a);
      Round(cand, k - 1, b);
    } else {
      Unshuffled(cand, a);
      Unshuffled(cand, b);
    }
  }

  lemma Unshuffled(cand: seq<NodeId>, rnd: nat -> nat)
    ensures Shuffle(cand, 0, rnd) == cand
  {
  }

  /** A round leaves what earlier rounds have placed. */
  lemma RoundKeeps(cand: seq<NodeId>, k: nat, rnd: nat -> nat)
    requires k < |cand|
    ensures var s, r := Shuffle(cand, k, rnd), Shuffle(cand, k + 1, rnd);
      r[..k] == s[..k] && r[k] == s[k + Draw(|cand|, k, rnd)]
  {
    hide Draw, Shuffle;
    Round(cand, k, rnd);
  }

  lemma {:induction false} ShuffleHasAll(cand: seq<NodeId>, k: nat, rnd: nat -> nat, m: NodeId)
    requires k <= |cand| && m in cand
    ensures m in Shuffle(cand, k, rnd)
  {
    hide Draw, Shuffle;
    if k > 0 {
      ShuffleHasAll(cand, k - 1, rnd, m);
      Round(cand, k - 1, rnd);
      SwapHasAll(Shuffle(cand, k - 1, rnd), k - 1, k - 1 + Draw(|cand|, k - 1, rnd), m);
    } else {
      Unshuffled(cand, rnd);
    }
  }

  lemma SwapHasAll(s: seq<NodeId>, i: nat, j: nat, m: NodeId)
    requires i < |s| && j < |s| && m in s
    ensures m in Swap(s, i, j)
  {
    var x :| 0 <= x < |s| && s[x] == m;
    assert Swap(s, i, j)[if x == i then j else if x == j then i else x] == m;
  }

  /** Different draws place different candidates. */
  lemma {:induction false} PickIsInjective(cand: seq<NodeId>, k: nat, a: nat -> nat, b: nat -> nat)
    requires Distinct(cand) && k <= |cand| && Shuffle(cand, k, a)[..k] == Shuffle(cand, k, b)[..k]
    ensures SameDraws(|cand|, k, a, b)
  {
    hide Draw, Shuffle;
    if k > 0 {
      var s, t := Shuffle(cand, k, a), Shuffle(cand, k, b);
      RoundKeeps(cand, k - 1, a);
      RoundKeeps(cand, k - 1, b);
      assert s[..k][..k - 1] == t[..k][..k - 1] && s[..k][k - 1] == t[..k][k - 1];
      assert Shuffle(cand, k - 1, a)[..k - 1] == s[..k][..k - 1] && Shuffle(cand, k - 1, b)[..k - 1] == t[..k][..k - 1];
      PickIsInjective(cand, k - 1, a, b);
      DrawsDecide(cand, k - 1, a, b);
      ShuffleKeeps(cand, k - 1, a);
    }
  }

  /** Every arrangement of `k` candidates is drawn by some source. */
  lemma {:induction false} PickIsSurjective(cand: seq<NodeId>, pick: seq<NodeId>) returns (rnd: nat -> nat)
    requires Distinct(cand) && Distinct(pick) && (forall m :: m in pick ==> m in cand) && |pick| <= |cand|
    ensures Shuffle(cand, |pick|, rnd)[..|pick|] == pick
  {
    hide Draw, Shuffle;
    var k := |pick|;
    if k == 0 {
      rnd := (i: nat) => 0;
    } else {
      var front := Front(pick);
      assert pick == front + [Last(pick)];
      var a := PickIsSurjective(cand, front);
      var s := Shuffle(cand, k - 1, a);
      ShuffleHasAll(cand, k - 1, a, Last(pick));
      var j :| 0 <= j < |s| && s[j] == Last(pick);
      assert forall i :: 0 <= i < k - 1 ==> s[i] == s[..k - 1][i] == pick[i];
      rnd := NextDraw(|cand|, k - 1, a, j - (k - 1));
      DrawsDecide(cand, k - 1, a, rnd);
      RoundKeeps(cand, k - 1, rnd);
      var r := Shuffle(cand, k, rnd);
      assert r[..k] == r[..k - 1] + [r[k - 1]];
    }
  }

  lemma NextDraw(n: nat, k: nat, a: nat -> nat, x: nat) returns (rnd: nat -> nat)
    requires k < n && x < n - k
    ensures Draw(n, k, rnd) == x && SameDraws(n, k, a, rnd)
  {
    rnd := (i: nat) => if i == k then x else a(i);
    Small(x, n - k);
  }

  lemma Small(x: nat, n: nat)
    requires x < n
    ensures x % n == x
  {
  }

  /** Below the number of candidates the lid picks every arrangement of `k` of them, each by
      exactly one outcome of its `k` draws, which range over `n`, `n - 1`, ... values: the pick
      is as uniform as the draws are. */
  lemma SampleIsUniform(cand: seq<NodeId>, k: nat, pick: seq<NodeId>) returns (rnd: nat -> nat)
    requires Distinct(cand) && 0 < k < |cand| && |pick| == k && Distinct(pick) && forall m :: m in pick ==> m in cand
    ensures Sample(cand, k, rnd) == pick
    ensures forall other :: Sample(cand, k, other) == pick <==> SameDraws(|cand|, k, rnd, other)
  {
    rnd := PickIsSurjective(cand, pick);
    forall other
      ensures Sample(cand, k, other) == pick <==> SameDraws(|cand|, k, rnd, other)
    {
      if Sample(cand, k, other) == pick {
        PickIsInjective(cand, k, rnd, other);
      }
      if SameDraws(|cand|, k, rnd, other) {
        DrawsDecide(cand, k, rnd, other);
      }
    }
  }

  // ---------------------------------------------------------------------------
  // learning routes
  // ---------------------------------------------------------------------------

  /** A static route, once learned, is the one hop taken towards its destination, if that hop
      is a neighbour; every other destination is reached as before. */
  lemma RouteIsLearned(s: NodeState, dest: NodeId, hop: NodeId, d: NodeId)
    ensures var r := LearnRoute(s, dest, hop);
      && r == s.(routes := r.routes)
      && (d == dest && IsNeighbor(s.nbrs, hop) ==> StaticHops(r.nbrs, r.routes, d) == [hop])
      && (d == dest && !IsNeighbor(s.nbrs, hop) ==> StaticHops(r.nbrs, r.routes, d) == [])
      && (d != dest ==> StaticHops(r.nbrs, r.routes, d) == StaticHops(s.nbrs, s.routes, d))
  {
  }

  function Towards(table: RouteTable, d: NodeId, range: TimeRange): seq<NodeId> {
    if d in table then Listing(table[d], range) else []
  }

  /** A timed route, once learned, is listed after those already known towards its destination,
      for exactly the windows its validity overlaps; nothing changes for other destinations. */
  lemma DirectionIsLearned(s: NodeState, dest: NodeId, hop: NodeId, validity: TimeRange, d: NodeId, range: TimeRange)
    ensures var r := LearnRouteAt(s, dest, hop, validity);
      && r == s.(timed := r.timed)
      && Towards(r.timed, d, range) == Towards(s.timed, d, range) + if d == dest && validity.Overlaps(range) then [hop] else []
  {
    var known := if dest in s.timed then s.timed[dest] else [];
    var q := TimedRoute(validity, [hop]);
    assert Front(known + [q]) == known && Last(known + [q]) == q;
    assert Listing(known, range) == Towards(s.timed, dest, range);
    assert Towards(s.timed, d, range) + [] == Towards(s.timed, d, range);
  }
}
