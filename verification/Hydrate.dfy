/** Rebuilding a node's working set from its store: which tails a restart recovers,
    and that only a restart can make a chain reference an event again. */
module Hydrate {
  import opened Domain
  import opened Hashing
  import opened History
  import opened Log
  import opened NodeModel
  import opened Network
  import opened Invariant
  import opened Preservation
  import Bounds
  import ChainBuild

  // ---------------------------------------------------------------------------
  // tails in the history
  // ---------------------------------------------------------------------------

  lemma {:induction false} FirstTickAfter(H: History, n: NodeId, c: nat, k: nat, j: nat) returns (m: nat)
    requires k < j <= |H| && !Bounds.Quiet(H, k, j, n, c)
    ensures k < m < j && TickOn(H, m, n, c) && Bounds.Quiet(H, k, m, n, c)
    decreases j
  {
    if Bounds.Quiet(H, k, j - 1, n, c) {
      m := j - 1;
      assert TickOn(H, m, n, c);
    } else {
      m := FirstTickAfter(H, n, c, k, j - 1);
    }
  }

  /** An event that left a chain's tail was referenced by a tick of that chain. */
  lemma LeftTailIsReferenced(st: Setup, H: History, n: NodeId, c: nat, e: Event) returns (j: nat)
    requires Ok(st, H) && e in EventsOf(H, n) && e !in TailOf(H, n, c)
    ensures j < |H| && TickOn(H, j, n, c) && EventRef(e) in H[j].c.refs
  {
    EventsOfMembers(H, n, e);
    var k: nat :| k < |H| && H[k].Ev? && H[k].e == e;
    assert H[..|H|] == H;
    if Bounds.Quiet(H, k, |H|, n, c) {
      Bounds.TailHolds(H, n, c, k, |H|);
    }
    j := FirstTickAfter(H, n, c, k, |H|);
    Bounds.TickPinsEvent(st, H, n, c, k, j);
  }

  // ---------------------------------------------------------------------------
  // the rebuilt tail
  // ---------------------------------------------------------------------------

  /** The event just before the tail, if any: the last one chain `c` has referenced. */
  ghost function Referenced(s: NodeState, c: nat): seq<Event>
    requires c < |s.tails| && |s.tails[c]| <= |s.log.events|
  {
    s.log.events[..|s.log.events| - |s.tails[c]|]
  }

  lemma RebuildOne(st: Setup, H: History, n: NodeId, s: NodeState, c: nat)
    requires Ok(st, H) && NodeOk(st, H, n, s) && c < |s.tails|
    ensures |s.tails[c]| <= |s.log.events|
    ensures RebuiltTail(s.log.events, s.log.live, c) == RebuiltTail(Referenced(s, c), s.log.live, c) + s.tails[c]
  {
    var E, T := s.log.events, s.tails[c];
    assert TailOk(H, n, s.log.live, c, T);
    assert E == Referenced(s, c) + T;
    RebuildSplits(Referenced(s, c), T, s.log.live, c);
  }

  /** What a restart rebuilds always ends in the tail the running node kept, and is exactly
      that tail if and only if the newest event the chain referenced is still referenced by a
      live clock event of the chain. */
  lemma RestartRecoversTail(st: Setup, w: World, n: NodeId, c: nat)
    requires HonestSigner(st.cr) && Reachable(st, w) && n in w.nodes && c < |w.nodes[n].tails|
    ensures var s := w.nodes[n]; |s.tails[c]| <= |s.log.events|
    ensures var s := w.nodes[n]; var r := RebuiltTail(s.log.events, s.log.live, c);
      && |r| >= |s.tails[c]| && r[|r| - |s.tails[c]|..] == s.tails[c]
      && (r == s.tails[c] <==> Referenced(s, c) == [] || ReferencedBy(s.log.live, Last(Referenced(s, c)).hash, c))
  {
    ReachableInv(st, w);
    RebuildOne(st, w.H, n, w.nodes[n], c);
  }

  lemma LastBeforeTail(st: Setup, H: History, n: NodeId, s: NodeState, c: nat)
    requires Ok(st, H) && NodeOk(st, H, n, s) && c < |s.tails| && |s.tails[c]| <= |s.log.events| && Referenced(s, c) != []
    ensures Last(Referenced(s, c)) in EventsOf(H, n) && Last(Referenced(s, c)) !in TailOf(H, n, c)
  {
    var E, T, U := s.log.events, s.tails[c], TailOf(H, n, c);
    assert TailOk(H, n, s.log.live, c, T);
    TailIsSuffix(H, n, c);
    var i := |E| - |T| - 1;
    assert Last(Referenced(s, c)) == E[i];
    if E[i] in U {
      var j :| 0 <= j < |U| && U[j] == E[i];
      assert E[|E| - |U| + j] == E[i];
      EventsDistinct(st, H, n, i, |E| - |U| + j);
    }
  }

  lemma {:induction false} EventsDistinct(st: Setup, H: History, n: NodeId, i: nat, j: nat)
    requires Ok(st, H) && i < j < |EventsOf(H, n)|
    ensures EventsOf(H, n)[i].hash != EventsOf(H, n)[j].hash
  {
    var E := EventsOf(Front(H), n);
    OkAt(st, H, |H| - 1);
    if j < |E| {
      EventsDistinct(st, Front(H), n, i, j);
    } else {
      EventsOfMembers(Front(H), n, E[i]);
      var k :| 0 <= k < |H| - 1 && Front(H)[k].Ev? && Front(H)[k].e == E[i];
      assert Front(H)[k] in Front(H);
    }
  }

  // ---------------------------------------------------------------------------
  // until it restarts
  // ---------------------------------------------------------------------------

  /** Every tail holds exactly what was published since its chain last ticked. */
  ghost predicate TailsExact(H: History, n: NodeId, s: NodeState) {
    forall c :: 0 <= c < |s.tails| ==> s.tails[c] == TailOf(H, n, c)
  }

  lemma OnlyTheseTouchTails(st: Setup, w: World, a: Action)
    requires Enabled(st, w, a) && IsNodeStep(a) && !a.DoPublish? && !a.DoTick? && !a.Restart?
    ensures Effect(st, w, a).0.tails == w.nodes[Actor(w, a)].tails
  {
    hide NewClock, NewEvent;
  }

  lemma OthersTails(H: History, x: Item, n: NodeId, s: NodeState)
    requires TailsExact(H, n, s) && x.Creator() != n
    ensures TailsExact(H + [x], n, s)
  {
    AppendFacts(H, x);
  }

  lemma OwnTails(st: Setup, w: World, a: Action)
    requires Enabled(st, w, a) && (a.DoPublish? || a.DoTick?) && w.nodes[a.n].id == a.n && TailsExact(w.H, a.n, w.nodes[a.n])
    ensures TailsExact(Recorded(st, w, a), a.n, Effect(st, w, a).0)
  {
    hide Prune, Notifications, LiveTipRefs, NeighborRefs, Tip;
    if a.DoPublish? {
      AppendFacts(w.H, Ev(NewEvent(w.nodes[a.n], st.cr, a.data, a.salt), a.now));
    } else {
      AppendFacts(w.H, Ck(NewClock(w.nodes[a.n], st.cr, a.chain, a.salt, a.now), a.now));
    }
  }

  lemma StepTails(st: Setup, w: World, a: Action, n: NodeId)
    requires Inv(st, w) && Enabled(st, w, a) && n in w.nodes && a != Restart(n) && TailsExact(w.H, n, w.nodes[n])
    ensures n in Step(st, w, a).nodes && TailsExact(Step(st, w, a).H, n, Step(st, w, a).nodes[n])
  {
    hide TailsExact, Effect, NewClock, NewEvent, NodeOk;
    if IsNodeStep(a) {
      RecordedGrows(st, w, a);
      if Actor(w, a) != n {
        if Recorded(st, w, a) != w.H {
          OthersTails(w.H, Last(Recorded(st, w, a)), n, w.nodes[n]);
        }
      } else if a.DoPublish? || a.DoTick? {
        OwnId(st, w, n);
        OwnTails(st, w, a);
      } else {
        OnlyTheseTouchTails(st, w, a);
        SameTailsExact(w.H, n, w.nodes[n], Effect(st, w, a).0);
      }
    }
  }

  lemma SameTailsExact(H: History, n: NodeId, s: NodeState, s': NodeState)
    requires TailsExact(H, n, s) && s'.tails == s.tails
    ensures TailsExact(H, n, s')
  {
  }

  /** A node that has not restarted keeps exactly the events each chain has yet to reference. */
  lemma {:induction false} TailsExactUntilRestart(st: Setup, run: seq<Action>, w: World, n: NodeId)
    requires HonestSigner(st.cr) && Runs(st, run, w) && Restart(n) !in run && n in st.cfg
    ensures n in w.nodes && TailsExact(w.H, n, w.nodes[n])
  {
    if run != [] {
      var v :| Runs(st, Front(run), v) && Enabled(st, v, Last(run)) && w == Step(st, v, Last(run));
      TailsExactUntilRestart(st, Front(run), v, n);
      hide Runs, Step, TailsExact, NodeOk, Enabled;
      assert Reachable(st, v);
      ReachableInv(st, v);
      StepTails(st, v, Last(run), n);
    }
  }

  /** Nothing of the chain has been pruned away. */
  ghost predicate Complete(H: History, n: NodeId, live: seq<Entry>, c: nat) {
    OnChain(live, c) == ClocksOn(H, n, c)
  }

  /** On an unpruned chain a restart recovers exactly the tail. */
  lemma UnprunedTailsSurvive(st: Setup, H: History, n: NodeId, s: NodeState, c: nat)
    requires Ok(st, H) && NodeOk(st, H, n, s) && c < |s.tails| && Complete(H, n, s.log.live, c)
    ensures RebuiltTail(s.log.events, s.log.live, c) == s.tails[c]
  {
    RebuildOne(st, H, n, s, c);
    if Referenced(s, c) != [] {
      var e := Last(Referenced(s, c));
      LastBeforeTail(st, H, n, s, c);
      var j := LeftTailIsReferenced(st, H, n, c, e);
      ClocksOnMembers(H, n, c, H[j].c);
      OnChainMembers(s.log.live, c, H[j].c);
      assert ReferencedBy(s.log.live, e.hash, c) by {
        var f :| f in s.log.live && f.ce.base == H[j].c;
        var m :| 0 <= m < |H[j].c.refs| && H[j].c.refs[m] == EventRef(e);
        assert Mentions(f.ce.base.refs, e.hash);
      }
    }
  }

  lemma {:induction false} OnChainMembers(live: seq<Entry>, c: nat, x: ClockEvent)
    requires x in OnChain(live, c)
    ensures x.chain == c && exists f :: f in live && f.ce.base == x
  {
    if x in OnChain(Front(live), c) {
      OnChainMembers(Front(live), c, x);
      var f :| f in Front(live) && f.ce.base == x;
      assert f in live;
    } else {
      assert Last(live) in live;
    }
  }
}
