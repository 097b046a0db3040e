/** Where the two walks of the return leg stop. Extending a chain toward a neighbour stops at the
    first clock event that is cross-linked with the neighbour, and gives up only when the walk
    runs out without meeting one. */
module Walks {
  import opened Domain
  import opened Log
  import ChainBuild
  import Ring
  import Router

  // ---------------------------------------------------------------------------
  // the two steps, said without the store's reads
  // ---------------------------------------------------------------------------

  ghost predicate NotLive(live: seq<Entry>, h: Hash) {
    forall e :: e in live ==> e.ce.base.hash != h
  }

  /** `refs[i]` names the live own clock event `f`. */
  ghost predicate NamesLive(live: seq<Entry>, id: NodeId, refs: seq<EventReference>, i: int, f: Entry) {
    0 <= i < |refs| && refs[i].creator == id && f in live && f.ce.base.hash == refs[i].hash
  }

  /** `f` is the clock event that the first own live reference names. */
  ghost predicate FirstNamed(live: seq<Entry>, id: NodeId, refs: seq<EventReference>, f: Entry) {
    exists i :: NamesLive(live, id, refs, i, f) && Dead(live, id, refs[..i])
  }

  /** `f` is the predecessor of `e`. */
  ghost predicate PredecessorOf(live: seq<Entry>, id: NodeId, f: Entry, e: Entry) {
    FirstNamed(live, id, e.ce.base.refs, f)
  }

  /** None of the references names a live own clock event. */
  ghost predicate Dead(live: seq<Entry>, id: NodeId, refs: seq<EventReference>) {
    forall r :: r in refs && r.creator == id ==> NotLive(live, r.hash)
  }

  /** `f` is a live own clock event of the same chain that references `e`. */
  ghost predicate Succeeds(live: seq<Entry>, id: NodeId, e: Entry, f: Entry) {
    f in live && f.ce.base.creator == id && f.ce.base.chain == e.ce.base.chain
    && exists r :: r in f.ce.base.refs && r.hash == e.ce.base.hash
  }

  /** ... and the oldest such. */
  ghost predicate SuccessorOf(live: seq<Entry>, id: NodeId, e: Entry, f: Entry) {
    Succeeds(live, id, e, f) && forall g :: Succeeds(live, id, e, g) ==> f.at <= g.at
  }

  /** One of the references names the neighbour. */
  ghost predicate Links(refs: seq<EventReference>, nb: NodeId) {
    exists r :: r in refs && r.creator == nb
  }

  lemma LinksNames(refs: seq<EventReference>, nb: NodeId)
    ensures Router.NamesCreator(refs, nb) <==> Links(refs, nb)
  {
    if Router.NamesCreator(refs, nb) {
      var i :| 0 <= i < |refs| && refs[i].creator == nb;
      assert refs[i] in refs;
    }
  }

  lemma LiveFound(log: Log, h: Hash)
    requires WellFormed(log)
    ensures ByHash(log.live, h).None? <==> NotLive(log.live, h)
    ensures forall f :: f in log.live && f.ce.base.hash == h ==> ByHash(log.live, h) == Some(f)
  {
    forall f | f in log.live && f.ce.base.hash == h
      ensures ByHash(log.live, h) == Some(f)
    {
      Ring.HashFinds(log.live, log.next, f);
    }
  }

  /** The read the walk back makes finds the predecessor, or nothing exactly when there is none. */
  lemma {:induction false} FirstOwnFinds(log: Log, id: NodeId, refs: seq<EventReference>)
    requires WellFormed(log)
    ensures var f := FirstOwn(log.live, id, refs);
      && (f.None? <==> Dead(log.live, id, refs))
      && (f.Some? ==> FirstNamed(log.live, id, refs, f.value))
  {
    hide WellFormed, ByHash;
    if refs != [] {
      FirstOwnFinds(log, id, refs[1..]);
      LiveFound(log, refs[0].hash);
      assert refs == [refs[0]] + refs[1..];
      var f := FirstOwn(log.live, id, refs);
      if f.Some? {
        if refs[0].creator == id && ByHash(log.live, refs[0].hash).Some? {
          FoundHolds(log.live, refs[0].hash);
          assert NamesLive(log.live, id, refs, 0, f.value) && Dead(log.live, id, refs[..0]);
        } else {
          var i :| NamesLive(log.live, id, refs[1..], i, f.value) && Dead(log.live, id, refs[1..][..i]);
          assert refs[..i + 1] == [refs[0]] + refs[1..][..i];
          assert NamesLive(log.live, id, refs, i + 1, f.value) && Dead(log.live, id, refs[..i + 1]);
        }
      }
    }
  }

  lemma FoundHolds(live: seq<Entry>, h: Hash)
    ensures var f := ByHash(live, h); f.Some? ==> f.value in live && f.value.ce.base.hash == h
  {
  }

  lemma FirstNamedIsOne(log: Log, id: NodeId, refs: seq<EventReference>, f: Entry, g: Entry)
    requires WellFormed(log) && FirstNamed(log.live, id, refs, f) && FirstNamed(log.live, id, refs, g)
    ensures f == g
  {
    var i :| NamesLive(log.live, id, refs, i, f) && Dead(log.live, id, refs[..i]);
    var j :| NamesLive(log.live, id, refs, j, g) && Dead(log.live, id, refs[..j]);
    LiveFound(log, refs[i].hash);
  }

  lemma NextFinds(log: Log, id: NodeId, e: Entry)
    requires WellFormed(log) && e in log.live
    ensures var f := NextOnChain(log.live, id, e.ce.base);
      && (f.None? <==> forall g :: !Succeeds(log.live, id, e, g))
      && (f.Some? ==> SuccessorOf(log.live, id, e, f.value))
  {
    var f := NextOnChain(log.live, id, e.ce.base);
    forall g
      ensures Succeeds(log.live, id, e, g) <==>
        g in log.live && Mentions(g.ce.base.refs, e.ce.base.hash) && g.ce.base.creator == id && g.ce.base.chain == e.ce.base.chain
    {
      MentionsIsIn(g.ce.base.refs, e.ce.base.hash);
    }
    if f.Some? {
      OldestFirst(log, id, e);
    }
  }

  lemma MentionsIsIn(refs: seq<EventReference>, h: Hash)
    ensures Mentions(refs, h) <==> exists r :: r in refs && r.hash == h
  {
    if Mentions(refs, h) {
      var i :| 0 <= i < |refs| && refs[i].hash == h;
      assert refs[i] in refs;
    }
  }

  lemma OldestFirst(log: Log, id: NodeId, e: Entry)
    requires WellFormed(log) && NextOnChain(log.live, id, e.ce.base).Some?
    ensures var f := NextOnChain(log.live, id, e.ce.base).value;
      forall g :: g in log.live && Mentions(g.ce.base.refs, e.ce.base.hash) && g.ce.base.creator == id && g.ce.base.chain == e.ce.base.chain
        ==> f.at <= g.at
  {
    hide Mentions, Backward, DistinctHashes;
    var c, f := e.ce.base, NextOnChain(log.live, id, e.ce.base).value;
    var i :| 0 <= i < |log.live| && log.live[i] == f
      && forall j :: 0 <= j < i ==> !(Mentions(log.live[j].ce.base.refs, c.hash) && log.live[j].ce.base.creator == id && log.live[j].ce.base.chain == c.chain);
    forall g | g in log.live && Mentions(g.ce.base.refs, c.hash) && g.ce.base.creator == id && g.ce.base.chain == c.chain
      ensures f.at <= g.at
    {
      var k :| 0 <= k < |log.live| && log.live[k] == g;
      assert i <= k;
    }
  }

  lemma SuccessorIsOne(log: Log, id: NodeId, e: Entry, f: Entry, g: Entry)
    requires WellFormed(log) && SuccessorOf(log.live, id, e, f) && SuccessorOf(log.live, id, e, g)
    ensures f == g
  {
    var i :| 0 <= i < |log.live| && log.live[i] == f;
    var j :| 0 <= j < |log.live| && log.live[j] == g;
  }

  // ---------------------------------------------------------------------------
  // walking back
  // ---------------------------------------------------------------------------

  /** Each entry is the predecessor of the one before it. */
  ghost predicate BackPath(live: seq<Entry>, id: NodeId, p: seq<Entry>) {
    p != [] && forall i :: 0 < i < |p| ==> PredecessorOf(live, id, p[i], p[i - 1])
  }

  /** The clock events of a path, last first. */
  function Flipped(p: seq<Entry>): (r: seq<ClockEvent>)
    ensures |r| == |p| && forall i :: 0 <= i < |p| ==> r[i] == p[|p| - 1 - i].ce.base
  {
    seq(|p|, i requires 0 <= i < |p| => p[|p| - 1 - i].ce.base)
  }

  /** The path stops at its first entry that references the neighbour, or runs out without one. */
  ghost predicate StopsBack(live: seq<Entry>, id: NodeId, nb: NodeId, p: seq<Entry>, found: bool) {
    && BackPath(live, id, p)
    && (forall i :: 0 <= i < |p| - 1 ==> !Links(p[i].ce.base.refs, nb))
    && (found <==> Links(Last(p).ce.base.refs, nb))
    && (!found ==> Dead(live, id, Last(p).ce.base.refs))
  }

  lemma {:induction false} WalkBackStops(log: Log, id: NodeId, nb: NodeId, cur: Entry, lower: seq<ClockEvent>) returns (p: seq<Entry>)
    requires WellFormed(log) && cur in log.live
    ensures var r := ChainBuild.WalkBack(log.live, id, nb, cur, lower);
      && p != [] && p[0] == cur && StopsBack(log.live, id, nb, p, r.Some?)
      && (r.Some? ==> r.value == Flipped(p[1..]) + lower)
    decreases cur.at
  {
    hide WellFormed, FirstOwn, PredecessorOf, Dead;
    LinksNames(cur.ce.base.refs, nb);
    var prev := FirstOwn(log.live, id, cur.ce.base.refs);
    if Router.NamesCreator(cur.ce.base.refs, nb) {
      p := [cur];
    } else {
      StepBack(log, id, cur);
      if prev.None? {
        p := [cur];
      } else {
        ChainBuild.WalkBackSteps(log, id, cur);
        var q := WalkBackStops(log, id, nb, prev.value, [prev.value.ce.base] + lower);
        p := [cur] + q;
        PathGrows(log.live, id, nb, cur, q, lower, ChainBuild.WalkBack(log.live, id, nb, prev.value, [prev.value.ce.base] + lower));
      }
    }
  }

  lemma StepBack(log: Log, id: NodeId, e: Entry)
    requires WellFormed(log)
    ensures var f := FirstOwn(log.live, id, e.ce.base.refs);
      (f.None? <==> Dead(log.live, id, e.ce.base.refs)) && (f.Some? ==> f.value in log.live && PredecessorOf(log.live, id, f.value, e))
  {
    hide FirstOwn, WellFormed;
    FirstOwnFinds(log, id, e.ce.base.refs);
  }

  lemma PathGrows(live: seq<Entry>, id: NodeId, nb: NodeId, cur: Entry, q: seq<Entry>, lower: seq<ClockEvent>, r: Option<seq<ClockEvent>>)
    requires StopsBack(live, id, nb, q, r.Some?) && PredecessorOf(live, id, q[0], cur) && !Links(cur.ce.base.refs, nb)
    requires r.Some? ==> r.value == Flipped(q[1..]) + ([q[0].ce.base] + lower)
    ensures StopsBack(live, id, nb, [cur] + q, r.Some?)
    ensures r.Some? ==> r.value == Flipped(([cur] + q)[1..]) + lower
  {
    hide PredecessorOf, Links, Dead;
    var p := [cur] + q;
    assert forall i :: 0 < i < |p| ==> p[i] == q[i - 1];
    assert p[1..] == q && Flipped(q) == Flipped(q[1..]) + [q[0].ce.base];
  }

  /** Any path from the same entry follows the same way. */
  lemma {:induction false} BackPathIsOne(log: Log, id: NodeId, p: seq<Entry>, q: seq<Entry>, i: nat)
    requires WellFormed(log) && BackPath(log.live, id, p) && BackPath(log.live, id, q) && p[0] == q[0] && i < |p| && i < |q|
    ensures p[i] == q[i]
  {
    if i > 0 {
      BackPathIsOne(log, id, p, q, i - 1);
      hide WellFormed, PredecessorOf;
      FirstNamedIsOne(log, id, p[i - 1].ce.base.refs, p[i], q[i]);
    }
  }

  lemma DeadEnds(live: seq<Entry>, id: NodeId, f: Entry, e: Entry)
    requires Dead(live, id, e.ce.base.refs)
    ensures !PredecessorOf(live, id, f, e)
  {
  }

  // ---------------------------------------------------------------------------
  // walking forward
  // ---------------------------------------------------------------------------

  /** Each entry follows the one before it. */
  ghost predicate ForwardPath(live: seq<Entry>, id: NodeId, p: seq<Entry>) {
    p != [] && forall i :: 0 < i < |p| ==> SuccessorOf(live, id, p[i - 1], p[i])
  }

  /** The path stops at its first entry that the neighbour is known to reference, or runs out. */
  ghost predicate StopsForward(live: seq<Entry>, id: NodeId, nb: NodeId, p: seq<Entry>, found: bool) {
    && ForwardPath(live, id, p)
    && (forall i :: 0 <= i < |p| - 1 ==> !Links(p[i].ce.referencing, nb))
    && (found <==> Links(Last(p).ce.referencing, nb))
    && (!found ==> forall g :: !Succeeds(live, id, Last(p), g))
  }

  function Bases(p: seq<Entry>): (r: seq<ClockEvent>)
    ensures |r| == |p| && forall i :: 0 <= i < |p| ==> r[i] == p[i].ce.base
  {
    seq(|p|, i requires 0 <= i < |p| => p[i].ce.base)
  }

  lemma {:induction false} WalkForwardStops(log: Log, id: NodeId, nb: NodeId, cur: Entry, upper: seq<ClockEvent>) returns (p: seq<Entry>)
    requires WellFormed(log) && cur in log.live
    ensures var r := ChainBuild.WalkForward(log.live, log.next, id, nb, cur, upper);
      && p != [] && p[0] == cur && StopsForward(log.live, id, nb, p, r.Some?)
      && (r.Some? ==> r.value == upper + Bases(p[1..]))
    decreases log.next - cur.at
  {
    hide WellFormed, NextOnChain, Succeeds, SuccessorOf;
    LinksNames(cur.ce.referencing, nb);
    var succ := NextOnChain(log.live, id, cur.ce.base);
    if Router.NamesCreator(cur.ce.referencing, nb) {
      p := [cur];
    } else {
      NextFinds(log, id, cur);
      if succ.None? {
        p := [cur];
      } else {
        ChainBuild.WalkForwardSteps(log, id, cur);
        NextIsLive(log.live, id, cur);
        var upper' := upper + [succ.value.ce.base];
        var q := WalkForwardStops(log, id, nb, succ.value, upper');
        p := [cur] + q;
        ForwardGrows(log.live, id, nb, cur, q, upper, ChainBuild.WalkForward(log.live, log.next, id, nb, succ.value, upper'));
      }
    }
  }

  lemma NextIsLive(live: seq<Entry>, id: NodeId, e: Entry)
    ensures var f := NextOnChain(live, id, e.ce.base); f.Some? ==> f.value in live
  {
  }

  lemma ForwardGrows(live: seq<Entry>, id: NodeId, nb: NodeId, cur: Entry, q: seq<Entry>, upper: seq<ClockEvent>, r: Option<seq<ClockEvent>>)
    requires StopsForward(live, id, nb, q, r.Some?) && SuccessorOf(live, id, cur, q[0]) && !Links(cur.ce.referencing, nb)
    requires r.Some? ==> r.value == (upper + [q[0].ce.base]) + Bases(q[1..])
    ensures StopsForward(live, id, nb, [cur] + q, r.Some?)
    ensures r.Some? ==> r.value == upper + Bases(([cur] + q)[1..])
  {
    hide SuccessorOf, Links, Succeeds, Bases;
    var p := [cur] + q;
    assert forall i :: 0 < i < |p| ==> p[i] == q[i - 1];
    assert p[1..] == q;
    BasesStep(q, upper);
  }

  lemma BasesStep(q: seq<Entry>, upper: seq<ClockEvent>)
    requires q != []
    ensures (upper + [q[0].ce.base]) + Bases(q[1..]) == upper + Bases(q)
  {
    assert Bases(q) == [q[0].ce.base] + Bases(q[1..]);
  }

  lemma {:induction false} ForwardPathIsOne(log: Log, id: NodeId, p: seq<Entry>, q: seq<Entry>, i: nat)
    requires WellFormed(log) && ForwardPath(log.live, id, p) && ForwardPath(log.live, id, q) && p[0] == q[0] && i < |p| && i < |q|
    ensures p[i] == q[i]
  {
    if i > 0 {
      ForwardPathIsOne(log, id, p, q, i - 1);
      hide WellFormed, SuccessorOf;
      SuccessorIsOne(log, id, p[i - 1], p[i], q[i]);
    }
  }

  // ---------------------------------------------------------------------------
  // the splice
  // ---------------------------------------------------------------------------

  /** The lower leg of a hop: from the clock event that the first own live reference of the
      front names, back along predecessors, down to the first that references the neighbour. */
  ghost predicate LowerLeg(live: seq<Entry>, id: NodeId, nb: NodeId, front: seq<EventReference>, p: seq<Entry>) {
    StopsBack(live, id, nb, p, true) && FirstNamed(live, id, front, p[0])
  }

  /** `f` is the oldest live clock event that references the hash. */
  ghost predicate OldestNaming(live: seq<Entry>, h: Hash, f: Entry) {
    && f in live && (exists r :: r in f.ce.base.refs && r.hash == h)
    && forall g :: g in live && (exists r :: r in g.ce.base.refs && r.hash == h) ==> f.at <= g.at
  }

  /** The upper leg: from the oldest clock event that references the back, forward along
      successors, up to the first that the neighbour is known to reference. */
  ghost predicate UpperLeg(live: seq<Entry>, id: NodeId, nb: NodeId, back: Hash, p: seq<Entry>) {
    StopsForward(live, id, nb, p, true) && OldestNaming(live, back, p[0])
  }

  ghost predicate HasLegs(log: Log, id: NodeId, nb: NodeId, ch: EventChain, p: seq<Entry>, q: seq<Entry>) {
    LowerLeg(log.live, id, nb, FrontRefs(ch), p) && UpperLeg(log.live, id, nb, BackHash(ch), q)
  }

  function FrontRefs(ch: EventChain): seq<EventReference> {
    if ch.lower == [] then ch.event.refs else ch.lower[0].refs
  }

  function BackHash(ch: EventChain): Hash {
    if ch.upper == [] then ch.event.hash else Last(ch.upper).hash
  }

  /** The chain with a hop's two legs put around it. */
  function Wrapped(ch: EventChain, p: seq<Entry>, q: seq<Entry>): EventChain {
    EventChain(ch.event, Flipped(p) + ch.lower, ch.upper + Bases(q))
  }

  lemma LowerAttaches(log: Log, id: NodeId, ch: EventChain)
    requires WellFormed(log)
    ensures var r := ChainBuild.AddLower(log.live, id, ch);
      && (r.None? <==> Dead(log.live, id, FrontRefs(ch)))
      && (r.Some? ==> exists f :: FirstNamed(log.live, id, FrontRefs(ch), f) && r.value == ch.(lower := [f.ce.base] + ch.lower))
  {
    hide FirstOwn, WellFormed, Dead, FirstNamed;
    FirstOwnFinds(log, id, FrontRefs(ch));
    var f := FirstOwn(log.live, id, FrontRefs(ch));
    if f.Some? {
      assert ChainBuild.AddLower(log.live, id, ch).value == ch.(lower := [f.value.ce.base] + ch.lower);
    }
  }

  lemma UpperAttaches(log: Log, ch: EventChain)
    requires WellFormed(log)
    ensures var r := ChainBuild.AddUpper(log.live, ch);
      && (r.None? <==> forall f :: !OldestNaming(log.live, BackHash(ch), f))
      && (r.Some? ==> exists f :: OldestNaming(log.live, BackHash(ch), f) && r.value == ch.(upper := ch.upper + [f.ce.base]))
  {
    hide WellFormed, FirstReferencing;
    FirstNamingIsOldest(log, BackHash(ch));
    var f := FirstReferencing(log.live, BackHash(ch));
    if f.Some? {
      assert OldestNaming(log.live, BackHash(ch), f.value);
    }
  }

  lemma FirstNamingIsOldest(log: Log, h: Hash)
    requires WellFormed(log)
    ensures var f := FirstReferencing(log.live, h);
      && (f.None? ==> forall g :: !OldestNaming(log.live, h, g))
      && (f.Some? ==> OldestNaming(log.live, h, f.value))
  {
    var f := FirstReferencing(log.live, h);
    forall g | g in log.live
      ensures Mentions(g.ce.base.refs, h) <==> exists r :: r in g.ce.base.refs && r.hash == h
    {
      MentionsIsIn(g.ce.base.refs, h);
    }
    if f.Some? {
      forall g | g in log.live && Mentions(g.ce.base.refs, h)
        ensures f.value.at <= g.at
      {
        OldestIsLowest(log.live, log.next, h, g);
      }
    }
  }

  lemma OldestIsOne(log: Log, h: Hash, f: Entry, g: Entry)
    requires WellFormed(log) && OldestNaming(log.live, h, f) && OldestNaming(log.live, h, g)
    ensures f == g
  {
    var i :| 0 <= i < |log.live| && log.live[i] == f;
    var j :| 0 <= j < |log.live| && log.live[j] == g;
  }

  /** What the lower half of a splice does. */
  lemma LowerHalf(log: Log, id: NodeId, nb: NodeId, ch: EventChain) returns (p: seq<Entry>)
    requires WellFormed(log)
    ensures var a := ChainBuild.AddLower(log.live, id, ch);
      && (a.Some? ==> a.value.lower != [] && a.value.event == ch.event && a.value.upper == ch.upper)
      && var r := if a.None? then None else ChainBuild.ExtendLower(log.live, id, nb, a.value);
      && (r.Some? ==> LowerLeg(log.live, id, nb, FrontRefs(ch), p) && r.value == ch.(lower := Flipped(p) + ch.lower))
      && (r.None? ==> forall q :: !LowerLeg(log.live, id, nb, FrontRefs(ch), q))
  {
    p := [];
    var a := ChainBuild.AddLower(log.live, id, ch);
    LowerAttaches(log, id, ch);
    if a.None? {
      forall q
        ensures !LowerLeg(log.live, id, nb, FrontRefs(ch), q)
      {
        NoFront(log.live, id, nb, FrontRefs(ch), q);
      }
    } else {
      var f :| FirstNamed(log.live, id, FrontRefs(ch), f) && a.value == ch.(lower := [f.ce.base] + ch.lower);
      LiveFound(log, f.ce.base.hash);
      p := WalkBackStops(log, id, nb, f, a.value.lower);
      FlippedWhole(p, ch.lower);
      var r := ChainBuild.WalkBack(log.live, id, nb, f, a.value.lower);
      if r.None? {
        forall q
          ensures !LowerLeg(log.live, id, nb, FrontRefs(ch), q)
        {
          NoLeg(log, id, nb, FrontRefs(ch), p, q);
        }
      }
    }
  }

  lemma FlippedWhole(p: seq<Entry>, lower: seq<ClockEvent>)
    requires p != []
    ensures Flipped(p[1..]) + ([p[0].ce.base] + lower) == Flipped(p) + lower
  {
    assert Flipped(p) == Flipped(p[1..]) + [p[0].ce.base];
  }

  lemma NoFront(live: seq<Entry>, id: NodeId, nb: NodeId, front: seq<EventReference>, q: seq<Entry>)
    requires Dead(live, id, front)
    ensures !LowerLeg(live, id, nb, front, q)
  {
  }

  lemma NoLeg(log: Log, id: NodeId, nb: NodeId, front: seq<EventReference>, p: seq<Entry>, q: seq<Entry>)
    requires WellFormed(log) && StopsBack(log.live, id, nb, p, false) && FirstNamed(log.live, id, front, p[0])
    ensures !LowerLeg(log.live, id, nb, front, q)
  {
    hide Links, Dead, NamesLive, WellFormed, FirstNamed;
    if LowerLeg(log.live, id, nb, front, q) {
      FirstNamedIsOne(log, id, front, p[0], q[0]);
      if |q| <= |p| {
        BackPathIsOne(log, id, p, q, |q| - 1);
      } else {
        BackPathIsOne(log, id, p, q, |p| - 1);
        DeadEnds(log.live, id, q[|p|], q[|p| - 1]);
      }
    }
  }

  /** What the upper half does. */
  lemma UpperHalf(log: Log, id: NodeId, nb: NodeId, ch: EventChain) returns (p: seq<Entry>)
    requires WellFormed(log)
    ensures var a := ChainBuild.AddUpper(log.live, ch);
      && (a.Some? ==> a.value.upper != [] && a.value.event == ch.event && a.value.lower == ch.lower)
      && var r := if a.None? then None else ChainBuild.ExtendUpper(log.live, log.next, id, nb, a.value);
      && (r.Some? ==> UpperLeg(log.live, id, nb, BackHash(ch), p) && r.value == ch.(upper := ch.upper + Bases(p)))
      && (r.None? ==> forall q :: !UpperLeg(log.live, id, nb, BackHash(ch), q))
  {
    hide OldestNaming;
    p := [];
    var a := ChainBuild.AddUpper(log.live, ch);
    UpperAttaches(log, ch);
    if a.Some? {
      var f :| OldestNaming(log.live, BackHash(ch), f) && a.value == ch.(upper := ch.upper + [f.ce.base]);
      OldestIsLive(log.live, BackHash(ch), f);
      LiveFound(log, f.ce.base.hash);
      p := WalkForwardStops(log, id, nb, f, a.value.upper);
      BasesStep(p, ch.upper);
      if ChainBuild.WalkForward(log.live, log.next, id, nb, f, a.value.upper).None? {
        forall q
          ensures !UpperLeg(log.live, id, nb, BackHash(ch), q)
        {
          NoUpperLeg(log, id, nb, BackHash(ch), p, q);
        }
      }
    }
  }

  lemma OldestIsLive(live: seq<Entry>, h: Hash, f: Entry)
    requires OldestNaming(live, h, f)
    ensures f in live
  {
  }

  lemma NoUpperLeg(log: Log, id: NodeId, nb: NodeId, back: Hash, p: seq<Entry>, q: seq<Entry>)
    requires WellFormed(log) && StopsForward(log.live, id, nb, p, false) && OldestNaming(log.live, back, p[0])
    ensures !UpperLeg(log.live, id, nb, back, q)
  {
    hide Links, Succeeds, SuccessorOf, WellFormed, OldestNaming;
    if UpperLeg(log.live, id, nb, back, q) {
      OldestIsOne(log, back, p[0], q[0]);
      if |q| <= |p| {
        ForwardPathIsOne(log, id, p, q, |q| - 1);
      } else {
        ForwardPathIsOne(log, id, p, q, |p| - 1);
        NoneFollows(log.live, id, q[|p| - 1], q[|p|]);
      }
    }
  }

  lemma NoneFollows(live: seq<Entry>, id: NodeId, e: Entry, f: Entry)
    requires forall g :: !Succeeds(live, id, e, g)
    ensures !SuccessorOf(live, id, e, f)
  {
  }

  /** A leg is one particular path. */
  lemma LegsAreOne(log: Log, id: NodeId, nb: NodeId, ch: EventChain, p: seq<Entry>, q: seq<Entry>, p': seq<Entry>, q': seq<Entry>)
    requires WellFormed(log) && HasLegs(log, id, nb, ch, p, q) && HasLegs(log, id, nb, ch, p', q')
    ensures p == p' && q == q'
  {
    hide Links, Dead, WellFormed, FirstNamed, OldestNaming, SuccessorOf, PredecessorOf;
    FirstNamedIsOne(log, id, FrontRefs(ch), p[0], p'[0]);
    OldestIsOne(log, BackHash(ch), q[0], q'[0]);
    forall i | 0 <= i < |p| && i < |p'|
      ensures p[i] == p'[i]
    {
      BackPathIsOne(log, id, p, p', i);
    }
    forall i | 0 <= i < |q| && i < |q'|
      ensures q[i] == q'[i]
    {
      ForwardPathIsOne(log, id, q, q', i);
    }
    assert |p| == |p'|;
    assert |q| == |q'|;
  }

  /** What a hop does to a chain, whatever its store holds: it passes the chain on if and only if
      both legs exist, and then with exactly those two legs around it. */
  lemma SpliceIsExact(log: Log, id: NodeId, nb: NodeId, ch: EventChain)
    requires WellFormed(log)
    ensures ChainBuild.Splice(log, id, nb, ch).Some? <==> exists p, q :: HasLegs(log, id, nb, ch, p, q)
    ensures forall p, q :: HasLegs(log, id, nb, ch, p, q) ==> ChainBuild.Splice(log, id, nb, ch) == Some(Wrapped(ch, p, q))
  {
    hide ChainBuild.AddLower, ChainBuild.AddUpper, ChainBuild.ExtendLower, ChainBuild.ExtendUpper, LowerLeg, UpperLeg, WellFormed, Bases, Flipped;
    var p := LowerHalf(log, id, nb, ch);
    var q := UpperHalf(log, id, nb, ch);
    SpliceHalves(log, id, nb, ch);
    if ChainBuild.Splice(log, id, nb, ch).Some? {
      assert HasLegs(log, id, nb, ch, p, q);
    }
    forall p', q' | HasLegs(log, id, nb, ch, p', q')
      ensures ChainBuild.Splice(log, id, nb, ch) == Some(Wrapped(ch, p', q'))
    {
      LegsAreOne(log, id, nb, ch, p, q, p', q');
    }
  }

  /** The two halves do not get in each other's way: lower, upper, lower, upper comes to the same
      as both lower steps and then both upper ones. */
  lemma SpliceHalves(log: Log, id: NodeId, nb: NodeId, ch: EventChain)
    ensures var lo := (var a := ChainBuild.AddLower(log.live, id, ch);
                       if a.None? || a.value.lower == [] then None else ChainBuild.ExtendLower(log.live, id, nb, a.value));
      var hi := (var a := ChainBuild.AddUpper(log.live, ch);
                 if a.None? || a.value.upper == [] then None else ChainBuild.ExtendUpper(log.live, log.next, id, nb, a.value));
      ChainBuild.Splice(log, id, nb, ch) ==
        if lo.None? || hi.None? then None else Some(EventChain(ch.event, lo.value.lower, hi.value.upper))
  {
    hide ChainBuild.WalkBack, ChainBuild.WalkForward, FirstOwn, FirstReferencing, ByHash;
  }
}
