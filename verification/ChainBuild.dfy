/** The four chain-building primitives, and the soundness of everything they splice. */
module ChainBuild {
  import opened Domain
  import opened Log
  import opened History
  import Validate
  import Router

  // ---------------------------------------------------------------------------
  // the primitives
  // ---------------------------------------------------------------------------

  /** Push an own clock event, named by the front of the chain, onto the front. */
  function AddLower(live: seq<Entry>, id: NodeId, ch: EventChain): (r: Option<EventChain>) {
    var refs := if ch.lower == [] then ch.event.refs else ch.lower[0].refs;
    var found := FirstOwn(live, id, refs);
    if found.None? then None else Some(ch.(lower := [found.value.ce.base] + ch.lower))
  }

  /** Push the oldest own clock event that names the back of the chain onto the back. */
  function AddUpper(live: seq<Entry>, ch: EventChain): (r: Option<EventChain>) {
    var found := FirstReferencing(live, if ch.upper == [] then ch.event.hash else Last(ch.upper).hash);
    if found.None? then None else Some(ch.(upper := ch.upper + [found.value.ce.base]))
  }

  /** Follow same-node predecessors back from `cur` until one references a clock event of `nb`.
      The walk only ever steps to a lower sequence number (see `WalkBackSteps`). */
  function WalkBack(live: seq<Entry>, id: NodeId, nb: NodeId, cur: Entry, lower: seq<ClockEvent>): (r: Option<seq<ClockEvent>>)
    decreases cur.at
  {
    if Router.NamesCreator(cur.ce.base.refs, nb) then Some(lower)
    else
      var prev := FirstOwn(live, id, cur.ce.base.refs);
      if prev.Some? && prev.value.at < cur.at
      then WalkBack(live, id, nb, prev.value, [prev.value.ce.base] + lower)
      else None
  }

  /** Follow same-chain successors forward from `cur` until `nb` is known to reference one.
      The walk only ever steps to a higher sequence number (see `WalkForwardSteps`). */
  function WalkForward(live: seq<Entry>, next: nat, id: NodeId, nb: NodeId, cur: Entry, upper: seq<ClockEvent>): (r: Option<seq<ClockEvent>>)
    decreases next - cur.at
  {
    if Router.NamesCreator(cur.ce.referencing, nb) then Some(upper)
    else
      var succ := NextOnChain(live, id, cur.ce.base);
      if succ.Some? && cur.at < succ.value.at < next
      then WalkForward(live, next, id, nb, succ.value, upper + [succ.value.ce.base])
      else None
  }

  function ExtendLower(live: seq<Entry>, id: NodeId, nb: NodeId, ch: EventChain): (r: Option<EventChain>)
    requires ch.lower != []
  {
    var cur := ByHash(live, ch.lower[0].hash);
    if cur.None? then None
    else
      var w := WalkBack(live, id, nb, cur.value, ch.lower);
      if w.None? then None else Some(ch.(lower := w.value))
  }

  function ExtendUpper(live: seq<Entry>, next: nat, id: NodeId, nb: NodeId, ch: EventChain): (r: Option<EventChain>)
    requires ch.upper != []
  {
    var cur := ByHash(live, Last(ch.upper).hash);
    if cur.None? then None
    else
      var w := WalkForward(live, next, id, nb, cur.value, ch.upper);
      if w.None? then None else Some(ch.(upper := w.value))
  }

  /** What the creator and every hop on the return leg do to a chain before passing it on. */
  function Splice(log: Log, id: NodeId, nb: NodeId, ch: EventChain): (r: Option<EventChain>) {
    var a := AddLower(log.live, id, ch);
    if a.None? then None else
    var b := AddUpper(log.live, a.value);
    if b.None? then None else
    var c := ExtendLower(log.live, id, nb, b.value);
    if c.None? then None else
    ExtendUpper(log.live, log.next, id, nb, c.value)
  }

  /** What the originator does to a chain that came home: the chain it holds afterwards, and
      whether both of its own clock events attached. */
  function Enclose(live: seq<Entry>, id: NodeId, ch: EventChain): (r: (EventChain, bool)) {
    var a := AddLower(live, id, ch);
    if a.None? then (ch, false) else
    var b := AddUpper(live, a.value);
    if b.None? then (a.value, false) else (b.value, true)
  }

  // ---------------------------------------------------------------------------
  // termination: the guards above never fire on a well-formed log
  // ---------------------------------------------------------------------------

  lemma WalkBackSteps(log: Log, id: NodeId, cur: Entry)
    requires WellFormed(log) && cur in log.live
    ensures var p := FirstOwn(log.live, id, cur.ce.base.refs); p.Some? ==> p.value.at < cur.at
  {
    var p := FirstOwn(log.live, id, cur.ce.base.refs);
    if p.Some? {
      var r := EventReference(id, p.value.ce.base.hash);
      var i :| 0 <= i < |cur.ce.base.refs| && cur.ce.base.refs[i] == r;
      assert cur.ce.base.refs[i].hash == p.value.ce.base.hash;
    }
  }

  lemma WalkForwardSteps(log: Log, id: NodeId, cur: Entry)
    requires WellFormed(log) && cur in log.live
    ensures var s := NextOnChain(log.live, id, cur.ce.base); s.Some? ==> cur.at < s.value.at < log.next
  {
  }

  // ---------------------------------------------------------------------------
  // soundness
  // ---------------------------------------------------------------------------

  /** Every live clock event is one this node really created. */
  ghost predicate LiveReal(H: History, id: NodeId, live: seq<Entry>) {
    forall e :: e in live ==> HasClock(H, e.ce.base) && e.ce.base.creator == id
  }

  /** In an honest history, naming an item's hash is naming the item. */
  lemma MentionIsReference(st: Setup, H: History, c: ClockEvent, target: EventReference)
    requires Ok(st, H) && HasClock(H, c) && Mentions(c.refs, target.hash)
    requires exists i :: 0 <= i < |H| && H[i].Ref() == target
    ensures target in c.refs
  {
    var k :| 0 <= k < |H| && H[k].Ck? && H[k].c == c;
    var j :| 0 <= j < |c.refs| && c.refs[j].hash == target.hash;
    ReferencesGoBack(st, H, k, c.refs[j]);
    var i :| 0 <= i < |H| && H[i].Ref() == target;
    Unique(st, H, i);
  }

  lemma ClockIsItem(H: History, c: ClockEvent)
    requires HasClock(H, c)
    ensures exists i :: 0 <= i < |H| && H[i].Ref() == ClockRef(c)
  {
    var k :| 0 <= k < |H| && H[k].Ck? && H[k].c == c;
    assert H[k].Ref() == ClockRef(c);
  }

  lemma EventIsItem(H: History, e: Event)
    requires HasEvent(H, e)
    ensures exists i :: 0 <= i < |H| && H[i].Ref() == EventRef(e)
  {
    var k :| 0 <= k < |H| && H[k].Ev? && H[k].e == e;
    assert H[k].Ref() == EventRef(e);
  }

  lemma PushLower(H: History, ch: EventChain, c: ClockEvent)
    requires RealChain(H, ch) && HasClock(H, c)
    requires ClockRef(c) in if ch.lower == [] then ch.event.refs else ch.lower[0].refs
    ensures RealChain(H, ch.(lower := [c] + ch.lower))
  {
    var lower := [c] + ch.lower;
    assert Last(lower) == if ch.lower == [] then c else Last(ch.lower);
    forall i | 0 < i < |lower|
      ensures ClockRef(lower[i - 1]) in lower[i].refs
    {
      if i > 1 {
        assert ClockRef(ch.lower[i - 1 - 1]) in ch.lower[i - 1].refs;
      }
    }
  }

  lemma PushUpper(H: History, ch: EventChain, c: ClockEvent)
    requires RealChain(H, ch) && HasClock(H, c)
    requires (if ch.upper == [] then EventRef(ch.event) else ClockRef(Last(ch.upper))) in c.refs
    ensures RealChain(H, ch.(upper := ch.upper + [c]))
  {
    var upper := ch.upper + [c];
    assert upper[0] == if ch.upper == [] then c else ch.upper[0];
    forall i | 0 < i < |upper|
      ensures ClockRef(upper[i - 1]) in upper[i].refs
    {
    }
  }

  lemma AddLowerReal(H: History, live: seq<Entry>, id: NodeId, ch: EventChain)
    requires LiveReal(H, id, live) && RealChain(H, ch) && AddLower(live, id, ch).Some?
    ensures var r := AddLower(live, id, ch).value;
      RealChain(H, r) && r.event == ch.event && r.upper == ch.upper && r.lower != [] && r.lower[0].creator == id
  {
    PushLower(H, ch, AddLower(live, id, ch).value.lower[0]);
  }

  lemma BackIsMentioned(st: Setup, H: History, ch: EventChain, c: ClockEvent)
    requires Ok(st, H) && RealChain(H, ch) && HasClock(H, c)
    requires Mentions(c.refs, if ch.upper == [] then ch.event.hash else Last(ch.upper).hash)
    ensures RealChain(H, ch.(upper := ch.upper + [c]))
  {
    if ch.upper == [] {
      EventIsItem(H, ch.event);
      MentionIsReference(st, H, c, EventRef(ch.event));
    } else {
      ClockIsItem(H, Last(ch.upper));
      MentionIsReference(st, H, c, ClockRef(Last(ch.upper)));
    }
    PushUpper(H, ch, c);
  }

  lemma AddUpperReal(st: Setup, H: History, live: seq<Entry>, id: NodeId, ch: EventChain)
    requires Ok(st, H) && LiveReal(H, id, live) && RealChain(H, ch) && AddUpper(live, ch).Some?
    ensures var r := AddUpper(live, ch).value;
      RealChain(H, r) && r.event == ch.event && r.lower == ch.lower && r.upper != [] && Last(r.upper).creator == id
  {
    BackIsMentioned(st, H, ch, Last(AddUpper(live, ch).value.upper));
  }

  lemma {:induction false} WalkBackReal(H: History, live: seq<Entry>, id: NodeId, nb: NodeId, cur: Entry, ch: EventChain)
    requires LiveReal(H, id, live) && RealChain(H, ch) && ch.lower != []
    requires cur.ce.base == ch.lower[0] && cur.ce.base.creator == id
    requires WalkBack(live, id, nb, cur, ch.lower).Some?
    ensures var lower := WalkBack(live, id, nb, cur, ch.lower).value;
      RealChain(H, ch.(lower := lower)) && lower != [] && lower[0].creator == id
    decreases cur.at
  {
    if !Router.NamesCreator(cur.ce.base.refs, nb) {
      var p := FirstOwn(live, id, cur.ce.base.refs).value;
      PushLower(H, ch, p.ce.base);
      WalkBackReal(H, live, id, nb, p, ch.(lower := [p.ce.base] + ch.lower));
    }
  }

  lemma {:induction false} WalkForwardReal(st: Setup, H: History, live: seq<Entry>, next: nat, id: NodeId, nb: NodeId, cur: Entry, ch: EventChain)
    requires Ok(st, H) && LiveReal(H, id, live) && RealChain(H, ch) && ch.upper != []
    requires cur.ce.base == Last(ch.upper) && cur.ce.base.creator == id
    requires WalkForward(live, next, id, nb, cur, ch.upper).Some?
    ensures var upper := WalkForward(live, next, id, nb, cur, ch.upper).value;
      RealChain(H, ch.(upper := upper)) && upper != [] && Last(upper).creator == id
    decreases next - cur.at
  {
    if !Router.NamesCreator(cur.ce.referencing, nb) {
      var s := NextOnChain(live, id, cur.ce.base).value;
      BackIsMentioned(st, H, ch, s.ce.base);
      WalkForwardReal(st, H, live, next, id, nb, s, ch.(upper := ch.upper + [s.ce.base]));
    }
  }

  /** A stored record found by the hash of a real clock event is that clock event. */
  lemma ByHashIsSame(st: Setup, H: History, live: seq<Entry>, id: NodeId, c: ClockEvent)
    requires Ok(st, H) && LiveReal(H, id, live) && HasClock(H, c) && ByHash(live, c.hash).Some?
    ensures ByHash(live, c.hash).value.ce.base == c
  {
    var e := ByHash(live, c.hash).value;
    var i :| 0 <= i < |H| && H[i].Ck? && H[i].c == c;
    var j :| 0 <= j < |H| && H[j].Ck? && H[j].c == e.ce.base;
    SameHashSameItem(st, H, i, j);
  }

  /** A spliced chain is linked and made only of really created items. */
  lemma SpliceReal(st: Setup, H: History, log: Log, id: NodeId, nb: NodeId, ch: EventChain)
    requires Ok(st, H) && LiveReal(H, id, log.live) && RealChain(H, ch)
    ensures var r := Splice(log, id, nb, ch); r.Some? ==> RealChain(H, r.value) && r.value.event == ch.event
  {
    var r := Splice(log, id, nb, ch);
    if r.Some? {
      AddLowerReal(H, log.live, id, ch);
      var a := AddLower(log.live, id, ch).value;
      AddUpperReal(st, H, log.live, id, a);
      var b := AddUpper(log.live, a).value;
      ByHashIsSame(st, H, log.live, id, b.lower[0]);
      WalkBackReal(H, log.live, id, nb, ByHash(log.live, b.lower[0].hash).value, b);
      var c := ExtendLower(log.live, id, nb, b).value;
      ByHashIsSame(st, H, log.live, id, Last(c.upper));
      WalkForwardReal(st, H, log.live, log.next, id, nb, ByHash(log.live, Last(c.upper).hash).value, c);
    }
  }

  lemma EncloseReal(st: Setup, H: History, live: seq<Entry>, id: NodeId, ch: EventChain)
    requires Ok(st, H) && LiveReal(H, id, live) && RealChain(H, ch)
    ensures var (r, attached) := Enclose(live, id, ch);
      r.event == ch.event && (attached ==> RealChain(H, r) && Validate.Encloses(r, id))
  {
    if AddLower(live, id, ch).Some? {
      AddLowerReal(H, live, id, ch);
      if AddUpper(live, AddLower(live, id, ch).value).Some? {
        AddUpperReal(st, H, live, id, AddLower(live, id, ch).value);
      }
    }
  }

  // ---------------------------------------------------------------------------
  // what a real chain proves
  // ---------------------------------------------------------------------------

  lemma ClockPlace(st: Setup, H: History, c: ClockEvent)
    requires Ok(st, H) && HasClock(H, c)
    ensures var k := IndexOf(H, c.hash); k >= 0 && H[k].Ck? && H[k].c == c
    ensures forall r :: r in c.refs ==> 0 <= IndexOf(H, r.hash) < IndexOf(H, c.hash)
  {
    var k :| 0 <= k < |H| && H[k].Ck? && H[k].c == c;
    Unique(st, H, k);
    forall r | r in c.refs
      ensures 0 <= IndexOf(H, r.hash) < k
    {
      ReferencesGoBack(st, H, k, r);
    }
  }

  lemma {:induction false} LinkedAscends(st: Setup, H: History, cs: seq<ClockEvent>, i: nat)
    requires Ok(st, H) && Validate.Linked(cs) && i < |cs| && forall c :: c in cs ==> HasClock(H, c)
    ensures 0 <= IndexOf(H, cs[0].hash) <= IndexOf(H, cs[i].hash)
    ensures H[IndexOf(H, cs[i].hash)].Ck? && H[IndexOf(H, cs[i].hash)].c == cs[i]
  {
    ClockPlace(st, H, cs[i]);
    if i > 0 {
      LinkedAscends(st, H, cs, i - 1);
      assert 0 <= IndexOf(H, ClockRef(cs[i - 1]).hash) < IndexOf(H, cs[i].hash);
    }
  }

  /** A real enclosing chain is a proof of creation order: its first clock event was created
      before the event, and the event before its last clock event. */
  lemma EnclosureIsTrue(st: Setup, H: History, ch: EventChain)
    requires Ok(st, H) && RealChain(H, ch) && ch.lower != [] && ch.upper != []
    ensures 0 <= IndexOf(H, ch.lower[0].hash) < IndexOf(H, ch.event.hash) < IndexOf(H, Last(ch.upper).hash)
    ensures var l := IndexOf(H, ch.lower[0].hash); H[l].Ck? && H[l].c == ch.lower[0]
    ensures var u := IndexOf(H, Last(ch.upper).hash); H[u].Ck? && H[u].c == Last(ch.upper)
    ensures var k := IndexOf(H, ch.event.hash); H[k].Ev? && H[k].e == ch.event
  {
    var k :| 0 <= k < |H| && H[k].Ev? && H[k].e == ch.event;
    Unique(st, H, k);
    LinkedAscends(st, H, ch.lower, 0);
    LinkedAscends(st, H, ch.lower, |ch.lower| - 1);
    ReferencesGoBack(st, H, k, ClockRef(Last(ch.lower)));
    LinkedAscends(st, H, ch.upper, |ch.upper| - 1);
    LinkedAscends(st, H, ch.upper, 0);
    ReferencesGoBack(st, H, IndexOf(H, ch.upper[0].hash), EventRef(ch.event));
  }

  lemma {:induction false} ItemIntact(st: Setup, H: History, k: nat)
    requires Ok(st, H) && k < |H|
    ensures H[k].Ev? ==> Hashing.EventIntact(st.cr, H[k].e)
    ensures H[k].Ck? ==> Hashing.ClockIntact(st.cr, H[k].c)
  {
    OkAt(st, H, k);
  }

  /** In an honest network a real chain that both of the reference node's clock events attached
      to passes validation exactly when its interval is not inverted: inversion is the only way
      honest chains are turned down. It cannot happen while that node's clock never goes
      backward. */
  lemma RealChainIsSound(st: Setup, H: History, ch: EventChain, id: NodeId)
    requires Ok(st, H) && RealChain(H, ch) && Validate.Encloses(ch, id)
    ensures Validate.ChainIntact(st.cr, ch) && Validate.ChainLinked(ch)
    ensures Validate.Sound(st.cr, ch, id) <==> Validate.Upright(ch)
    ensures Monotone(H, id) ==> Validate.Upright(ch)
  {
    EnclosureIsTrue(st, H, ch);
    if Monotone(H, id) {
      StampsOrdered(st, H, id, IndexOf(H, ch.lower[0].hash), IndexOf(H, Last(ch.upper).hash));
    }
    ItemIntact(st, H, IndexOf(H, ch.event.hash));
    forall c | c in ch.lower || c in ch.upper
      ensures Hashing.ClockIntact(st.cr, c)
    {
      var k :| 0 <= k < |H| && H[k].Ck? && H[k].c == c;
      ItemIntact(st, H, k);
    }
  }

  /** Two real enclosing chains of one reference node with a non-decreasing clock: if their
      intervals say "before", the first event really was published first. */
  lemma ComparisonIsTrue(st: Setup, H: History, a: EventChain, b: EventChain, id: NodeId)
    requires Ok(st, H) && Monotone(H, id)
    requires RealChain(H, a) && Validate.Encloses(a, id) && RealChain(H, b) && Validate.Encloses(b, id)
    ensures Validate.Compare(a, b) == Before ==> IndexOf(H, a.event.hash) < IndexOf(H, b.event.hash)
    ensures Validate.Compare(a, b) == After ==> IndexOf(H, b.event.hash) < IndexOf(H, a.event.hash)
  {
    EnclosureIsTrue(st, H, a);
    EnclosureIsTrue(st, H, b);
    StampsOrdered(st, H, id, IndexOf(H, Last(a.upper).hash), IndexOf(H, b.lower[0].hash));
    StampsOrdered(st, H, id, IndexOf(H, Last(b.upper).hash), IndexOf(H, a.lower[0].hash));
  }
}
