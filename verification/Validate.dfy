/** Chain validation, the trust check shared by discovery and offline proofs, and the order
    that two accepted chains imply. */
module Validate {
  import opened Domain
  import opened Hashing

  datatype Fault =
    | MissingBound
    | FirstNotReference
    | LastNotReference
    | LowerHash | LowerSignature | LowerUnlinked
    | EventHashMismatch | EventUnlinked | EventSignature
    | UpperHash | UpperSignature | UpperUnlinked
    | Inverted

  datatype Verdict = Accepted(lower: Timestamp, upper: Timestamp) | Rejected(fault: Fault)

  // ---------------------------------------------------------------------------
  // the declarative specification
  // ---------------------------------------------------------------------------

  /** Each clock event after the first references the one before it. */
  ghost predicate Linked(cs: seq<ClockEvent>) {
    forall i :: 0 < i < |cs| ==> ClockRef(cs[i - 1]) in cs[i].refs
  }

  /** The whole walk `lower . event . upper` is linked, each item referencing its predecessor. */
  ghost predicate ChainLinked(ch: EventChain) {
    && Linked(ch.lower) && Linked(ch.upper)
    && (ch.lower != [] ==> ClockRef(Last(ch.lower)) in ch.event.refs)
    && (ch.upper != [] ==> EventRef(ch.event) in ch.upper[0].refs)
  }

  ghost predicate ChainIntact(cr: Crypto, ch: EventChain) {
    && EventIntact(cr, ch.event)
    && (forall c :: c in ch.lower ==> ClockIntact(cr, c))
    && (forall c :: c in ch.upper ==> ClockIntact(cr, c))
  }

  /** Both ends exist and are clock events of the reference node. */
  ghost predicate Encloses(ch: EventChain, reference: NodeId) {
    && ch.lower != [] && ch.upper != []
    && ch.lower[0].creator == reference && Last(ch.upper).creator == reference
  }

  /** The interval between the ends is not inverted. */
  predicate Upright(ch: EventChain) {
    ch.lower != [] && ch.upper != [] && ch.lower[0].timestamp <= Last(ch.upper).timestamp
  }

  ghost predicate Sound(cr: Crypto, ch: EventChain, reference: NodeId) {
    Encloses(ch, reference) && ChainIntact(cr, ch) && ChainLinked(ch) && Upright(ch)
  }

  /** What each rejection reason claims about the chain. */
  ghost predicate Holds(f: Fault, cr: Crypto, ch: EventChain, reference: NodeId) {
    match f
    case MissingBound => ch.lower == [] || ch.upper == []
    case FirstNotReference => ch.lower != [] && ch.lower[0].creator != reference
    case LastNotReference => ch.upper != [] && Last(ch.upper).creator != reference
    case LowerHash => exists c :: c in ch.lower && c.hash != ClockHash(cr, c.chain, c.timestamp, c.salt, c.refs)
    case LowerSignature => exists c :: c in ch.lower && !cr.verify(c.hash, c.signature, c.creator)
    case LowerUnlinked => !Linked(ch.lower)
    case EventHashMismatch => ch.event.hash != EventHash(cr, ch.event.data, ch.event.salt, ch.event.refs)
    case EventUnlinked => ch.lower != [] && ClockRef(Last(ch.lower)) !in ch.event.refs
    case EventSignature => !cr.verify(ch.event.hash, ch.event.signature, ch.event.creator)
    case UpperHash => exists c :: c in ch.upper && c.hash != ClockHash(cr, c.chain, c.timestamp, c.salt, c.refs)
    case UpperSignature => exists c :: c in ch.upper && !cr.verify(c.hash, c.signature, c.creator)
    case UpperUnlinked => ch.upper != [] && !(Linked(ch.upper) && EventRef(ch.event) in ch.upper[0].refs)
    case Inverted => Encloses(ch, reference) && ChainIntact(cr, ch) && ChainLinked(ch)
                     && Last(ch.upper).timestamp < ch.lower[0].timestamp
  }

  // ---------------------------------------------------------------------------
  // the walk
  // ---------------------------------------------------------------------------

  /** Linear search of a reference list. */
  method References(refs: seq<EventReference>, target: EventReference) returns (found: bool)
    ensures found <==> target in refs
  {
    for k := 0 to |refs|
      invariant target !in refs[..k]
    {
      if refs[k] == target {
        return true;
      }
    }
    return false;
  }

  datatype Walk = Clean | BadHash | BadSignature | Unlinked

  /** One run of clock events, each of which must reference what came before it. */
  method WalkClocks(cr: Crypto, cs: seq<ClockEvent>, start: Option<EventReference>) returns (w: Walk, prev: Option<EventReference>)
    ensures w == Clean <==>
      && (forall c :: c in cs ==> ClockIntact(cr, c)) && Linked(cs)
      && (start.Some? && cs != [] ==> start.value in cs[0].refs)
    ensures w == Clean ==> prev == if cs == [] then start else Some(ClockRef(Last(cs)))
    ensures w == BadHash ==> exists c :: c in cs && c.hash != ClockHash(cr, c.chain, c.timestamp, c.salt, c.refs)
    ensures w == BadSignature ==> exists c :: c in cs && !cr.verify(c.hash, c.signature, c.creator)
    ensures w == Unlinked ==> cs != [] && !(Linked(cs) && (start.Some? ==> start.value in cs[0].refs))
  {
    prev := start;
    for k := 0 to |cs|
      invariant prev == if k == 0 then start else Some(ClockRef(cs[k - 1]))
      invariant forall c :: c in cs[..k] ==> ClockIntact(cr, c)
      invariant k > 0 && start.Some? ==> start.value in cs[0].refs
      invariant forall i :: 0 < i < k ==> ClockRef(cs[i - 1]) in cs[i].refs
    {
      var ce := cs[k];
      assert ce in cs;
      if ClockHash(cr, ce.chain, ce.timestamp, ce.salt, ce.refs) != ce.hash {
        return BadHash, prev;
      }
      if !cr.verify(ce.hash, ce.signature, ce.creator) {
        return BadSignature, prev;
      }
      if prev.Some? {
        var linked := References(ce.refs, prev.value);
        if !linked {
          return Unlinked, prev;
        }
      }
      prev := Some(ClockRef(ce));
    }
    assert cs[..|cs|] == cs;
    w := Clean;
  }

  /** The soundness walk. It accepts exactly the sound chains, reports the interval the ends
      prove, and every rejection names a fault that is really there. */
  method VerifyChain(cr: Crypto, ch: EventChain, reference: NodeId) returns (v: Verdict)
    ensures v.Accepted? <==> Sound(cr, ch, reference)
    ensures v.Accepted? ==> v.lower == ch.lower[0].timestamp && v.upper == Last(ch.upper).timestamp
    ensures v.Rejected? ==> Holds(v.fault, cr, ch, reference)
  {
    if |ch.lower| == 0 || |ch.upper| == 0 {
      return Rejected(MissingBound);
    }
    if ch.lower[0].creator != reference {
      return Rejected(FirstNotReference);
    }
    if ch.upper[|ch.upper| - 1].creator != reference {
      return Rejected(LastNotReference);
    }

    var w, prev := WalkClocks(cr, ch.lower, None);
    if w != Clean {
      return Rejected(match w case BadHash => LowerHash case BadSignature => LowerSignature case _ => LowerUnlinked);
    }

    if EventHash(cr, ch.event.data, ch.event.salt, ch.event.refs) != ch.event.hash {
      return Rejected(EventHashMismatch);
    }
    var anchored := References(ch.event.refs, prev.value);
    if !anchored {
      return Rejected(EventUnlinked);
    }
    if !cr.verify(ch.event.hash, ch.event.signature, ch.event.creator) {
      return Rejected(EventSignature);
    }

    // The first upper clock event too must reference its predecessor, the event itself.
    w, prev := WalkClocks(cr, ch.upper, Some(EventRef(ch.event)));
    if w != Clean {
      return Rejected(match w case BadHash => UpperHash case BadSignature => UpperSignature case _ => UpperUnlinked);
    }

    var lower := ch.lower[0].timestamp;
    var upper := ch.upper[|ch.upper| - 1].timestamp;
    if upper < lower {
      return Rejected(Inverted);
    }
    return Accepted(lower, upper);
  }

  // ---------------------------------------------------------------------------
  // the order of two chains
  // ---------------------------------------------------------------------------

  function Compare(a: EventChain, b: EventChain): (o: Order)
    requires a.lower != [] && a.upper != [] && b.lower != [] && b.upper != []
  {
    if Last(a.upper).timestamp < b.lower[0].timestamp then Before
    else if Last(b.upper).timestamp < a.lower[0].timestamp then After
    else Undetermined
  }

  /** The closed window between a chain's two ends. */
  function Interval(ch: EventChain): TimeRange
    requires ch.lower != [] && ch.upper != []
  {
    TimeRange(ch.lower[0].timestamp, Last(ch.upper).timestamp)
  }

  /** Every instant of `a` is earlier than every instant of `b`. */
  ghost predicate Precedes(a: TimeRange, b: TimeRange) {
    forall s, t :: a.Contains(s) && b.Contains(t) ==> s < t
  }

  ghost predicate Meet(a: TimeRange, b: TimeRange) {
    exists t :: a.Contains(t) && b.Contains(t)
  }

  /** Two chains that are not inverted compare exactly as their intervals lie: "before" if and
      only if every instant of the first is earlier than every instant of the second, "after" if
      and only if the reverse, and undetermined if and only if they have an instant in common. */
  lemma CompareIsExact(a: EventChain, b: EventChain)
    requires Upright(a) && Upright(b)
    ensures Compare(a, b) == Before <==> Precedes(Interval(a), Interval(b))
    ensures Compare(a, b) == After <==> Precedes(Interval(b), Interval(a))
    ensures Compare(a, b) == Undetermined <==> Meet(Interval(a), Interval(b))
    ensures Meet(Interval(a), Interval(b)) <==> Interval(a).Overlaps(Interval(b))
  {
    var x, y := Interval(a), Interval(b);
    assert x.Contains(x.lo) && x.Contains(x.hi) && y.Contains(y.lo) && y.Contains(y.hi);
    assert x.Overlaps(y) ==> x.Contains(y.lo) || y.Contains(x.lo);
  }

  function Opposite(o: Order): Order {
    match o case Before => After case After => Before case Undetermined => Undetermined
  }

  ghost predicate AllSound(cr: Crypto, cs: seq<EventChain>, reference: NodeId)
    ensures AllSound(cr, cs, reference) ==> forall k :: 0 <= k < |cs| ==> cs[k].lower != [] && cs[k].upper != []
  {
    forall k :: 0 <= k < |cs| ==> Sound(cr, cs[k], reference)
  }

  /** On accepted chains the compared order is a strict order presented from both sides:
      swapping the arguments swaps the answer, and a run of "before" answers of any length
      composes, so no list of accepted chains can be ordered in a cycle. */
  lemma {:induction false} OrderLaws(cr: Crypto, cs: seq<EventChain>, reference: NodeId, i: nat, j: nat)
    requires AllSound(cr, cs, reference)
    requires i <= j < |cs|
    requires forall k :: i < k <= j ==> Compare(cs[k - 1], cs[k]) == Before
    ensures Compare(cs[i], cs[j]) == if i == j then Undetermined else Before
    ensures forall k, m :: 0 <= k < |cs| && 0 <= m < |cs| ==> Compare(cs[m], cs[k]) == Opposite(Compare(cs[k], cs[m]))
    decreases j
  {
    if i < j {
      OrderLaws(cr, cs, reference, i, j - 1);
      assert Compare(cs[j - 1], cs[j]) == Before;
    }
  }

  /** ... and an interval order: of two ordered pairs, one first element precedes the other
      pair's second element. */
  lemma IntervalOrder(cr: Crypto, a: EventChain, b: EventChain, c: EventChain, d: EventChain, reference: NodeId)
    requires Sound(cr, a, reference) && Sound(cr, b, reference) && Sound(cr, c, reference) && Sound(cr, d, reference)
    requires Compare(a, b) == Before && Compare(c, d) == Before
    ensures Compare(a, d) == Before || Compare(c, b) == Before
  {
  }
}
