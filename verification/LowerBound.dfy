/** Pruning and the lower bound. An event's own lower bound is the first of its references that
    names a live clock event of its node. Pruning can drop that one; what is found next may be
    stamped later, so that the bound becomes tighter instead of wider. Exactly when. */
module LowerBound {
  import opened Domain
  import opened Log
  import ChainBuild

  // ---------------------------------------------------------------------------
  // the candidates
  // ---------------------------------------------------------------------------

  /** The live clock events of node `id` that the references name, in the order of the references. */
  function OwnLive(live: seq<Entry>, id: NodeId, refs: seq<EventReference>): (r: seq<Entry>)
    ensures forall e :: e in r ==> e in live
  {
    if refs == [] then []
    else
      var found := if refs[0].creator == id then ByHash(live, refs[0].hash) else None;
      if found.Some? then [found.value] + OwnLive(live, id, refs[1..]) else OwnLive(live, id, refs[1..])
  }

  function Head(es: seq<Entry>): Option<Entry> {
    if es == [] then None else Some(es[0])
  }

  /** The bound is the first candidate. */
  lemma {:induction false} FirstOwnIsHead(live: seq<Entry>, id: NodeId, refs: seq<EventReference>)
    ensures FirstOwn(live, id, refs) == Head(OwnLive(live, id, refs))
  {
    if refs != [] {
      FirstOwnIsHead(live, id, refs[1..]);
    }
  }

  // ---------------------------------------------------------------------------
  // what pruning drops
  // ---------------------------------------------------------------------------

  /** How many live clock events of the chain are newer than sequence number `at`. */
  function NewerOn(live: seq<Entry>, chain: nat, at: nat): nat {
    if live == [] then 0
    else NewerOn(Front(live), chain, at) + if Last(live).ce.base.chain == chain && Last(live).at > at then 1 else 0
  }

  /** Pruning the chain to its newest `keep` will drop the clock event. */
  predicate Doomed(live: seq<Entry>, chain: nat, keep: nat, e: Entry) {
    keep > 0 && e.ce.base.chain == chain && NewerOn(live, chain, e.at) >= keep
  }

  lemma {:induction false} NewestNewer(live: seq<Entry>, chain: nat, at: nat)
    requires forall e :: e in live ==> e.at <= at
    ensures NewerOn(live, chain, at) == 0
  {
    if live != [] {
      NewestNewer(Front(live), chain, at);
    }
  }

  lemma {:induction false} KeptIff(live: seq<Entry>, next: nat, chain: nat, keep: nat, e: Entry)
    requires Ascending(live, next) && e in live
    ensures e in KeepNewest(live, chain, keep) <==> e.ce.base.chain != chain || NewerOn(live, chain, e.at) < keep
  {
    var front, last := Front(live), Last(live);
    assert live == front + [last];
    if e == last {
      NewestNewer(front, chain, e.at);
      KeepNewestThins(front, chain, keep);
      assert last !in front;
    } else {
      var i :| 0 <= i < |front| && front[i] == e;
      assert live[i].at < live[|front|].at;
      KeptIff(front, last.at, chain, if last.ce.base.chain == chain && keep > 0 then keep - 1 else keep, e);
    }
  }

  lemma DroppedIff(log: Log, chain: nat, keep: nat, e: Entry)
    requires WellFormed(log) && e in log.live
    ensures e in Prune(log, chain, keep).live <==> !Doomed(log.live, chain, keep, e)
  {
    KeptIff(log.live, log.next, chain, keep, e);
  }

  function Survivors(es: seq<Entry>, live: seq<Entry>, chain: nat, keep: nat): (r: seq<Entry>)
    ensures forall e :: e in r <==> e in es && !Doomed(live, chain, keep, e)
  {
    if es == [] then []
    else
      assert es == [es[0]] + es[1..];
      if Doomed(live, chain, keep, es[0]) then Survivors(es[1..], live, chain, keep) else [es[0]] + Survivors(es[1..], live, chain, keep)
  }

  // ---------------------------------------------------------------------------
  // candidates after dropping
  // ---------------------------------------------------------------------------

  lemma FindAfter(live: seq<Entry>, kept: seq<Entry>, next: nat, h: Hash)
    requires WellFormed(Log([], live, next)) && forall e :: e in kept ==> e in live
    ensures ByHash(kept, h) == if ByHash(live, h).Some? && ByHash(live, h).value in kept then ByHash(live, h) else None
  {
    var f, g := ByHash(live, h), ByHash(kept, h);
    if g.Some? {
      assert f.Some? && f.value.at == g.value.at;
      var i :| 0 <= i < |live| && live[i] == f.value;
      var j :| 0 <= j < |live| && live[j] == g.value;
    }
  }

  lemma {:induction false} SurvivorsPrepend(es: seq<Entry>, e: Entry, live: seq<Entry>, chain: nat, keep: nat)
    ensures var rest := Survivors(es, live, chain, keep);
      Survivors([e] + es, live, chain, keep) == if Doomed(live, chain, keep, e) then rest else [e] + rest
  {
    assert ([e] + es)[1..] == es;
  }

  /** Pruning leaves exactly the candidates that are not doomed, in their order. */
  lemma {:induction false} CandidatesAfter(log: Log, chain: nat, keep: nat, id: NodeId, refs: seq<EventReference>)
    requires WellFormed(log)
    ensures OwnLive(Prune(log, chain, keep).live, id, refs) == Survivors(OwnLive(log.live, id, refs), log.live, chain, keep)
  {
    if refs != [] {
      CandidatesAfter(log, chain, keep, id, refs[1..]);
      var kept := Prune(log, chain, keep).live;
      if refs[0].creator == id {
        if keep > 0 {
          KeepNewestThins(log.live, chain, keep);
        }
        FindAfter(log.live, kept, log.next, refs[0].hash);
        var found := ByHash(log.live, refs[0].hash);
        if found.Some? {
          DroppedIff(log, chain, keep, found.value);
          SurvivorsPrepend(OwnLive(log.live, id, refs[1..]), found.value, log.live, chain, keep);
        }
      }
    }
  }

  // ---------------------------------------------------------------------------
  // the exact condition
  // ---------------------------------------------------------------------------

  /** The references a chain's next lower clock event is looked up among. */
  function LowerRefs(ch: EventChain): seq<EventReference> {
    if ch.lower == [] then ch.event.refs else ch.lower[0].refs
  }

  /** The stamp of the lower bound found, if one is. */
  function LowerStamp(live: seq<Entry>, id: NodeId, ch: EventChain): (t: Option<Timestamp>) {
    var r := ChainBuild.AddLower(live, id, ch);
    if r.Some? && r.value.lower != [] then Some(r.value.lower[0].timestamp) else None
  }

  lemma StampIsFirst(live: seq<Entry>, id: NodeId, ch: EventChain)
    ensures var own := OwnLive(live, id, LowerRefs(ch));
      LowerStamp(live, id, ch) == if own == [] then None else Some(own[0].ce.base.timestamp)
  {
    hide OwnLive, FirstOwn;
    FirstOwnIsHead(live, id, LowerRefs(ch));
  }

  ghost predicate Later(before: Option<Timestamp>, after: Option<Timestamp>) {
    before.Some? && after.Some? && before.value < after.value
  }

  /** Pruning chain `chain` to its newest `keep` leaves no lower bound if and only if every own
      live reference is doomed. It moves the bound later if and only if the first own live
      reference is doomed and the first that is not is stamped later. If the first is not doomed
      the bound stays. */
  lemma PruneTightensIff(log: Log, chain: nat, keep: nat, id: NodeId, ch: EventChain)
    requires WellFormed(log)
    ensures var own := OwnLive(log.live, id, LowerRefs(ch)); var left := Survivors(own, log.live, chain, keep);
      && var before, after := LowerStamp(log.live, id, ch), LowerStamp(Prune(log, chain, keep).live, id, ch);
      && (after.None? <==> forall e :: e in own ==> Doomed(log.live, chain, keep, e))
      && (Later(before, after) <==>
          (own != [] && left != [] && Doomed(log.live, chain, keep, own[0]) && own[0].ce.base.timestamp < left[0].ce.base.timestamp))
      && (own != [] && !Doomed(log.live, chain, keep, own[0]) ==> after == before)
  {
    hide OwnLive, Doomed, LowerStamp;
    var own := OwnLive(log.live, id, LowerRefs(ch));
    var left := Survivors(own, log.live, chain, keep);
    StampIsFirst(log.live, id, ch);
    StampIsFirst(Prune(log, chain, keep).live, id, ch);
    CandidatesAfter(log, chain, keep, id, LowerRefs(ch));
    if left == [] {
      forall e | e in own
        ensures Doomed(log.live, chain, keep, e)
      {
        assert e !in left;
      }
    } else {
      assert left[0] in left;
    }
    if own != [] && !Doomed(log.live, chain, keep, own[0]) {
      assert left[0] == own[0];
    }
  }

  /** What some pruning may leave: fewer clock events, still in order. */
  ghost predicate Thinned(log: Log, kept: seq<Entry>) {
    WellFormed(log.(live := kept)) && forall e :: e in kept ==> e in log.live
  }

  ghost predicate NeverLater(log: Log, kept: seq<Entry>, id: NodeId, ch: EventChain, t: Timestamp) {
    Thinned(log, kept) && LowerStamp(kept, id, ch).Some? ==> LowerStamp(kept, id, ch).value <= t
  }

  lemma {:induction false} CandidateStays(live: seq<Entry>, kept: seq<Entry>, next: nat, id: NodeId, refs: seq<EventReference>, e: Entry)
    requires WellFormed(Log([], live, next)) && forall f :: f in kept ==> f in live
    ensures e in OwnLive(kept, id, refs) <==> e in OwnLive(live, id, refs) && e in kept
  {
    if refs != [] {
      CandidateStays(live, kept, next, id, refs[1..], e);
      FindAfter(live, kept, next, refs[0].hash);
    }
  }

  /** No pruning whatsoever, of any chains in any order, can move the bound later if and only if
      no own live reference is stamped later than the one the bound is now. */
  lemma NothingTightensIff(log: Log, id: NodeId, ch: EventChain)
    requires WellFormed(log) && OwnLive(log.live, id, LowerRefs(ch)) != []
    ensures var own := OwnLive(log.live, id, LowerRefs(ch)); var t := own[0].ce.base.timestamp;
      (forall kept :: NeverLater(log, kept, id, ch, t)) <==> (forall e :: e in own ==> e.ce.base.timestamp <= t)
  {
    hide WellFormed, OwnLive, NeverLater;
    var own := OwnLive(log.live, id, LowerRefs(ch));
    var t := own[0].ce.base.timestamp;
    if forall kept :: NeverLater(log, kept, id, ch, t) {
      forall e | e in own
        ensures e.ce.base.timestamp <= t
      {
        assert NeverLater(log, [e], id, ch, t);
        OnlyOneLeft(log, id, ch, e, t);
      }
    }
    if forall e :: e in own ==> e.ce.base.timestamp <= t {
      forall kept
        ensures NeverLater(log, kept, id, ch, t)
      {
        AllEarly(log, kept, id, ch, t);
      }
    }
  }

  lemma OnlyOneLeft(log: Log, id: NodeId, ch: EventChain, e: Entry, t: Timestamp)
    requires WellFormed(log) && e in OwnLive(log.live, id, LowerRefs(ch)) && NeverLater(log, [e], id, ch, t)
    ensures e.ce.base.timestamp <= t
  {
    hide LowerStamp, OwnLive;
    assert Thinned(log, [e]);
    SameWellFormed(log);
    hide WellFormed;
    StampIsFirst([e], id, ch);
    CandidateStays(log.live, [e], log.next, id, LowerRefs(ch), e);
    assert OwnLive([e], id, LowerRefs(ch))[0] in [e];
  }

  lemma AllEarly(log: Log, kept: seq<Entry>, id: NodeId, ch: EventChain, t: Timestamp)
    requires WellFormed(log) && forall e :: e in OwnLive(log.live, id, LowerRefs(ch)) ==> e.ce.base.timestamp <= t
    ensures NeverLater(log, kept, id, ch, t)
  {
    hide LowerStamp, OwnLive, WellFormed;
    if Thinned(log, kept) {
      StampIsFirst(kept, id, ch);
      var own := OwnLive(kept, id, LowerRefs(ch));
      if own != [] {
        SameWellFormed(log);
        CandidateStays(log.live, kept, log.next, id, LowerRefs(ch), own[0]);
      }
    }
  }

  lemma SameWellFormed(log: Log)
    requires WellFormed(log)
    ensures WellFormed(Log([], log.live, log.next))
  {
  }
}
