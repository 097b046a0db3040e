/** The store as a plain log: what every indexed read of either store implementation must
    answer, defined by scanning. Events are never dropped; clock events carry the sequence
    number they were appended under and leave the log only through pruning. */
module Log {
  import opened Domain

  datatype Entry = Entry(at: nat, ce: LocalClockEvent)

  /** `live` holds the surviving clock events, oldest first; `next` is the next sequence number. */
  datatype Log = Log(events: seq<Event>, live: seq<Entry>, next: nat)

  const EMPTY_LOG: Log := Log([], [], 0)

  // ---------------------------------------------------------------------------
  // reads
  // ---------------------------------------------------------------------------

  /** The oldest entry satisfying `p`. */
  function Oldest(live: seq<Entry>, p: Entry -> bool): (r: Option<Entry>)
    ensures r.Some? ==> r.value in live && p(r.value)
    ensures r.Some? ==> exists i :: 0 <= i < |live| && live[i] == r.value && forall j :: 0 <= j < i ==> !p(live[j])
    ensures r.None? ==> forall e :: e in live ==> !p(e)
  {
    if live == [] then None
    else
      var older := Oldest(Front(live), p);
      if older.Some? then older else if p(Last(live)) then Some(Last(live)) else None
  }

  /** The newest entry satisfying `p`. */
  function Newest(live: seq<Entry>, p: Entry -> bool): (r: Option<Entry>)
    ensures r.Some? ==> r.value in live && p(r.value)
    ensures r.None? ==> forall e :: e in live ==> !p(e)
  {
    if live == [] then None
    else if p(Last(live)) then Some(Last(live)) else Newest(Front(live), p)
  }

  function EventByHash(events: seq<Event>, h: Hash): (r: Option<Event>)
    ensures r.Some? ==> r.value in events && r.value.hash == h
    ensures r.None? ==> forall e :: e in events ==> e.hash != h
  {
    if events == [] then None
    else
      var older := EventByHash(Front(events), h);
      if older.Some? then older else if Last(events).hash == h then Some(Last(events)) else None
  }

  function ByHash(live: seq<Entry>, h: Hash): (r: Option<Entry>) {
    Oldest(live, (e: Entry) => e.ce.base.hash == h)
  }

  function BySeq(live: seq<Entry>, at: nat): (r: Option<Entry>) {
    Oldest(live, (e: Entry) => e.at == at)
  }

  function Tip(live: seq<Entry>, chain: nat): (r: Option<Entry>) {
    Newest(live, (e: Entry) => e.ce.base.chain == chain)
  }

  /** The clock event `add_local_upper_bound` picks: the lowest sequence number naming `h`. */
  function FirstReferencing(live: seq<Entry>, h: Hash): (r: Option<Entry>) {
    Oldest(live, (e: Entry) => Mentions(e.ce.base.refs, h))
  }

  /** The same-chain successor `extend_upper_bound_for_neighbor` steps to. */
  function NextOnChain(live: seq<Entry>, id: NodeId, c: ClockEvent): (r: Option<Entry>) {
    Oldest(live, (e: Entry) => Mentions(e.ce.base.refs, c.hash) && e.ce.base.creator == id && e.ce.base.chain == c.chain)
  }

  /** The first reference that names a live clock event of node `id`. */
  function FirstOwn(live: seq<Entry>, id: NodeId, refs: seq<EventReference>): (r: Option<Entry>)
    ensures r.Some? ==> r.value in live && EventReference(id, r.value.ce.base.hash) in refs
    ensures r.None? ==> forall ref :: ref in refs && ref.creator == id ==> ByHash(live, ref.hash).None?
  {
    if refs == [] then None
    else
      var found := if refs[0].creator == id then ByHash(live, refs[0].hash) else None;
      if found.Some? then found else FirstOwn(live, id, refs[1..])
  }

  function CountHash(refs: seq<EventReference>, h: Hash): (n: nat)
    ensures n > 0 <==> Mentions(refs, h)
  {
    if refs == [] then 0 else CountHash(Front(refs), h) + if Last(refs).hash == h then 1 else 0
  }

  function Repeat(at: nat, n: nat): (r: seq<nat>)
    ensures |r| == n && forall i :: 0 <= i < n ==> r[i] == at
  {
    if n == 0 then [] else Repeat(at, n - 1) + [at]
  }

  /** Ascending sequence numbers of the entries naming `h`, one per mention. */
  function Referencing(live: seq<Entry>, h: Hash): (r: seq<nat>) {
    if live == [] then []
    else Referencing(Front(live), h) + Repeat(Last(live).at, CountHash(Last(live).ce.base.refs, h))
  }

  /** One chain's surviving clock events, oldest first. */
  function OnChain(live: seq<Entry>, chain: nat): (r: seq<ClockEvent>) {
    if live == [] then []
    else OnChain(Front(live), chain) + if Last(live).ce.base.chain == chain then [Last(live).ce.base] else []
  }

  // ---------------------------------------------------------------------------
  // writes
  // ---------------------------------------------------------------------------

  function AppendEvent(log: Log, e: Event): (r: Log) {
    log.(events := log.events + [e])
  }

  function AppendClock(log: Log, c: LocalClockEvent): (r: Log) {
    log.(live := log.live + [Entry(log.next, c)], next := log.next + 1)
  }

  /** Replace the stored record of the clock event with this hash, keeping its place. */
  function Update(live: seq<Entry>, c: LocalClockEvent): (r: seq<Entry>)
    ensures |r| == |live|
    ensures forall i :: 0 <= i < |live| ==>
      r[i] == if live[i].ce.base.hash == c.base.hash then Entry(live[i].at, c) else live[i]
  {
    if live == [] then []
    else Update(Front(live), c) + [if Last(live).ce.base.hash == c.base.hash then Entry(Last(live).at, c) else Last(live)]
  }

  /** Drop all but the newest `keep` clock events of one chain. */
  function KeepNewest(live: seq<Entry>, chain: nat, keep: nat): (r: seq<Entry>)
    ensures |r| <= |live|
  {
    if live == [] then []
    else if Last(live).ce.base.chain != chain then KeepNewest(Front(live), chain, keep) + [Last(live)]
    else if keep == 0 then KeepNewest(Front(live), chain, 0)
    else KeepNewest(Front(live), chain, keep - 1) + [Last(live)]
  }

  /** Ring-pruning; `keep == 0` means unbounded. */
  function Prune(log: Log, chain: nat, keep: nat): (r: Log) {
    if keep == 0 then log else log.(live := KeepNewest(log.live, chain, keep))
  }

  // ---------------------------------------------------------------------------
  // well-formed logs
  // ---------------------------------------------------------------------------

  ghost predicate Ascending(live: seq<Entry>, next: nat) {
    && (forall i, j :: 0 <= i < j < |live| ==> live[i].at < live[j].at)
    && (forall i :: 0 <= i < |live| ==> live[i].at < next)
  }

  ghost predicate DistinctHashes(live: seq<Entry>) {
    forall e, f :: e in live && f in live && e.ce.base.hash == f.ce.base.hash ==> e.at == f.at
  }

  /** References between live clock events point strictly backward in the log. */
  ghost predicate Backward(live: seq<Entry>) {
    forall e, f :: e in live && f in live && Mentions(e.ce.base.refs, f.ce.base.hash) ==> f.at < e.at
  }

  ghost predicate WellFormed(log: Log) {
    Ascending(log.live, log.next) && DistinctHashes(log.live) && Backward(log.live)
  }

  /** The oldest entry naming a hash carries the lowest sequence number of those that do. */
  lemma OldestIsLowest(live: seq<Entry>, next: nat, h: Hash, e: Entry)
    requires Ascending(live, next) && e in live && Mentions(e.ce.base.refs, h)
    ensures var f := FirstReferencing(live, h); f.Some? && (f.value == e || f.value.at < e.at)
  {
    var f := FirstReferencing(live, h);
    assert f.Some?;
    var i :| 0 <= i < |live| && live[i] == f.value && forall j :: 0 <= j < i ==> !Mentions(live[j].ce.base.refs, h);
    var k :| 0 <= k < |live| && live[k] == e;
    assert i <= k;
  }

  /** Same entries up to the learned reverse edges. */
  ghost predicate SameBases(a: seq<Entry>, b: seq<Entry>) {
    |a| == |b| && forall i :: 0 <= i < |a| ==> a[i].at == b[i].at && a[i].ce.base == b[i].ce.base
  }

  // ---------------------------------------------------------------------------
  // lemmas
  // ---------------------------------------------------------------------------

  lemma {:induction false} KeepNewestThins(live: seq<Entry>, chain: nat, keep: nat)
    ensures forall e :: e in KeepNewest(live, chain, keep) ==> e in live
    ensures forall e :: e in live && e.ce.base.chain != chain ==> e in KeepNewest(live, chain, keep)
  {
    if live != [] {
      assert live == Front(live) + [Last(live)];
      if Last(live).ce.base.chain != chain {
        KeepNewestThins(Front(live), chain, keep);
      } else if keep == 0 {
        KeepNewestThins(Front(live), chain, 0);
      } else {
        KeepNewestThins(Front(live), chain, keep - 1);
      }
    }
  }

  lemma OnChainAppend(live: seq<Entry>, e: Entry, chain: nat)
    ensures OnChain(live + [e], chain) == OnChain(live, chain) + if e.ce.base.chain == chain then [e.ce.base] else []
  {
    assert Front(live + [e]) == live;
  }

  lemma LastNMore<T>(s: seq<T>, x: T, k: nat)
    ensures k > 0 ==> LastN(s + [x], k) == LastN(s, k - 1) + [x]
    ensures LastN(s, 0) == [] && LastN(s + [x], 0) == []
  {
  }

  /** Pruning one chain leaves exactly its newest `keep` clock events, and every other chain alone. */
  lemma {:induction false} KeepNewestOnChain(live: seq<Entry>, chain: nat, keep: nat, other: nat)
    ensures OnChain(KeepNewest(live, chain, keep), chain) == LastN(OnChain(live, chain), keep)
    ensures other != chain ==> OnChain(KeepNewest(live, chain, keep), other) == OnChain(live, other)
  {
    if live != [] {
      var k := if Last(live).ce.base.chain == chain && keep > 0 then keep - 1 else keep;
      KeepNewestOnChain(Front(live), chain, k, other);
      OnChainAppend(KeepNewest(Front(live), chain, k), Last(live), chain);
      OnChainAppend(KeepNewest(Front(live), chain, k), Last(live), other);
      LastNMore(OnChain(Front(live), chain), Last(live).ce.base, keep);
    }
  }

  lemma {:induction false} KeepNewestAscending(live: seq<Entry>, next: nat, chain: nat, keep: nat)
    requires Ascending(live, next)
    ensures Ascending(KeepNewest(live, chain, keep), next)
  {
    if live != [] {
      var k := if Last(live).ce.base.chain == chain && keep > 0 then keep - 1 else keep;
      KeepNewestAscending(Front(live), Last(live).at, chain, k);
    }
  }

  lemma KeepNewestWellFormed(log: Log, chain: nat, keep: nat)
    requires WellFormed(log)
    ensures WellFormed(Prune(log, chain, keep))
  {
    KeepNewestThins(log.live, chain, keep);
    KeepNewestAscending(log.live, log.next, chain, keep);
  }

  lemma AppendEventWellFormed(log: Log, e: Event)
    requires WellFormed(log)
    ensures WellFormed(AppendEvent(log, e))
  {
  }

  lemma AppendWellFormed(log: Log, c: LocalClockEvent)
    requires WellFormed(log)
    requires !Mentions(c.base.refs, c.base.hash)
    requires forall e :: e in log.live ==> e.ce.base.hash != c.base.hash && !Mentions(e.ce.base.refs, c.base.hash)
    ensures WellFormed(AppendClock(log, c))
  {
    var live := AppendClock(log, c).live;
    forall e, f | e in live && f in live
      ensures e.ce.base.hash == f.ce.base.hash ==> e.at == f.at
      ensures Mentions(e.ce.base.refs, f.ce.base.hash) ==> f.at < e.at
    {
      assert e in log.live || e == Entry(log.next, c);
      assert f in log.live || f == Entry(log.next, c);
    }
  }

  lemma {:induction false} TipIsLast(live: seq<Entry>, chain: nat)
    ensures Tip(live, chain).Some? <==> OnChain(live, chain) != []
    ensures Tip(live, chain).Some? ==> Tip(live, chain).value.ce.base == Last(OnChain(live, chain))
  {
    if live != [] {
      TipIsLast(Front(live), chain);
    }
  }

  /** Learning a reverse edge changes no base, hence none of the facts that depend on bases. */
  lemma {:induction false} SameBasesOnChain(a: seq<Entry>, b: seq<Entry>, chain: nat)
    requires SameBases(a, b)
    ensures OnChain(a, chain) == OnChain(b, chain)
  {
    if a != [] {
      SameBasesOnChain(Front(a), Front(b), chain);
    }
  }

  lemma SameBasesWellFormed(a: Log, b: Log)
    requires SameBases(a.live, b.live) && a.next == b.next
    requires WellFormed(a)
    ensures WellFormed(b)
  {
    forall e, f | e in b.live && f in b.live
      ensures e.ce.base.hash == f.ce.base.hash ==> e.at == f.at
      ensures Mentions(e.ce.base.refs, f.ce.base.hash) ==> f.at < e.at
    {
      var i :| 0 <= i < |b.live| && b.live[i] == e;
      var j :| 0 <= j < |b.live| && b.live[j] == f;
      assert a.live[i] in a.live && a.live[j] in a.live;
    }
  }
}
