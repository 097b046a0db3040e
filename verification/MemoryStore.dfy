/** The in-memory store: a log kept through several indices, each proved to answer exactly
    what a scan of the log would. */
module MemoryStore {
  import opened Domain
  import opened Log
  import opened Ring
  import NodeModel
  import Overlay
  import Router

  // ---------------------------------------------------------------------------
  // what each index holds
  // ---------------------------------------------------------------------------

  ghost predicate EventAt(index: map<Hash, nat>, events: seq<Event>, h: Hash) {
    && (h in index <==> EventByHash(events, h).Some?)
    && (h in index ==> index[h] < |events| && EventByHash(events, h) == Some(events[index[h]]))
  }

  ghost predicate EventsMatch(index: map<Hash, nat>, events: seq<Event>) {
    forall h :: EventAt(index, events, h)
  }

  ghost predicate ClockAt(table: map<nat, LocalClockEvent>, live: seq<Entry>, s: nat) {
    BySeq(live, s) == if s in table then Some(Entry(s, table[s])) else None
  }

  ghost predicate ClocksMatch(table: map<nat, LocalClockEvent>, live: seq<Entry>) {
    forall s :: ClockAt(table, live, s)
  }

  ghost predicate HashAt(index: map<Hash, nat>, live: seq<Entry>, h: Hash) {
    && (h in index <==> ByHash(live, h).Some?)
    && (h in index ==> ByHash(live, h).value.at == index[h])
  }

  ghost predicate HashesMatch(index: map<Hash, nat>, live: seq<Entry>) {
    forall h :: HashAt(index, live, h)
  }

  function Listed<K>(index: map<K, seq<nat>>, k: K): (r: seq<nat>) {
    if k in index then index[k] else []
  }

  ghost predicate RefAt(index: map<Hash, seq<nat>>, live: seq<Entry>, h: Hash) {
    Listed(index, h) == Referencing(live, h)
  }

  ghost predicate RefsMatch(index: map<Hash, seq<nat>>, live: seq<Entry>) {
    forall h :: RefAt(index, live, h)
  }

  ghost predicate ChainAt(tips: map<nat, nat>, seqs: map<nat, seq<nat>>, live: seq<Entry>, c: nat) {
    && Listed(seqs, c) == SeqsOn(live, c)
    && (c in tips <==> SeqsOn(live, c) != [])
    && (c in tips ==> tips[c] == Last(SeqsOn(live, c)))
  }

  ghost predicate ChainsMatch(tips: map<nat, nat>, seqs: map<nat, seq<nat>>, live: seq<Entry>) {
    forall c :: ChainAt(tips, seqs, live, c)
  }

  ghost predicate WellOrdered(live: seq<Entry>, next: nat) {
    Ascending(live, next) && DistinctHashes(live)
  }

  // ---------------------------------------------------------------------------
  // appending
  // ---------------------------------------------------------------------------

  lemma EventsAppend(index: map<Hash, nat>, events: seq<Event>, e: Event)
    requires EventsMatch(index, events)
    ensures EventsMatch(if e.hash in index then index else index[e.hash := |events|], events + [e])
  {
    var index' := if e.hash in index then index else index[e.hash := |events|];
    assert Front(events + [e]) == events;
    forall h
      ensures EventAt(index', events + [e], h)
    {
      assert EventAt(index, events, h) && EventAt(index, events, e.hash);
    }
  }

  lemma ClocksAppend(table: map<nat, LocalClockEvent>, live: seq<Entry>, next: nat, e: Entry)
    requires ClocksMatch(table, live) && WellOrdered(live, next) && e.at == next
    ensures ClocksMatch(table[e.at := e.ce], live + [e])
  {
    var table', live' := table[e.at := e.ce], live + [e];
    assert Front(live') == live;
    forall s
      ensures ClockAt(table', live', s)
    {
      assert ClockAt(table, live, s);
    }
  }

  lemma HashesAppend(index: map<Hash, nat>, live: seq<Entry>, e: Entry)
    requires HashesMatch(index, live) && ByHash(live, e.ce.base.hash).None?
    ensures e.ce.base.hash !in index && HashesMatch(index[e.ce.base.hash := e.at], live + [e])
  {
    var index', live' := index[e.ce.base.hash := e.at], live + [e];
    assert Front(live') == live;
    assert HashAt(index, live, e.ce.base.hash);
    forall h
      ensures HashAt(index', live', h)
    {
      assert HashAt(index, live, h);
    }
  }

  /** `index'` is `index` with one entry more per reference of `e`. */
  ghost predicate Recorded(index: map<Hash, seq<nat>>, index': map<Hash, seq<nat>>, at: nat, refs: seq<EventReference>, h: Hash) {
    Listed(index', h) == Listed(index, h) + Repeat(at, CountHash(refs, h))
  }

  lemma RefsAppend(index: map<Hash, seq<nat>>, index': map<Hash, seq<nat>>, live: seq<Entry>, e: Entry)
    requires RefsMatch(index, live)
    requires forall h :: Recorded(index, index', e.at, e.ce.base.refs, h)
    ensures RefsMatch(index', live + [e])
  {
    assert Front(live + [e]) == live;
    forall h
      ensures RefAt(index', live + [e], h)
    {
      assert RefAt(index, live, h) && Recorded(index, index', e.at, e.ce.base.refs, h);
    }
  }

  lemma ChainsAppend(tips: map<nat, nat>, seqs: map<nat, seq<nat>>, live: seq<Entry>, e: Entry)
    requires ChainsMatch(tips, seqs, live)
    ensures var c := e.ce.base.chain; ChainsMatch(tips[c := e.at], seqs[c := Listed(seqs, c) + [e.at]], live + [e])
  {
    var c := e.ce.base.chain;
    var tips', seqs', live' := tips[c := e.at], seqs[c := Listed(seqs, c) + [e.at]], live + [e];
    assert Front(live') == live;
    forall d
      ensures ChainAt(tips', seqs', live', d)
    {
      assert ChainAt(tips, seqs, live, d);
    }
  }

  lemma OrderAppend(live: seq<Entry>, next: nat, e: Entry)
    requires WellOrdered(live, next) && e.at == next && ByHash(live, e.ce.base.hash).None?
    ensures WellOrdered(live + [e], next + 1)
  {
  }

  method Record(index: map<Hash, seq<nat>>, at: nat, refs: seq<EventReference>) returns (r: map<Hash, seq<nat>>)
    ensures forall h :: Recorded(index, r, at, refs, h)
  {
    r := index;
    for i := 0 to |refs|
      invariant forall h :: Recorded(index, r, at, refs[..i], h)
    {
      ghost var was := r;
      r := r[refs[i].hash := Listed(r, refs[i].hash) + [at]];
      assert Front(refs[..i + 1]) == refs[..i];
      RecordStep(index, was, r, at, refs[..i + 1]);
    }
    assert refs[..|refs|] == refs;
  }

  lemma RecordStep(index: map<Hash, seq<nat>>, was: map<Hash, seq<nat>>, r: map<Hash, seq<nat>>, at: nat, done: seq<EventReference>)
    requires done != [] && forall h :: Recorded(index, was, at, Front(done), h)
    requires r == was[Last(done).hash := Listed(was, Last(done).hash) + [at]]
    ensures forall h :: Recorded(index, r, at, done, h)
  {
    forall h
      ensures Recorded(index, r, at, done, h)
    {
      assert Recorded(index, was, at, Front(done), h);
      RepeatMore(Listed(index, h), at, CountHash(Front(done), h));
    }
  }

  lemma RepeatMore(s: seq<nat>, at: nat, n: nat)
    ensures (s + Repeat(at, n)) + [at] == s + Repeat(at, n + 1)
  {
  }

  // ---------------------------------------------------------------------------
  // updating
  // ---------------------------------------------------------------------------

  /** The record differs from the stored one only in the learned reverse edges. */
  ghost predicate SameRecord(live: seq<Entry>, c: LocalClockEvent) {
    forall e :: e in live && e.ce.base.hash == c.base.hash ==> e.ce.base == c.base
  }

  lemma {:induction false} UpdateKeepsIndices(live: seq<Entry>, c: LocalClockEvent, chain: nat, h: Hash)
    requires SameRecord(live, c)
    ensures Referencing(Update(live, c), h) == Referencing(live, h)
    ensures SeqsOn(Update(live, c), chain) == SeqsOn(live, chain)
  {
    if live != [] {
      assert live == Front(live) + [Last(live)];
      assert Last(live) in live;
      UpdateKeepsIndices(Front(live), c, chain, h);
      assert Front(Update(live, c)) == Update(Front(live), c);
    }
  }

  lemma UpdateSameBases(live: seq<Entry>, c: LocalClockEvent)
    requires SameRecord(live, c)
    ensures SameBases(live, Update(live, c))
  {
    forall i | 0 <= i < |live|
      ensures live[i].ce.base == Update(live, c)[i].ce.base
    {
      assert live[i] in live;
    }
  }

  lemma SameBasesOrdered(a: seq<Entry>, b: seq<Entry>, next: nat)
    requires WellOrdered(a, next) && SameBases(a, b)
    ensures WellOrdered(b, next)
  {
    forall e, f | e in b && f in b && e.ce.base.hash == f.ce.base.hash
      ensures e.at == f.at
    {
      var i :| 0 <= i < |b| && b[i] == e;
      var j :| 0 <= j < |b| && b[j] == f;
      assert a[i] in a && a[j] in a;
    }
  }

  lemma SameBasesSym(a: seq<Entry>, b: seq<Entry>)
    requires SameBases(a, b)
    ensures SameBases(b, a)
  {
  }

  lemma SameBasesFind(a: seq<Entry>, b: seq<Entry>, next: nat, h: Hash, i: nat)
    requires WellOrdered(b, next) && SameBases(a, b) && i < |a| && a[i].ce.base.hash == h
    ensures ByHash(b, h) == Some(b[i])
  {
    HashFinds(b, next, b[i]);
  }

  lemma HashesUpdate(index: map<Hash, nat>, a: seq<Entry>, b: seq<Entry>, next: nat)
    requires HashesMatch(index, a) && WellOrdered(a, next) && SameBases(a, b)
    ensures HashesMatch(index, b)
  {
    SameBasesOrdered(a, b, next);
    SameBasesSym(a, b);
    forall h
      ensures HashAt(index, b, h)
    {
      assert HashAt(index, a, h);
      if ByHash(a, h).Some? {
        var i :| 0 <= i < |a| && a[i] == ByHash(a, h).value;
        SameBasesFind(a, b, next, h, i);
      }
      if ByHash(b, h).Some? {
        var i :| 0 <= i < |b| && b[i] == ByHash(b, h).value;
        SameBasesFind(b, a, next, h, i);
      }
    }
  }

  lemma IndicesUpdate(refs: map<Hash, seq<nat>>, tips: map<nat, nat>, seqs: map<nat, seq<nat>>, live: seq<Entry>, c: LocalClockEvent)
    requires RefsMatch(refs, live) && ChainsMatch(tips, seqs, live) && SameRecord(live, c)
    ensures RefsMatch(refs, Update(live, c)) && ChainsMatch(tips, seqs, Update(live, c))
  {
    forall h
      ensures RefAt(refs, Update(live, c), h)
    {
      assert RefAt(refs, live, h);
      UpdateKeepsIndices(live, c, 0, h);
    }
    forall d
      ensures ChainAt(tips, seqs, Update(live, c), d)
    {
      assert ChainAt(tips, seqs, live, d);
      UpdateKeepsIndices(live, c, d, []);
    }
  }

  lemma HashKnown(index: map<Hash, nat>, live: seq<Entry>, h: Hash)
    requires HashesMatch(index, live)
    ensures h in index <==> ByHash(live, h).Some?
    ensures h in index ==> ByHash(live, h).value.at == index[h]
  {
    assert HashAt(index, live, h);
  }

  lemma EmptyMatches()
    ensures EventsMatch(map[], []) && ClocksMatch(map[], []) && HashesMatch(map[], [])
    ensures RefsMatch(map[], []) && ChainsMatch(map[], map[], []) && WellOrdered([], 0)
  {
  }

  lemma UpdateMissing(live: seq<Entry>, c: LocalClockEvent)
    requires ByHash(live, c.base.hash).None?
    ensures Update(live, c) == live
  {
    forall i | 0 <= i < |live|
      ensures Update(live, c)[i] == live[i]
    {
      assert live[i] in live;
    }
  }

  lemma ClocksUpdate(table: map<nat, LocalClockEvent>, live: seq<Entry>, next: nat, c: LocalClockEvent, at: nat)
    requires ClocksMatch(table, live) && WellOrdered(live, next) && SameRecord(live, c)
    requires ByHash(live, c.base.hash).Some? && ByHash(live, c.base.hash).value.at == at
    ensures ClocksMatch(table[at := c], Update(live, c))
  {
    var u := Update(live, c);
    UpdateSameBases(live, c);
    SameBasesOrdered(live, u, next);
    var table' := table[at := c];
    forall s
      ensures ClockAt(table', u, s)
    {
      assert ClockAt(table, live, s);
      UpdateBySeq(live, next, c, s);
    }
  }

  lemma SameHashSameSeq(live: seq<Entry>, next: nat, e: Entry, f: Entry)
    requires WellOrdered(live, next) && e in live && f in live
    ensures e.ce.base.hash == f.ce.base.hash <==> e.at == f.at
  {
    SeqFinds(live, next, e);
    SeqFinds(live, next, f);
  }

  lemma UpdateHit(live: seq<Entry>, next: nat, c: LocalClockEvent, j: nat)
    requires WellOrdered(Update(live, c), next) && j < |live|
    ensures BySeq(Update(live, c), live[j].at) == Some(Update(live, c)[j])
  {
    SeqFinds(Update(live, c), next, Update(live, c)[j]);
  }

  lemma UpdateMiss(live: seq<Entry>, c: LocalClockEvent, s: nat)
    requires BySeq(live, s).None?
    ensures BySeq(Update(live, c), s).None?
  {
    forall e | e in Update(live, c)
      ensures e.at != s
    {
      var j :| 0 <= j < |live| && Update(live, c)[j] == e;
      assert live[j] in live;
    }
  }

  lemma UpdateBySeq(live: seq<Entry>, next: nat, c: LocalClockEvent, s: nat)
    requires WellOrdered(live, next) && WellOrdered(Update(live, c), next) && ByHash(live, c.base.hash).Some?
    ensures BySeq(Update(live, c), s) == if s == ByHash(live, c.base.hash).value.at then Some(Entry(s, c)) else BySeq(live, s)
  {
    var target, found := ByHash(live, c.base.hash).value, BySeq(live, s);
    assert target in live && target.ce.base.hash == c.base.hash;
    assert found.Some? ==> found.value in live && found.value.at == s;
    SeqIsKnown(live, next, target);
    hide WellOrdered, BySeq, ByHash;
    if found.Some? {
      var j :| 0 <= j < |live| && live[j] == found.value;
      UpdateHit(live, next, c, j);
      SameHashSameSeq(live, next, live[j], target);
    } else {
      UpdateMiss(live, c, s);
    }
  }

  lemma SeqIsKnown(live: seq<Entry>, next: nat, e: Entry)
    requires WellOrdered(live, next) && e in live
    ensures BySeq(live, e.at).Some?
  {
    SeqFinds(live, next, e);
  }

  // ---------------------------------------------------------------------------
  // evicting
  // ---------------------------------------------------------------------------

  lemma ClocksEvict(table: map<nat, LocalClockEvent>, live: seq<Entry>, next: nat, i: nat)
    requires ClocksMatch(table, live) && WellOrdered(live, next) && i < |live|
    ensures live[i].at in table && table[live[i].at] == live[i].ce
    ensures ClocksMatch(table - {live[i].at}, Evict(live, i))
  {
    SeqFinds(live, next, live[i]);
    assert ClockAt(table, live, live[i].at);
    forall s
      ensures ClockAt(table - {live[i].at}, Evict(live, i), s)
    {
      assert ClockAt(table, live, s);
      EvictBySeq(live, next, i, s);
    }
  }

  lemma HashesEvict(index: map<Hash, nat>, live: seq<Entry>, next: nat, i: nat)
    requires HashesMatch(index, live) && WellOrdered(live, next) && i < |live|
    ensures HashesMatch(index - {live[i].ce.base.hash}, Evict(live, i))
  {
    forall h
      ensures HashAt(index - {live[i].ce.base.hash}, Evict(live, i), h)
    {
      assert HashAt(index, live, h);
      EvictByHash(live, next, i, h);
    }
  }

  /** `index'` is `index` without sequence number `at` under the hashes `refs` names. */
  ghost predicate Erased(index: map<Hash, seq<nat>>, index': map<Hash, seq<nat>>, at: nat, refs: seq<EventReference>, h: Hash) {
    Listed(index', h) == if Mentions(refs, h) then Drop(Listed(index, h), at) else Listed(index, h)
  }

  lemma RefsEvict(index: map<Hash, seq<nat>>, index': map<Hash, seq<nat>>, live: seq<Entry>, next: nat, i: nat)
    requires RefsMatch(index, live) && Ascending(live, next) && i < |live|
    requires forall h :: Erased(index, index', live[i].at, live[i].ce.base.refs, h)
    ensures RefsMatch(index', Evict(live, i))
  {
    forall h
      ensures RefAt(index', Evict(live, i), h)
    {
      assert RefAt(index, live, h) && Erased(index, index', live[i].at, live[i].ce.base.refs, h);
      EvictReferencing(live, next, i, h);
    }
  }

  lemma ChainsEvict(tips: map<nat, nat>, seqs: map<nat, seq<nat>>, live: seq<Entry>, chain: nat)
    requires ChainsMatch(tips, seqs, live) && |Listed(seqs, chain)| > 1
    ensures var i := FirstOn(live, chain);
      && i < |live| && live[i].at == Listed(seqs, chain)[0]
      && ChainsMatch(tips, seqs[chain := Listed(seqs, chain)[1..]], Evict(live, i))
  {
    hide SeqsOn, Evict, FirstOn;
    var i := FirstOn(live, chain);
    assert ChainAt(tips, seqs, live, chain);
    EvictSeqsOn(live, chain, chain);
    var live', seqs' := Evict(live, i), seqs[chain := Listed(seqs, chain)[1..]];
    forall d
      ensures ChainAt(tips, seqs', live', d)
    {
      assert ChainAt(tips, seqs, live, d);
      EvictSeqsOn(live, chain, d);
    }
  }

  /** The reverse-index loop: erase `at` wherever a reference of the pruned clock event put it. */
  method Erase(index: map<Hash, seq<nat>>, at: nat, refs: seq<EventReference>) returns (r: map<Hash, seq<nat>>)
    ensures forall h :: Erased(index, r, at, refs, h)
  {
    r := index;
    for i := 0 to |refs|
      invariant forall h :: Erased(index, r, at, refs[..i], h)
    {
      ghost var was := r;
      var left := EraseFrom(Listed(r, refs[i].hash), at);
      r := r[refs[i].hash := left];
      assert Front(refs[..i + 1]) == refs[..i];
      EraseStep(index, was, r, at, refs[..i + 1]);
    }
    assert refs[..|refs|] == refs;
  }

  method EraseFrom(s: seq<nat>, at: nat) returns (r: seq<nat>)
    ensures r == Drop(s, at)
  {
    r := [];
    for i := 0 to |s|
      invariant r == Drop(s[..i], at)
    {
      assert Front(s[..i + 1]) == s[..i];
      if s[i] != at {
        r := r + [s[i]];
      }
    }
    assert s[..|s|] == s;
  }

  lemma {:induction false} DropTwice(s: seq<nat>, x: nat)
    ensures Drop(Drop(s, x), x) == Drop(s, x)
  {
    if s != [] {
      DropTwice(Front(s), x);
      if Last(s) != x {
        assert Front(Drop(s, x)) == Drop(Front(s), x);
      }
    }
  }

  lemma EraseStep(index: map<Hash, seq<nat>>, was: map<Hash, seq<nat>>, r: map<Hash, seq<nat>>, at: nat, done: seq<EventReference>)
    requires done != [] && forall h :: Erased(index, was, at, Front(done), h)
    requires r == was[Last(done).hash := Drop(Listed(was, Last(done).hash), at)]
    ensures forall h :: Erased(index, r, at, done, h)
  {
    forall h
      ensures Erased(index, r, at, done, h)
    {
      assert Erased(index, was, at, Front(done), h);
      DropTwice(Listed(index, h), at);
      MentionsMore(done, h);
    }
  }

  lemma MentionsMore(refs: seq<EventReference>, h: Hash)
    requires refs != []
    ensures Mentions(refs, h) <==> Mentions(Front(refs), h) || Last(refs).hash == h
  {
    if Mentions(Front(refs), h) {
      var j :| 0 <= j < |Front(refs)| && Front(refs)[j].hash == h;
      assert refs[j].hash == h;
    }
    if Mentions(refs, h) && Last(refs).hash != h {
      var j :| 0 <= j < |refs| && refs[j].hash == h;
      assert Front(refs)[j].hash == h;
    }
  }

  // ---------------------------------------------------------------------------
  // sorting
  // ---------------------------------------------------------------------------

  ghost predicate Sorted(s: seq<nat>) {
    forall i, j :: 0 <= i < j < |s| ==> s[i] <= s[j]
  }

  ghost predicate AtMost(s: seq<nat>, x: nat) {
    forall i :: 0 <= i < |s| ==> s[i] <= x
  }

  /** Insertion point from the back: after the last element not above `x`. */
  function Insert(s: seq<nat>, x: nat): (r: seq<nat>)
    ensures |r| == |s| + 1
  {
    if s == [] || Last(s) <= x then s + [x] else Insert(Front(s), x) + [Last(s)]
  }

  lemma {:induction false} InsertBounded(s: seq<nat>, x: nat, top: nat)
    requires AtMost(s, top) && x <= top
    ensures AtMost(Insert(s, x), top)
  {
    if s != [] && Last(s) > x {
      InsertBounded(Front(s), x, top);
    }
  }

  lemma {:induction false} InsertAdds(s: seq<nat>, x: nat)
    ensures multiset(Insert(s, x)) == multiset(s) + multiset{x}
  {
    if s != [] && Last(s) > x {
      assert s == Front(s) + [Last(s)];
      InsertAdds(Front(s), x);
    }
  }

  lemma {:induction false} InsertSorts(s: seq<nat>, x: nat)
    requires Sorted(s)
    ensures Sorted(Insert(s, x))
  {
    if s != [] && Last(s) > x {
      InsertSorts(Front(s), x);
      InsertBounded(Front(s), x, Last(s));
    }
  }

  method Sort(s: seq<nat>) returns (r: seq<nat>)
    ensures multiset(r) == multiset(s) && Sorted(r)
    ensures Sorted(s) ==> r == s
  {
    r := [];
    for i := 0 to |s|
      invariant Sorted(r) && multiset(r) == multiset(s[..i])
      invariant Sorted(s) ==> r == s[..i]
    {
      assert s[..i + 1] == s[..i] + [s[i]];
      InsertAdds(r, s[i]);
      InsertSorts(r, s[i]);
      r := Insert(r, s[i]);
    }
    assert s[..|s|] == s;
  }

  /** The reverse index lists sequence numbers in ascending order already. */
  lemma {:induction false} ReferencingSorted(live: seq<Entry>, next: nat, h: Hash)
    requires Ascending(live, next)
    ensures Sorted(Referencing(live, h)) && forall i :: 0 <= i < |Referencing(live, h)| ==> Referencing(live, h)[i] < next
  {
    if live != [] {
      var front, last := Front(live), Last(live);
      assert Ascending(front, last.at) && last.at < next;
      ReferencingSorted(front, last.at, h);
      hide Ascending;
      var tail := Repeat(last.at, CountHash(last.ce.base.refs, h));
      assert Referencing(live, h) == Referencing(front, h) + tail;
    }
  }

  // ---------------------------------------------------------------------------
  // the store
  // ---------------------------------------------------------------------------

  class InMemoryStore {
    var events: seq<Event>
    var clockEvents: map<nat, LocalClockEvent>
    var nextClockSeq: nat
    var eventSeq: map<Hash, nat>
    var clockSeq: map<Hash, nat>
    var referencing: map<Hash, seq<nat>>
    var chainTipSeq: map<nat, nat>
    var chainSeqs: map<nat, seq<nat>>
    /** One record per id, kept in the order of ids. */
    var neighbors: seq<Neighbor>

    var routes: map<NodeId, NodeId>
    var timedRoutes: Router.RouteTable

    /** The log this store stands for. */
    ghost var log: Log

    ghost predicate Valid()
      reads this
    {
      && events == log.events && nextClockSeq == log.next
      && WellOrdered(log.live, log.next)
      && EventsMatch(eventSeq, log.events)
      && ClocksMatch(clockEvents, log.live)
      && HashesMatch(clockSeq, log.live)
      && RefsMatch(referencing, log.live)
      && ChainsMatch(chainTipSeq, chainSeqs, log.live)
    }

    constructor ()
      ensures Valid() && log == EMPTY_LOG
      ensures neighbors == [] && routes == map[] && timedRoutes == map[]
    {
      hide EventsMatch, ClocksMatch, HashesMatch, RefsMatch, ChainsMatch, WellOrdered;
      EmptyMatches();
      events, clockEvents, nextClockSeq := [], map[], 0;
      eventSeq, clockSeq, referencing := map[], map[], map[];
      chainTipSeq, chainSeqs := map[], map[];
      neighbors, routes, timedRoutes := [], map[], map[];
      log := EMPTY_LOG;
    }

    method AddEvent(e: Event) returns (at: nat)
      requires Valid()
      modifies `events, `eventSeq, `log
      ensures Valid()
      ensures at == |old(log).events| && log == AppendEvent(old(log), e)
    {
      hide EventsMatch, ClocksMatch, HashesMatch, RefsMatch, ChainsMatch, WellOrdered;
      at := |events|;
      EventsAppend(eventSeq, log.events, e);
      eventSeq := if e.hash in eventSeq then eventSeq else eventSeq[e.hash := at];
      events := events + [e];
      log := AppendEvent(log, e);
    }

    /** The hash is that of a new clock event: no live one carries it. */
    method AddClockEvent(c: LocalClockEvent) returns (at: nat)
      requires Valid() && ByHash(log.live, c.base.hash).None?
      modifies `clockEvents, `nextClockSeq, `clockSeq, `referencing, `chainTipSeq, `chainSeqs, `log
      ensures Valid()
      ensures at == old(log).next && log == AppendClock(old(log), c)
    {
      hide EventsMatch, ClocksMatch, HashesMatch, RefsMatch, ChainsMatch, WellOrdered, ByHash, Recorded;
      at := nextClockSeq;
      ghost var e := Entry(at, c);
      ClocksAppend(clockEvents, log.live, log.next, e);
      HashesAppend(clockSeq, log.live, e);
      ChainsAppend(chainTipSeq, chainSeqs, log.live, e);
      OrderAppend(log.live, log.next, e);
      nextClockSeq := nextClockSeq + 1;
      clockSeq := if c.base.hash in clockSeq then clockSeq else clockSeq[c.base.hash := at];
      referencing := Record(referencing, at, c.base.refs);
      RefsAppend(old(referencing), referencing, log.live, e);
      chainTipSeq := chainTipSeq[c.base.chain := at];
      chainSeqs := chainSeqs[c.base.chain := Listed(chainSeqs, c.base.chain) + [at]];
      clockEvents := clockEvents[at := c];
      log := AppendClock(log, c);
    }

    /** Re-persist a clock event whose learned reverse edges grew; unknown hashes are ignored. */
    method UpdateClockEvent(c: LocalClockEvent)
      requires Valid() && SameRecord(log.live, c)
      modifies `clockEvents, `log
      ensures Valid()
      ensures log == old(log).(live := Update(old(log).live, c))
    {
      hide EventsMatch, ClocksMatch, HashesMatch, RefsMatch, ChainsMatch, WellOrdered, SameRecord, ByHash, SameBases;
      HashKnown(clockSeq, log.live, c.base.hash);
      UpdateSameBases(log.live, c);
      SameBasesOrdered(log.live, Update(log.live, c), log.next);
      HashesUpdate(clockSeq, log.live, Update(log.live, c), log.next);
      IndicesUpdate(referencing, chainTipSeq, chainSeqs, log.live, c);
      if c.base.hash in clockSeq {
        ClocksUpdate(clockEvents, log.live, log.next, c, clockSeq[c.base.hash]);
        clockEvents := clockEvents[clockSeq[c.base.hash] := c];
      } else {
        UpdateMissing(log.live, c);
      }
      log := log.(live := Update(log.live, c));
    }

    method PutNeighbor(n: Neighbor)
      requires Valid()
      modifies `neighbors
      ensures Valid() && neighbors == NodeModel.PutNeighbor(old(neighbors), n)
    {
      var i := NodeModel.NeighborAt(neighbors, n.id);
      if i < 0 {
        neighbors := Overlay.Placed(neighbors, n);
      } else {
        neighbors := neighbors[i := n];
      }
    }

    method PutRoute(dst: NodeId, hop: NodeId)
      requires Valid()
      modifies `routes
      ensures Valid() && routes == old(routes)[dst := hop]
    {
      routes := routes[dst := hop];
    }

    /** The whole table is written as one unit. */
    method PutTimedRoutes(table: Router.RouteTable)
      requires Valid()
      modifies `timedRoutes
      ensures Valid() && timedRoutes == table
    {
      timedRoutes := table;
    }

    /** Ring-prune: exactly the newest `keep` clock events of the chain stay. */
    method PruneChain(chain: nat, keep: nat)
      requires Valid()
      modifies `clockEvents, `clockSeq, `referencing, `chainSeqs, `log
      ensures Valid()
      ensures log == Prune(old(log), chain, keep)
    {
      hide EventsMatch, ClocksMatch, HashesMatch, RefsMatch, WellOrdered, KeepNewest;
      if chain !in chainSeqs || keep == 0 {
        assert ChainAt(chainTipSeq, chainSeqs, log.live, chain);
        if keep > 0 {
          KeepAll(log.live, chain, keep);
        }
        return;
      }
      while |chainSeqs[chain]| > keep
        invariant Valid() && chain in chainSeqs
        invariant log == old(log).(live := log.live)
        invariant KeepNewest(log.live, chain, keep) == KeepNewest(old(log).live, chain, keep)
        decreases |chainSeqs[chain]|
      {
        EvictOldest(chain, keep);
      }
      assert ChainAt(chainTipSeq, chainSeqs, log.live, chain);
      KeepAll(log.live, chain, keep);
    }

    /** One turn of the prune loop. */
    method EvictOldest(chain: nat, ghost keep: nat)
      requires Valid() && chain in chainSeqs && |chainSeqs[chain]| > keep > 0
      modifies `clockEvents, `clockSeq, `referencing, `chainSeqs, `log
      ensures Valid() && chain in chainSeqs && chainSeqs[chain] == old(chainSeqs)[chain][1..]
      ensures log == old(log).(live := log.live)
      ensures KeepNewest(log.live, chain, keep) == KeepNewest(old(log).live, chain, keep)
    {
      hide EventsMatch, ClocksMatch, HashesMatch, RefsMatch, KeepNewest, Evict, Erased, SeqsOn;
      ghost var live, i := log.live, FirstOn(log.live, chain);
      var at := chainSeqs[chain][0];
      assert ChainAt(chainTipSeq, chainSeqs, live, chain);
      EvictThenKeep(live, chain, keep);
      ChainsEvict(chainTipSeq, chainSeqs, live, chain);
      ClocksEvict(clockEvents, live, log.next, i);
      HashesEvict(clockSeq, live, log.next, i);
      EvictAscending(live, log.next, i);
      hide ChainsMatch, WellOrdered;
      chainSeqs := chainSeqs[chain := chainSeqs[chain][1..]];
      var ce := clockEvents[at];
      clockSeq := clockSeq - {ce.base.hash};
      referencing := Erase(referencing, at, ce.base.refs);
      RefsEvict(old(referencing), referencing, live, log.next, i);
      clockEvents := clockEvents - {at};
      log := log.(live := Evict(live, i));
    }

    // ---- reads ----

    method EventOf(h: Hash) returns (r: Option<Event>)
      requires Valid()
      ensures r == EventByHash(log.events, h)
    {
      assert EventAt(eventSeq, log.events, h);
      r := if h in eventSeq then Some(events[eventSeq[h]]) else None;
    }

    method ClockEventOf(h: Hash) returns (r: Option<LocalClockEvent>)
      requires Valid()
      ensures r == (var e := ByHash(log.live, h); if e.Some? then Some(e.value.ce) else None)
    {
      assert HashAt(clockSeq, log.live, h);
      if h in clockSeq {
        SeqFinds(log.live, log.next, ByHash(log.live, h).value);
        assert ClockAt(clockEvents, log.live, clockSeq[h]);
        r := Some(clockEvents[clockSeq[h]]);
      } else {
        r := None;
      }
    }

    method SeqOf(h: Hash) returns (r: Option<nat>)
      requires Valid()
      ensures r == (var e := ByHash(log.live, h); if e.Some? then Some(e.value.at) else None)
    {
      assert HashAt(clockSeq, log.live, h);
      r := if h in clockSeq then Some(clockSeq[h]) else None;
    }

    /** A sequence number nothing lives under is the source's out-of-range error. */
    method ClockEventAt(at: nat) returns (r: Option<LocalClockEvent>)
      requires Valid()
      ensures r == (var e := BySeq(log.live, at); if e.Some? then Some(e.value.ce) else None)
    {
      assert ClockAt(clockEvents, log.live, at);
      r := if at in clockEvents then Some(clockEvents[at]) else None;
    }

    /** Ascending, once per mention, exactly the live clock events naming `h`. */
    method ClockEventsReferencing(h: Hash) returns (r: seq<nat>)
      requires Valid()
      ensures r == Referencing(log.live, h) && Sorted(r)
    {
      assert RefAt(referencing, log.live, h);
      ReferencingSorted(log.live, log.next, h);
      r := Sort(Listed(referencing, h));
    }

    /** A tip never dangles: it is the chain's newest live clock event. */
    method Latest(chain: nat) returns (r: Option<LocalClockEvent>)
      requires Valid()
      ensures r == (var e := Tip(log.live, chain); if e.Some? then Some(e.value.ce) else None)
    {
      assert ChainAt(chainTipSeq, chainSeqs, log.live, chain);
      TipSeq(log.live, chain);
      if chain in chainTipSeq {
        var at := chainTipSeq[chain];
        SeqFinds(log.live, log.next, Tip(log.live, chain).value);
        assert ClockAt(clockEvents, log.live, at);
        r := Some(clockEvents[at]);
      } else {
        r := None;
      }
    }

    /** All live clock events, in sequence order whatever was pruned between them. */
    method LoadClockEvents() returns (out: seq<LocalClockEvent>)
      requires Valid()
      ensures out == Records(log.live)
    {
      hide EventsMatch, HashesMatch, RefsMatch, ChainsMatch, BySeq;
      out := [];
      ghost var k := 0;
      for s := 0 to nextClockSeq
        invariant k <= |log.live| && out == Records(log.live[..k])
        invariant forall j :: 0 <= j < k ==> log.live[j].at < s
        invariant forall j :: k <= j < |log.live| ==> s <= log.live[j].at
      {
        assert ClockAt(clockEvents, log.live, s);
        if s in clockEvents {
          assert BySeq(log.live, s).Some?;
          AtPlace(log.live, log.next, k, s);
          assert Front(log.live[..k + 1]) == log.live[..k];
          out := out + [clockEvents[s]];
          k := k + 1;
        } else {
          NotAtPlace(log.live, log.next, k, s);
        }
      }
      assert log.live[..k] == log.live;
    }
  }

  /** Scanning upward, the next live sequence number belongs to the next entry ... */
  lemma AtPlace(live: seq<Entry>, next: nat, k: nat, s: nat)
    requires WellOrdered(live, next) && k <= |live| && BySeq(live, s).Some?
    requires forall j :: 0 <= j < k ==> live[j].at < s
    requires forall j :: k <= j < |live| ==> s <= live[j].at
    ensures k < |live| && live[k] == BySeq(live, s).value && forall j :: k < j < |live| ==> s < live[j].at
  {
    var e := BySeq(live, s).value;
    var j :| 0 <= j < |live| && live[j] == e;
  }

  /** ... and a gap belongs to none. */
  lemma NotAtPlace(live: seq<Entry>, next: nat, k: nat, s: nat)
    requires WellOrdered(live, next) && k <= |live| && BySeq(live, s).None?
    requires forall j :: k <= j < |live| ==> s <= live[j].at
    ensures forall j :: k <= j < |live| ==> s < live[j].at
  {
    forall j | k <= j < |live|
      ensures live[j].at != s
    {
      assert live[j] in live;
    }
  }
}
