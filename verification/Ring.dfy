/** Reads of a log seen through sequence numbers, and what evicting a chain's oldest clock
    event does to each of them. Shared by both store implementations. */
module Ring {
  import opened Domain
  import opened Log

  /** The live sequence numbers of one chain, oldest first. */
  function SeqsOn(live: seq<Entry>, chain: nat): (r: seq<nat>) {
    if live == [] then []
    else SeqsOn(Front(live), chain) + if Last(live).ce.base.chain == chain then [Last(live).at] else []
  }

  /** Ascending sequence numbers of the entries naming `h`, each once. */
  function DupSeqs(live: seq<Entry>, h: Hash): (r: seq<nat>) {
    if live == [] then []
    else DupSeqs(Front(live), h) + if Mentions(Last(live).ce.base.refs, h) then [Last(live).at] else []
  }

  function Records(live: seq<Entry>): (r: seq<LocalClockEvent>)
    ensures |r| == |live| && forall i :: 0 <= i < |live| ==> r[i] == live[i].ce
  {
    if live == [] then [] else Records(Front(live)) + [Last(live).ce]
  }

  function Drop(s: seq<nat>, x: nat): (r: seq<nat>) {
    if s == [] then [] else if Last(s) == x then Drop(Front(s), x) else Drop(Front(s), x) + [Last(s)]
  }

  function Evict(live: seq<Entry>, i: nat): (r: seq<Entry>)
    requires i < |live|
    ensures |r| == |live| - 1
  {
    live[..i] + live[i + 1..]
  }

  /** Where the chain's oldest clock event stands; past the end when the chain is empty. */
  function FirstOn(live: seq<Entry>, chain: nat): (i: nat)
    ensures i <= |live|
    ensures i < |live| ==> live[i].ce.base.chain == chain
    ensures forall j :: 0 <= j < i ==> live[j].ce.base.chain != chain
    ensures i < |live| <==> SeqsOn(live, chain) != []
  {
    if live == [] then 0
    else
      var i := FirstOn(Front(live), chain);
      if i < |live| - 1 || Last(live).ce.base.chain == chain then i else |live|
  }

  // ---------------------------------------------------------------------------
  // splitting
  // ---------------------------------------------------------------------------

  lemma {:induction false} SeqsOnConcat(a: seq<Entry>, b: seq<Entry>, chain: nat)
    ensures SeqsOn(a + b, chain) == SeqsOn(a, chain) + SeqsOn(b, chain)
  {
    if b == [] {
      assert a + b == a;
    } else {
      assert Front(a + b) == a + Front(b);
      SeqsOnConcat(a, Front(b), chain);
    }
  }

  lemma {:induction false} ReferencingConcat(a: seq<Entry>, b: seq<Entry>, h: Hash)
    ensures Referencing(a + b, h) == Referencing(a, h) + Referencing(b, h)
  {
    hide Repeat, CountHash;
    if b == [] {
      assert a + b == a;
    } else {
      assert Front(a + b) == a + Front(b);
      ReferencingConcat(a, Front(b), h);
      var t := Repeat(Last(b).at, CountHash(Last(b).ce.base.refs, h));
      assert Referencing(a + b, h) == (Referencing(a, h) + Referencing(Front(b), h)) + t;
    }
  }

  lemma {:induction false} DupSeqsConcat(a: seq<Entry>, b: seq<Entry>, h: Hash)
    ensures DupSeqs(a + b, h) == DupSeqs(a, h) + DupSeqs(b, h)
  {
    if b == [] {
      assert a + b == a;
    } else {
      assert Front(a + b) == a + Front(b);
      DupSeqsConcat(a, Front(b), h);
    }
  }

  lemma {:induction false} DropConcat(a: seq<nat>, b: seq<nat>, x: nat)
    ensures Drop(a + b, x) == Drop(a, x) + Drop(b, x)
  {
    if b == [] {
      assert a + b == a;
    } else {
      assert Front(a + b) == a + Front(b);
      DropConcat(a, Front(b), x);
    }
  }

  lemma {:induction false} DropAbsent(s: seq<nat>, x: nat)
    requires x !in s
    ensures Drop(s, x) == s
  {
    if s != [] {
      var front, last := Front(s), Last(s);
      assert s == front + [last];
      assert last in s && x !in front;
      DropAbsent(front, x);
      assert Drop(s, x) == Drop(front, x) + [last];
    }
  }

  lemma {:induction false} DropRepeats(x: nat, n: nat)
    ensures Drop(Repeat(x, n), x) == []
  {
    if n > 0 {
      assert Front(Repeat(x, n)) == Repeat(x, n - 1);
      DropRepeats(x, n - 1);
    }
  }

  lemma DropOne(m: seq<nat>, x: nat)
    requires m == [] || m == [x]
    ensures Drop(m, x) == []
  {
    assert m != [] ==> Front(m) == [];
  }

  lemma DropMiddle(a: seq<nat>, m: seq<nat>, b: seq<nat>, x: nat)
    requires x !in a && x !in b && Drop(m, x) == []
    ensures Drop(a + (m + b), x) == a + b
  {
    hide Drop;
    DropConcat(a, m + b, x);
    DropConcat(m, b, x);
    DropAbsent(a, x);
    DropAbsent(b, x);
  }

  lemma {:induction false} ReferencingMembers(live: seq<Entry>, h: Hash, s: nat)
    requires s in Referencing(live, h)
    ensures exists e :: e in live && e.at == s && Mentions(e.ce.base.refs, h)
  {
    if s in Referencing(Front(live), h) {
      ReferencingMembers(Front(live), h, s);
    } else {
      assert Last(live).at == s;
    }
  }

  lemma {:induction false} DupSeqsMembers(live: seq<Entry>, h: Hash, s: nat)
    requires s in DupSeqs(live, h)
    ensures exists e :: e in live && e.at == s && Mentions(e.ce.base.refs, h)
  {
    if s in DupSeqs(Front(live), h) {
      DupSeqsMembers(Front(live), h, s);
    }
  }

  lemma {:induction false} SeqsOnMembers(live: seq<Entry>, chain: nat, s: nat)
    requires s in SeqsOn(live, chain)
    ensures exists e :: e in live && e.at == s && e.ce.base.chain == chain
  {
    if s in SeqsOn(Front(live), chain) {
      SeqsOnMembers(Front(live), chain, s);
    }
  }

  /** A chain's tip is the last of its sequence numbers. */
  lemma {:induction false} TipSeq(live: seq<Entry>, chain: nat)
    ensures Tip(live, chain).Some? <==> SeqsOn(live, chain) != []
    ensures Tip(live, chain).Some? ==> Tip(live, chain).value.at == Last(SeqsOn(live, chain))
  {
    if live != [] {
      TipSeq(Front(live), chain);
    }
  }

  // ---------------------------------------------------------------------------
  // unique lookups
  // ---------------------------------------------------------------------------

  lemma SeqFinds(live: seq<Entry>, next: nat, e: Entry)
    requires Ascending(live, next) && e in live
    ensures BySeq(live, e.at) == Some(e)
  {
  }

  lemma HashFinds(live: seq<Entry>, next: nat, e: Entry)
    requires Ascending(live, next) && DistinctHashes(live) && e in live
    ensures ByHash(live, e.ce.base.hash) == Some(e)
  {
    var f := ByHash(live, e.ce.base.hash);
    assert f.Some? && f.value.at == e.at;
    SeqFinds(live, next, e);
    SeqFinds(live, next, f.value);
  }

  // ---------------------------------------------------------------------------
  // evicting the oldest of a chain
  // ---------------------------------------------------------------------------

  lemma EvictParts(live: seq<Entry>, i: nat)
    requires i < |live|
    ensures live == live[..i] + ([live[i]] + live[i + 1..])
    ensures forall e :: e in Evict(live, i) ==> e in live
    ensures forall e :: e in live && e != live[i] ==> e in Evict(live, i)
  {
  }

  lemma EvictOrder(live: seq<Entry>, next: nat, i: nat)
    requires Ascending(live, next) && i < |live|
    ensures Ascending(Evict(live, i), next)
    ensures forall e :: e in Evict(live, i) ==> e.at != live[i].at
  {
    var r := Evict(live, i);
    assert forall j :: 0 <= j < |r| ==> r[j] == live[if j < i then j else j + 1];
  }

  lemma EvictAscending(live: seq<Entry>, next: nat, i: nat)
    requires Ascending(live, next) && DistinctHashes(live) && i < |live|
    ensures Ascending(Evict(live, i), next) && DistinctHashes(Evict(live, i))
    ensures forall e :: e in Evict(live, i) ==> e.at != live[i].at
  {
    EvictOrder(live, next, i);
    EvictParts(live, i);
  }

  lemma EvictBySeq(live: seq<Entry>, next: nat, i: nat, s: nat)
    requires Ascending(live, next) && DistinctHashes(live) && i < |live|
    ensures BySeq(Evict(live, i), s) == if s == live[i].at then None else BySeq(live, s)
  {
    EvictParts(live, i);
    EvictAscending(live, next, i);
    var r := BySeq(live, s);
    if r.Some? && s != live[i].at {
      SeqFinds(Evict(live, i), next, r.value);
    }
  }

  lemma EvictByHash(live: seq<Entry>, next: nat, i: nat, h: Hash)
    requires Ascending(live, next) && DistinctHashes(live) && i < |live|
    ensures ByHash(Evict(live, i), h) == if h == live[i].ce.base.hash then None else ByHash(live, h)
  {
    EvictParts(live, i);
    EvictAscending(live, next, i);
    var r := ByHash(live, h);
    if r.Some? && h != live[i].ce.base.hash {
      HashFinds(Evict(live, i), next, r.value);
    }
  }

  lemma SeqElsewhere(live: seq<Entry>, next: nat, i: nat, h: Hash)
    requires Ascending(live, next) && i < |live|
    ensures live[i].at !in Referencing(live[..i], h) && live[i].at !in Referencing(live[i + 1..], h)
    ensures live[i].at !in DupSeqs(live[..i], h) && live[i].at !in DupSeqs(live[i + 1..], h)
  {
    var a, s, b := live[..i], live[i].at, live[i + 1..];
    assert forall e :: e in a || e in b ==> e.at != s;
    hide Ascending, Referencing, DupSeqs;
    if s in Referencing(a, h) {
      ReferencingMembers(a, h, s);
    }
    if s in Referencing(b, h) {
      ReferencingMembers(b, h, s);
    }
    if s in DupSeqs(a, h) {
      DupSeqsMembers(a, h, s);
    }
    if s in DupSeqs(b, h) {
      DupSeqsMembers(b, h, s);
    }
  }

  lemma ReferencingSplit(live: seq<Entry>, i: nat, h: Hash)
    requires i < |live|
    ensures Referencing(live, h) ==
      Referencing(live[..i], h) + (Repeat(live[i].at, CountHash(live[i].ce.base.refs, h)) + Referencing(live[i + 1..], h))
    ensures Referencing(Evict(live, i), h) == Referencing(live[..i], h) + Referencing(live[i + 1..], h)
  {
    var a, e, b := live[..i], live[i], live[i + 1..];
    EvictParts(live, i);
    ReferencingConcat(a, [e] + b, h);
    ReferencingConcat([e], b, h);
    ReferencingConcat(a, b, h);
    assert Referencing([e], h) == Repeat(e.at, CountHash(e.ce.base.refs, h)) by {
      assert Front([e]) == [];
    }
  }

  lemma EvictReferencing(live: seq<Entry>, next: nat, i: nat, h: Hash)
    requires Ascending(live, next) && i < |live|
    ensures Referencing(Evict(live, i), h) == Drop(Referencing(live, h), live[i].at)
    ensures !Mentions(live[i].ce.base.refs, h) ==> Referencing(Evict(live, i), h) == Referencing(live, h)
  {
    hide Referencing, Ascending, Evict, CountHash, Repeat, Drop;
    var a, e, b := live[..i], live[i], live[i + 1..];
    var n := CountHash(e.ce.base.refs, h);
    ReferencingSplit(live, i, h);
    SeqElsewhere(live, next, i, h);
    DropRepeats(e.at, n);
    DropMiddle(Referencing(a, h), Repeat(e.at, n), Referencing(b, h), e.at);
  }

  lemma DupSeqsSplit(live: seq<Entry>, i: nat, h: Hash)
    requires i < |live|
    ensures DupSeqs(live, h) == DupSeqs(live[..i], h) + ((if Mentions(live[i].ce.base.refs, h) then [live[i].at] else []) + DupSeqs(live[i + 1..], h))
    ensures DupSeqs(Evict(live, i), h) == DupSeqs(live[..i], h) + DupSeqs(live[i + 1..], h)
  {
    var a, e, b := live[..i], live[i], live[i + 1..];
    EvictParts(live, i);
    DupSeqsConcat(a, [e] + b, h);
    DupSeqsConcat([e], b, h);
    DupSeqsConcat(a, b, h);
    assert DupSeqs([e], h) == (if Mentions(e.ce.base.refs, h) then [e.at] else []) by {
      assert Front([e]) == [];
    }
  }

  lemma EvictDupSeqs(live: seq<Entry>, next: nat, i: nat, h: Hash)
    requires Ascending(live, next) && i < |live|
    ensures DupSeqs(Evict(live, i), h) == Drop(DupSeqs(live, h), live[i].at)
    ensures !Mentions(live[i].ce.base.refs, h) ==> DupSeqs(Evict(live, i), h) == DupSeqs(live, h)
  {
    hide DupSeqs, Ascending, Evict, Mentions;
    var a, e, b := live[..i], live[i], live[i + 1..];
    var m := if Mentions(e.ce.base.refs, h) then [e.at] else [];
    DupSeqsSplit(live, i, h);
    SeqElsewhere(live, next, i, h);
    DropOne(m, e.at);
    hide Drop;
    DropMiddle(DupSeqs(a, h), m, DupSeqs(b, h), e.at);
  }

  /** The evicted entry was the first of its chain's sequence numbers, and of no other's. */
  lemma EvictSeqsOn(live: seq<Entry>, chain: nat, other: nat)
    requires FirstOn(live, chain) < |live|
    ensures var i := FirstOn(live, chain);
      && SeqsOn(live, chain) == [live[i].at] + SeqsOn(Evict(live, i), chain)
      && (other != chain ==> SeqsOn(Evict(live, i), other) == SeqsOn(live, other))
  {
    hide SeqsOn, Evict, FirstOn;
    var i := FirstOn(live, chain);
    NoneBefore(live, chain);
    SeqsOnSplit(live, i, chain);
    SeqsOnSplit(live, i, other);
  }

  lemma NoneBefore(live: seq<Entry>, chain: nat)
    ensures SeqsOn(live[..FirstOn(live, chain)], chain) == []
  {
    hide FirstOn;
    var before := live[..FirstOn(live, chain)];
    if SeqsOn(before, chain) != [] {
      SeqsOnMembers(before, chain, SeqsOn(before, chain)[0]);
    }
  }

  lemma SeqsOnSplit(live: seq<Entry>, i: nat, c: nat)
    requires i < |live|
    ensures SeqsOn(live, c) == SeqsOn(live[..i], c) + (if live[i].ce.base.chain == c then [live[i].at] else []) + SeqsOn(live[i + 1..], c)
    ensures SeqsOn(Evict(live, i), c) == SeqsOn(live[..i], c) + SeqsOn(live[i + 1..], c)
  {
    var a, e, b := live[..i], live[i], live[i + 1..];
    EvictParts(live, i);
    SeqsOnConcat(a, [e] + b, c);
    SeqsOnConcat([e], b, c);
    SeqsOnConcat(a, b, c);
    assert SeqsOn([e], c) == (if e.ce.base.chain == c then [e.at] else []) by {
      assert Front([e]) == [];
    }
  }

  // ---------------------------------------------------------------------------
  // ring pruning is repeated eviction
  // ---------------------------------------------------------------------------

  lemma {:induction false} KeepAll(live: seq<Entry>, chain: nat, keep: nat)
    requires |SeqsOn(live, chain)| <= keep
    ensures KeepNewest(live, chain, keep) == live
  {
    if live != [] {
      KeepAll(Front(live), chain, if Last(live).ce.base.chain == chain then keep - 1 else keep);
    }
  }

  lemma EvictFront(live: seq<Entry>, i: nat)
    requires i < |live| - 1
    ensures Evict(live, i) == Evict(Front(live), i) + [Last(live)]
    ensures Front(Evict(live, i)) == Evict(Front(live), i) && Last(Evict(live, i)) == Last(live)
  {
  }

  /** Evicting the oldest of an overfull chain does not change what the ring keeps. */
  lemma {:induction false} EvictThenKeep(live: seq<Entry>, chain: nat, keep: nat)
    requires |SeqsOn(live, chain)| > keep
    ensures FirstOn(live, chain) < |live|
    ensures KeepNewest(Evict(live, FirstOn(live, chain)), chain, keep) == KeepNewest(live, chain, keep)
  {
    var i, front, last := FirstOn(live, chain), Front(live), Last(live);
    if i == |live| - 1 {
      assert SeqsOn(front, chain) == [];
      assert Evict(live, i) == front;
    } else {
      var on := last.ce.base.chain == chain;
      assert FirstOn(front, chain) == i;
      EvictThenKeep(front, chain, if on && keep > 0 then keep - 1 else keep);
      EvictFront(live, i);
    }
  }

  /** The newest entry of the log survives any pruning that keeps something. */
  lemma LastSurvives(live: seq<Entry>, chain: nat, keep: nat)
    requires live != [] && keep > 0
    ensures KeepNewest(live, chain, keep) != [] && Last(KeepNewest(live, chain, keep)) == Last(live)
  {
  }
}
