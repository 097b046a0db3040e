/** The durable store: sub-databases kept in key order, changed only by committed
    transactions, beside counters and per-chain trackers that live in memory. */
module DiskStore {
  import opened Domain
  import opened Log
  import opened Ring
  import MemoryStore

  const FORMAT_VERSION: nat := 4

  datatype EventRec = EventRec(at: nat, event: Event)

  /** The sub-databases. `events` and `clocks` are in ascending key order; `refs` holds, per
      referenced hash, its sorted duplicate values. `version` is absent in a fresh file. */
  datatype Disk = Disk(version: Option<nat>, events: seq<EventRec>, eventIndex: map<Hash, nat>, clocks: seq<Entry>,
                       clockIndex: map<Hash, nat>, refs: map<Hash, seq<nat>>,
                       neighbors: map<NodeId, Neighbor>, routes: map<NodeId, NodeId>)

  // ---------------------------------------------------------------------------
  // sub-database primitives
  // ---------------------------------------------------------------------------

  /** Insert or overwrite at the key's place. */
  function PutEvent(t: seq<EventRec>, at: nat, e: Event): (r: seq<EventRec>) {
    if t == [] || Last(t).at < at then t + [EventRec(at, e)]
    else if Last(t).at == at then Front(t) + [EventRec(at, e)]
    else PutEvent(Front(t), at, e) + [Last(t)]
  }

  function PutClock(t: seq<Entry>, at: nat, c: LocalClockEvent): (r: seq<Entry>) {
    if t == [] || Last(t).at < at then t + [Entry(at, c)]
    else if Last(t).at == at then Front(t) + [Entry(at, c)]
    else PutClock(Front(t), at, c) + [Last(t)]
  }

  /** Insert into a sorted duplicate list, unless the value is there. */
  function PutDup(s: seq<nat>, x: nat): (r: seq<nat>) {
    if s == [] || Last(s) < x then s + [x]
    else if Last(s) == x then s
    else PutDup(Front(s), x) + [Last(s)]
  }

  /** One past the greatest key. */
  function NextEvent(t: seq<EventRec>): nat {
    if t == [] then 0 else Last(t).at + 1
  }

  function NextClock(t: seq<Entry>): nat {
    if t == [] then 0 else Last(t).at + 1
  }

  /** Where a key's record stands; past the end when there is none. */
  function PlaceOf(t: seq<Entry>, at: nat): (i: nat)
    ensures i <= |t| && (i < |t| ==> t[i].at == at) && forall j :: 0 <= j < i ==> t[j].at != at
  {
    if t == [] then 0
    else
      var i := PlaceOf(Front(t), at);
      if i < |t| - 1 || Last(t).at == at then i else |t|
  }

  // ---------------------------------------------------------------------------
  // consistent disks
  // ---------------------------------------------------------------------------

  ghost predicate Dense(t: seq<EventRec>) {
    forall i :: 0 <= i < |t| ==> t[i].at == i
  }

  /** The index names the newest event stored under a hash. */
  ghost predicate IndexedAt(index: map<Hash, nat>, t: seq<EventRec>, h: Hash) {
    && (h !in index ==> forall i :: 0 <= i < |t| ==> t[i].event.hash != h)
    && (h in index ==> index[h] < |t| && t[index[h]].event.hash == h && forall i :: index[h] < i < |t| ==> t[i].event.hash != h)
  }

  ghost predicate NewestAt(t: seq<EventRec>, i: int, h: Hash) {
    0 <= i < |t| && t[i].event.hash == h && forall j :: i < j < |t| ==> t[j].event.hash != h
  }

  ghost predicate OldestAt(t: seq<EventRec>, i: int, h: Hash) {
    0 <= i < |t| && t[i].event.hash == h && forall j :: 0 <= j < i ==> t[j].event.hash != h
  }

  /** The newest event stored under the hash. */
  function NewestByHash(t: seq<EventRec>, h: Hash): (r: Option<Event>) {
    if t == [] then None
    else if Last(t).event.hash == h then Some(Last(t).event)
    else NewestByHash(Front(t), h)
  }

  lemma {:induction false} NewestIs(t: seq<EventRec>, h: Hash, i: int)
    requires NewestAt(t, i, h)
    ensures NewestByHash(t, h) == Some(t[i].event)
  {
    if Last(t).event.hash != h {
      NewestIs(Front(t), h, i);
    }
  }

  lemma {:induction false} NoneStored(t: seq<EventRec>, h: Hash)
    requires forall i :: 0 <= i < |t| ==> t[i].event.hash != h
    ensures NewestByHash(t, h) == None && EventByHash(Stripped(t), h) == None
  {
    if t != [] {
      NoneStored(Front(t), h);
      assert Front(Stripped(t)) == Stripped(Front(t));
    }
  }

  function Stripped(t: seq<EventRec>): (r: seq<Event>)
    ensures |r| == |t| && forall i :: 0 <= i < |t| ==> r[i] == t[i].event
  {
    if t == [] then [] else Stripped(Front(t)) + [Last(t).event]
  }

  lemma {:induction false} OldestIs(t: seq<EventRec>, h: Hash, i: int)
    requires OldestAt(t, i, h)
    ensures EventByHash(Stripped(t), h) == Some(t[i].event)
  {
    assert Front(Stripped(t)) == Stripped(Front(t));
    if i < |t| - 1 {
      OldestIs(Front(t), h, i);
    } else {
      NoneStored(Front(t), h);
    }
  }

  /** Reading an event back by hash, the in-memory store returns the oldest stored under it and
      the durable store the newest: where the first is at `i` and the last at `j`, the two reads
      agree exactly when the events there are equal. */
  lemma EventReadsAgree(t: seq<EventRec>, h: Hash, i: int, j: int)
    requires OldestAt(t, i, h) && NewestAt(t, j, h)
    ensures EventByHash(Stripped(t), h) == Some(t[i].event) && NewestByHash(t, h) == Some(t[j].event)
    ensures EventByHash(Stripped(t), h) == NewestByHash(t, h) <==> t[i].event == t[j].event
  {
    OldestIs(t, h, i);
    NewestIs(t, h, j);
  }

  /** No hash is stored twice. */
  ghost predicate Unrepeated(t: seq<EventRec>) {
    forall i, j :: 0 <= i < j < |t| ==> t[i].event.hash != t[j].event.hash
  }

  lemma EventReadsAgreeOnUnrepeated(t: seq<EventRec>, h: Hash)
    requires Unrepeated(t)
    ensures EventByHash(Stripped(t), h) == NewestByHash(t, h)
  {
    if i :| 0 <= i < |t| && t[i].event.hash == h {
      EventReadsAgree(t, h, i, i);
    } else {
      NoneStored(t, h);
    }
  }

  ghost predicate EventsOk(t: seq<EventRec>, index: map<Hash, nat>) {
    Dense(t) && forall h :: IndexedAt(index, t, h)
  }

  ghost predicate DupAt(refs: map<Hash, seq<nat>>, clocks: seq<Entry>, h: Hash) {
    MemoryStore.Listed(refs, h) == DupSeqs(clocks, h)
  }

  ghost predicate DupsMatch(refs: map<Hash, seq<nat>>, clocks: seq<Entry>) {
    forall h :: DupAt(refs, clocks, h)
  }

  ghost predicate ClocksOk(clocks: seq<Entry>, index: map<Hash, nat>) {
    MemoryStore.WellOrdered(clocks, NextClock(clocks)) && MemoryStore.HashesMatch(index, clocks)
  }

  ghost predicate DiskOk(d: Disk) {
    EventsOk(d.events, d.eventIndex) && ClocksOk(d.clocks, d.clockIndex) && DupsMatch(d.refs, d.clocks)
  }

  /** The in-memory trackers hold one entry per chain with live clock events. */
  ghost predicate ChainAt(tips: map<nat, nat>, seqs: map<nat, seq<nat>>, on: seq<nat>, c: nat) {
    && (c in tips <==> on != []) && (c in seqs <==> on != [])
    && (c in tips ==> tips[c] == Last(on)) && (c in seqs ==> seqs[c] == on)
  }

  ghost predicate Tracks(tips: map<nat, nat>, seqs: map<nat, seq<nat>>, clocks: seq<Entry>) {
    forall c :: ChainAt(tips, seqs, SeqsOn(clocks, c), c)
  }

  /** The trackers are a function of what is stored. */
  lemma TrackersDetermined(tips: map<nat, nat>, seqs: map<nat, seq<nat>>, tips': map<nat, nat>, seqs': map<nat, seq<nat>>, clocks: seq<Entry>)
    requires Tracks(tips, seqs, clocks) && Tracks(tips', seqs', clocks)
    ensures tips == tips' && seqs == seqs'
  {
    forall c: nat
      ensures c in tips <==> c in tips'
      ensures c in seqs <==> c in seqs'
      ensures c in tips ==> tips[c] == tips'[c]
      ensures c in seqs ==> seqs[c] == seqs'[c]
    {
      assert ChainAt(tips, seqs, SeqsOn(clocks, c), c) && ChainAt(tips', seqs', SeqsOn(clocks, c), c);
    }
  }

  // ---------------------------------------------------------------------------
  // appending
  // ---------------------------------------------------------------------------

  lemma EventAppendOk(t: seq<EventRec>, index: map<Hash, nat>, at: nat, e: Event)
    requires EventsOk(t, index) && at == NextEvent(t)
    ensures at == |t| && PutEvent(t, at, e) == t + [EventRec(at, e)]
    ensures EventsOk(t + [EventRec(at, e)], index[e.hash := at])
  {
    var t', index' := t + [EventRec(at, e)], index[e.hash := at];
    forall h
      ensures IndexedAt(index', t', h)
    {
      assert IndexedAt(index, t, h);
    }
  }

  lemma ClockAppendOk(clocks: seq<Entry>, index: map<Hash, nat>, at: nat, c: LocalClockEvent)
    requires ClocksOk(clocks, index) && at == NextClock(clocks) && ByHash(clocks, c.base.hash).None?
    ensures PutClock(clocks, at, c) == clocks + [Entry(at, c)]
    ensures ClocksOk(clocks + [Entry(at, c)], index[c.base.hash := at])
  {
    hide MemoryStore.HashesMatch, MemoryStore.WellOrdered;
    MemoryStore.HashesAppend(index, clocks, Entry(at, c));
    MemoryStore.OrderAppend(clocks, at, Entry(at, c));
  }

  /** `refs'` is `refs` with `at` stored under every hash that `done` names. */
  ghost predicate Stored(refs: map<Hash, seq<nat>>, refs': map<Hash, seq<nat>>, at: nat, done: seq<EventReference>, h: Hash) {
    MemoryStore.Listed(refs', h) == MemoryStore.Listed(refs, h) + if Mentions(done, h) then [at] else []
  }

  ghost predicate Below(refs: map<Hash, seq<nat>>, at: nat, h: Hash) {
    forall i :: 0 <= i < |MemoryStore.Listed(refs, h)| ==> MemoryStore.Listed(refs, h)[i] < at
  }

  method StoreRefs(refs: map<Hash, seq<nat>>, at: nat, names: seq<EventReference>) returns (r: map<Hash, seq<nat>>)
    requires forall h :: Below(refs, at, h)
    ensures forall h :: Stored(refs, r, at, names, h)
  {
    r := refs;
    for i := 0 to |names|
      invariant forall h :: Stored(refs, r, at, names[..i], h)
    {
      ghost var was := r;
      r := r[names[i].hash := PutDup(MemoryStore.Listed(r, names[i].hash), at)];
      assert Front(names[..i + 1]) == names[..i];
      StoreStep(refs, was, r, at, names[..i + 1]);
    }
    assert names[..|names|] == names;
  }

  lemma StoreStep(refs: map<Hash, seq<nat>>, was: map<Hash, seq<nat>>, r: map<Hash, seq<nat>>, at: nat, done: seq<EventReference>)
    requires done != [] && (forall h :: Below(refs, at, h)) && forall h :: Stored(refs, was, at, Front(done), h)
    requires r == was[Last(done).hash := PutDup(MemoryStore.Listed(was, Last(done).hash), at)]
    ensures forall h :: Stored(refs, r, at, done, h)
  {
    forall h
      ensures Stored(refs, r, at, done, h)
    {
      assert Stored(refs, was, at, Front(done), h) && Below(refs, at, h);
      MemoryStore.MentionsMore(done, h);
    }
  }

  lemma {:induction false} DupsBelow(clocks: seq<Entry>, next: nat, h: Hash)
    requires Ascending(clocks, next)
    ensures forall i :: 0 <= i < |DupSeqs(clocks, h)| ==> DupSeqs(clocks, h)[i] < next
  {
    forall i | 0 <= i < |DupSeqs(clocks, h)|
      ensures DupSeqs(clocks, h)[i] < next
    {
      DupSeqsMembers(clocks, h, DupSeqs(clocks, h)[i]);
    }
  }

  lemma AllBelow(refs: map<Hash, seq<nat>>, clocks: seq<Entry>, next: nat)
    requires DupsMatch(refs, clocks) && MemoryStore.WellOrdered(clocks, next)
    ensures forall h :: Below(refs, next, h)
  {
    forall h
      ensures Below(refs, next, h)
    {
      assert DupAt(refs, clocks, h);
      DupsBelow(clocks, next, h);
    }
  }

  lemma DupsAppend(refs: map<Hash, seq<nat>>, refs': map<Hash, seq<nat>>, clocks: seq<Entry>, e: Entry)
    requires DupsMatch(refs, clocks) && forall h :: Stored(refs, refs', e.at, e.ce.base.refs, h)
    ensures DupsMatch(refs', clocks + [e])
  {
    var clocks' := clocks + [e];
    assert Front(clocks') == clocks;
    forall h
      ensures DupAt(refs', clocks', h)
    {
      assert DupAt(refs, clocks, h) && Stored(refs, refs', e.at, e.ce.base.refs, h);
    }
  }

  // ---------------------------------------------------------------------------
  // updating
  // ---------------------------------------------------------------------------

  lemma UpdateElsewhere(clocks: seq<Entry>, c: LocalClockEvent)
    requires forall e :: e in clocks ==> e.ce.base.hash != c.base.hash
    ensures Update(clocks, c) == clocks
  {
    forall i | 0 <= i < |clocks|
      ensures Update(clocks, c)[i] == clocks[i]
    {
      assert clocks[i] in clocks;
    }
  }

  /** Overwriting a record under its own key is an update of the log. */
  lemma {:induction false} PutIsUpdate(clocks: seq<Entry>, next: nat, target: Entry, c: LocalClockEvent)
    requires MemoryStore.WellOrdered(clocks, next) && target in clocks && target.ce.base.hash == c.base.hash
    ensures PutClock(clocks, target.at, c) == Update(clocks, c)
  {
    var front, last := Front(clocks), Last(clocks);
    assert clocks == front + [last];
    assert last in clocks;
    if last.at == target.at {
      assert forall e :: e in front ==> e in clocks && e.at < last.at;
      assert target == last;
      UpdateElsewhere(front, c);
    } else {
      assert last.ce.base.hash != c.base.hash && last.at > target.at;
      assert MemoryStore.WellOrdered(front, last.at);
      hide MemoryStore.WellOrdered;
      PutIsUpdate(front, last.at, target, c);
    }
  }

  lemma {:induction false} UpdateKeepsDups(clocks: seq<Entry>, c: LocalClockEvent, h: Hash)
    requires MemoryStore.SameRecord(clocks, c)
    ensures DupSeqs(Update(clocks, c), h) == DupSeqs(clocks, h)
  {
    if clocks != [] {
      assert clocks == Front(clocks) + [Last(clocks)];
      assert Last(clocks) in clocks;
      UpdateKeepsDups(Front(clocks), c, h);
      assert Front(Update(clocks, c)) == Update(Front(clocks), c);
    }
  }

  lemma UpdateOk(d: Disk, c: LocalClockEvent)
    requires DiskOk(d) && MemoryStore.SameRecord(d.clocks, c)
    ensures DiskOk(d.(clocks := Update(d.clocks, c)))
    ensures NextClock(Update(d.clocks, c)) == NextClock(d.clocks)
    ensures forall k :: SeqsOn(Update(d.clocks, c), k) == SeqsOn(d.clocks, k)
  {
    var u := Update(d.clocks, c);
    hide MemoryStore.HashesMatch, MemoryStore.WellOrdered, MemoryStore.SameRecord, EventsOk;
    MemoryStore.UpdateSameBases(d.clocks, c);
    MemoryStore.SameBasesOrdered(d.clocks, u, NextClock(d.clocks));
    MemoryStore.HashesUpdate(d.clockIndex, d.clocks, u, NextClock(d.clocks));
    forall h
      ensures DupAt(d.refs, u, h)
    {
      assert DupAt(d.refs, d.clocks, h);
      UpdateKeepsDups(d.clocks, c, h);
    }
    forall k
      ensures SeqsOn(u, k) == SeqsOn(d.clocks, k)
    {
      MemoryStore.UpdateKeepsIndices(d.clocks, c, k, []);
    }
  }

  // ---------------------------------------------------------------------------
  // evicting
  // ---------------------------------------------------------------------------

  lemma ClockEvictOk(clocks: seq<Entry>, index: map<Hash, nat>, i: nat)
    requires ClocksOk(clocks, index) && i < |clocks| - 1
    ensures NextClock(Evict(clocks, i)) == NextClock(clocks)
    ensures ClocksOk(Evict(clocks, i), index - {clocks[i].ce.base.hash})
  {
    hide MemoryStore.HashesMatch;
    EvictAscending(clocks, NextClock(clocks), i);
    MemoryStore.HashesEvict(index, clocks, NextClock(clocks), i);
  }

  lemma DupsEvict(refs: map<Hash, seq<nat>>, refs': map<Hash, seq<nat>>, clocks: seq<Entry>, next: nat, i: nat)
    requires DupsMatch(refs, clocks) && MemoryStore.WellOrdered(clocks, next) && i < |clocks|
    requires forall h :: MemoryStore.Erased(refs, refs', clocks[i].at, clocks[i].ce.base.refs, h)
    ensures DupsMatch(refs', Evict(clocks, i))
  {
    var clocks' := Evict(clocks, i);
    forall h
      ensures DupAt(refs', clocks', h)
    {
      assert DupAt(refs, clocks, h) && MemoryStore.Erased(refs, refs', clocks[i].at, clocks[i].ce.base.refs, h);
      EvictDupSeqs(clocks, next, i, h);
    }
  }

  lemma SeqsPlaced(clocks: seq<Entry>, chain: nat)
    requires |SeqsOn(clocks, chain)| > 1 && Ascending(clocks, NextClock(clocks))
    ensures var i := FirstOn(clocks, chain); i < |clocks| - 1 && PlaceOf(clocks, SeqsOn(clocks, chain)[0]) == i
  {
    EvictSeqsOn(clocks, chain, chain);
  }

  // ---------------------------------------------------------------------------
  // the store
  // ---------------------------------------------------------------------------

  class LmdbStore {
    var disk: Disk
    var nextEventSeq: nat
    var nextClockSeq: nat
    var chainTipSeq: map<nat, nat>
    var chainSeqs: map<nat, seq<nat>>

    /** What is in memory is exactly what reopening would rebuild. */
    ghost predicate Valid()
      reads this
    {
      && DiskOk(disk) && disk.version == Some(FORMAT_VERSION)
      && nextEventSeq == NextEvent(disk.events)
      && nextClockSeq == NextClock(disk.clocks)
      && Tracks(chainTipSeq, chainSeqs, disk.clocks)
    }

    /** Open a store file: stamp a fresh one, migrate format 1 by rebuilding the reverse index,
        then seed the counters and trackers from the records. */
    constructor Open(d: Disk)
      requires EventsOk(d.events, d.eventIndex) && ClocksOk(d.clocks, d.clockIndex)
      requires Supported(d.version)
      requires if d.version == Some(1) then d.refs == map[] else DupsMatch(d.refs, d.clocks)
      ensures Valid()
      ensures disk == d.(version := Some(FORMAT_VERSION), refs := disk.refs)
      ensures d.version != Some(1) ==> disk.refs == d.refs
    {
      var refs := d.refs;
      if d.version == Some(1) {
        refs := RebuildRefs(d.clocks);
      }
      disk := d.(version := Some(FORMAT_VERSION), refs := refs);
      nextEventSeq := NextEvent(d.events);
      nextClockSeq := NextClock(d.clocks);
      var tips, seqs := SeedChainTips(d.clocks);
      chainTipSeq, chainSeqs := tips, seqs;
    }

    /** Closing and reopening rebuilds exactly the counters, tips and live sequences held. */
    method Reopen() returns (s: LmdbStore)
      requires Valid()
      ensures fresh(s) && s.Valid() && s.disk == disk
      ensures s.nextEventSeq == nextEventSeq && s.nextClockSeq == nextClockSeq
      ensures s.chainTipSeq == chainTipSeq && s.chainSeqs == chainSeqs
    {
      s := new LmdbStore.Open(disk);
      TrackersDetermined(s.chainTipSeq, s.chainSeqs, chainTipSeq, chainSeqs, disk.clocks);
    }

    method AddEvent(e: Event, attempts: nat) returns (at: nat)
      requires Valid()
      modifies this
      ensures Valid() && at == old(nextEventSeq) && nextEventSeq == at + 1
      ensures disk == EventStored(old(disk), at, e) && nextClockSeq == old(nextClockSeq)
    {
      hide DiskOk, Tracks;
      for i := 0 to attempts
        invariant Valid() && unchanged(this)
      {
        var failed := new Batch.Begin(this);
        at := failed.AddEvent(e);
        var _ := failed.Commit(true);
      }
      var b := new Batch.Begin(this);
      at := b.AddEvent(e);
      var _ := b.Commit(false);
    }

    /** A single-record write is its own transaction, retried after growing the map for as long
        as it does not fit: the failed attempts leave no trace and consume no sequence number. */
    method AddClockEvent(c: LocalClockEvent, attempts: nat) returns (at: nat)
      requires Valid() && ByHash(disk.clocks, c.base.hash).None?
      modifies this
      ensures Valid() && at == old(nextClockSeq) && nextClockSeq == at + 1
      ensures disk == ClockStored(old(disk), at, c, disk.refs) && nextEventSeq == old(nextEventSeq)
    {
      hide DiskOk, Tracks, ByHash;
      for i := 0 to attempts
        invariant Valid() && unchanged(this)
      {
        var failed := new Batch.Begin(this);
        at := failed.AddClockEvent(c);
        var _ := failed.Commit(true);
      }
      var b := new Batch.Begin(this);
      at := b.AddClockEvent(c);
      var _ := b.Commit(false);
      LastIsNext(disk.clocks);
    }

    /** Absent, or the newest event stored under the hash. */
    method EventOf(h: Hash) returns (r: Option<Event>)
      requires Valid()
      ensures r == NewestByHash(disk.events, h)
    {
      assert IndexedAt(disk.eventIndex, disk.events, h);
      if h !in disk.eventIndex {
        NoneStored(disk.events, h);
        return None;
      }
      var i := disk.eventIndex[h];
      NewestIs(disk.events, h, i);
      r := Some(disk.events[i].event);
    }

    method ClockEventOf(h: Hash) returns (r: Option<LocalClockEvent>)
      requires Valid()
      ensures r == (var e := ByHash(disk.clocks, h); if e.Some? then Some(e.value.ce) else None)
    {
      MemoryStore.HashKnown(disk.clockIndex, disk.clocks, h);
      if h !in disk.clockIndex {
        return None;
      }
      FoundAtPlace(disk.clocks, ByHash(disk.clocks, h).value);
      r := Some(disk.clocks[PlaceOf(disk.clocks, disk.clockIndex[h])].ce);
    }

    /** Ascending, each once, exactly the live clock events naming `h`. */
    method ClockEventsReferencing(h: Hash) returns (r: seq<nat>)
      requires Valid()
      ensures r == DupSeqs(disk.clocks, h)
    {
      assert DupAt(disk.refs, disk.clocks, h);
      r := MemoryStore.Listed(disk.refs, h);
    }

    method Latest(chain: nat) returns (r: Option<LocalClockEvent>)
      requires Valid()
      ensures r == (var e := Tip(disk.clocks, chain); if e.Some? then Some(e.value.ce) else None)
    {
      assert ChainAt(chainTipSeq, chainSeqs, SeqsOn(disk.clocks, chain), chain);
      TipSeq(disk.clocks, chain);
      if chain !in chainTipSeq {
        return None;
      }
      FoundAtPlace(disk.clocks, Tip(disk.clocks, chain).value);
      r := Some(disk.clocks[PlaceOf(disk.clocks, chainTipSeq[chain])].ce);
    }

    /** Prune in one transaction; the trackers are trimmed only once it is committed. */
    method PruneChain(chain: nat, keep: nat, fails: bool) returns (ok: bool)
      requires Valid()
      modifies this
      ensures Valid() && disk == old(disk).(clocks := disk.clocks, clockIndex := disk.clockIndex, refs := disk.refs)
      ensures nextEventSeq == old(nextEventSeq) && nextClockSeq == old(nextClockSeq)
      ensures !ok ==> fails && disk == old(disk)
      ensures ok ==> disk.clocks == Pruned(old(disk).clocks, chain, keep)
    {
      hide DiskOk, KeepNewest, FirstOn;
      assert ChainAt(chainTipSeq, chainSeqs, SeqsOn(disk.clocks, chain), chain);
      if chain !in chainSeqs || keep == 0 || |chainSeqs[chain]| <= keep {
        if keep > 0 {
          KeepAll(disk.clocks, chain, keep);
        }
        return true;
      }
      if fails {
        return false;
      }
      var txn, n := disk, |chainSeqs[chain]| - keep;
      for i := 0 to n
        modifies {}
        invariant DiskOk(txn) && txn == disk.(clocks := txn.clocks, clockIndex := txn.clockIndex, refs := txn.refs)
        invariant NextClock(txn.clocks) == NextClock(disk.clocks)
        invariant SeqsOn(txn.clocks, chain) == chainSeqs[chain][i..]
        invariant forall c :: c != chain ==> SeqsOn(txn.clocks, c) == SeqsOn(disk.clocks, c)
        invariant KeepNewest(txn.clocks, chain, keep) == KeepNewest(disk.clocks, chain, keep)
      {
        txn := Delete(txn, chain, chainSeqs[chain][i], keep);
      }
      KeepAll(txn.clocks, chain, keep);
      TrackersTrimmed(chainTipSeq, chainSeqs, disk.clocks, txn.clocks, chain, n);
      disk := txn;
      chainSeqs := chainSeqs[chain := chainSeqs[chain][n..]];
      ok := true;
    }
  }

  function Pruned(clocks: seq<Entry>, chain: nat, keep: nat): seq<Entry> {
    if keep == 0 then clocks else KeepNewest(clocks, chain, keep)
  }

  /** The disk with one more event. */
  function EventStored(d: Disk, at: nat, e: Event): Disk {
    d.(events := d.events + [EventRec(at, e)], eventIndex := d.eventIndex[e.hash := at])
  }

  /** The disk with one more clock event, its reverse index being `refs`. */
  function ClockStored(d: Disk, at: nat, c: LocalClockEvent, refs: map<Hash, seq<nat>>): Disk {
    d.(clocks := d.clocks + [Entry(at, c)], clockIndex := d.clockIndex[c.base.hash := at], refs := refs)
  }

  predicate Supported(version: Option<nat>) {
    version == None || version == Some(1) || version == Some(FORMAT_VERSION)
  }

  /** Opening refuses exactly the formats it does not know. */
  method OpenStore(d: Disk) returns (s: Option<LmdbStore>)
    requires EventsOk(d.events, d.eventIndex) && ClocksOk(d.clocks, d.clockIndex)
    requires if d.version == Some(1) then d.refs == map[] else DupsMatch(d.refs, d.clocks)
    ensures s.Some? <==> Supported(d.version)
    ensures s.Some? ==> fresh(s.value) && s.value.Valid()
    ensures s.Some? ==> s.value.disk == d.(version := Some(FORMAT_VERSION), refs := s.value.disk.refs)
  {
    if !Supported(d.version) {
      return None;
    }
    var store := new LmdbStore.Open(d);
    s := Some(store);
  }

  /** A whole session: open a file, append an event and a clock event (the latter not fitting
      at first), drop an uncommitted batch, prune, close and open again. The reopened store is
      the one that was closed. */
  method Session(d: Disk, e: Event, c: LocalClockEvent, chain: nat, keep: nat, attempts: nat) returns (s: LmdbStore, t: LmdbStore)
    requires EventsOk(d.events, d.eventIndex) && ClocksOk(d.clocks, d.clockIndex) && Supported(d.version)
    requires if d.version == Some(1) then d.refs == map[] else DupsMatch(d.refs, d.clocks)
    requires ByHash(d.clocks, c.base.hash).None?
    ensures s.Valid() && t.Valid() && t.disk == s.disk
    ensures t.nextEventSeq == s.nextEventSeq && t.nextClockSeq == s.nextClockSeq
    ensures t.chainTipSeq == s.chainTipSeq && t.chainSeqs == s.chainSeqs
    ensures t.disk.events == d.events + [EventRec(NextEvent(d.events), e)]
    ensures t.disk.clocks == Pruned(d.clocks + [Entry(NextClock(d.clocks), c)], chain, keep)
    ensures t.disk.neighbors == d.neighbors && t.disk.routes == d.routes
  {
    hide EventsOk, ClocksOk, DupsMatch, Tracks, ByHash;
    s := new LmdbStore.Open(d);
    var _ := s.AddEvent(e, 0);
    var _ := s.AddClockEvent(c, attempts);
    var dropped := new Batch.Begin(s);
    var _ := dropped.AddEvent(e);
    dropped.Abort();
    var _ := s.PruneChain(chain, keep, false);
    t := s.Reopen();
  }

  lemma LastIsNext(clocks: seq<Entry>)
    ensures clocks != [] ==> NextClock(clocks) == Last(clocks).at + 1
  {
  }

  lemma FoundAtPlace(clocks: seq<Entry>, e: Entry)
    requires MemoryStore.WellOrdered(clocks, NextClock(clocks)) && e in clocks
    ensures PlaceOf(clocks, e.at) < |clocks| && clocks[PlaceOf(clocks, e.at)] == e
  {
    hide PlaceOf;
    var i :| 0 <= i < |clocks| && clocks[i] == e;
    assert PlaceOf(clocks, e.at) <= i;
  }

  // ---------------------------------------------------------------------------
  // both stores
  // ---------------------------------------------------------------------------

  lemma {:induction false} DupsAreFewer(live: seq<Entry>, h: Hash)
    ensures |DupSeqs(live, h)| <= |Referencing(live, h)|
    ensures (exists e :: e in live && CountHash(e.ce.base.refs, h) > 1) ==> |DupSeqs(live, h)| < |Referencing(live, h)|
  {
    if live != [] {
      assert live == Front(live) + [Last(live)];
      DupsAreFewer(Front(live), h);
    }
  }

  lemma {:induction false} SameWhenNamedOnce(live: seq<Entry>, h: Hash)
    requires forall e :: e in live ==> CountHash(e.ce.base.refs, h) <= 1
    ensures DupSeqs(live, h) == Referencing(live, h)
  {
    if live != [] {
      assert live == Front(live) + [Last(live)];
      assert Last(live) in live;
      SameWhenNamedOnce(Front(live), h);
      assert Repeat(Last(live).at, 1) == [Last(live).at];
    }
  }

  lemma {:induction false} SameOldest(live: seq<Entry>, h: Hash)
    ensures DupSeqs(live, h) == [] <==> Referencing(live, h) == []
    ensures DupSeqs(live, h) != [] ==> DupSeqs(live, h)[0] == Referencing(live, h)[0]
  {
    if live != [] {
      SameOldest(Front(live), h);
    }
  }

  /** The two stores' reverse indices name the same oldest clock event for every hash; they are
      equal exactly when no live clock event names the hash twice. */
  lemma StoresAgree(live: seq<Entry>, h: Hash)
    ensures DupSeqs(live, h) == [] <==> Referencing(live, h) == []
    ensures DupSeqs(live, h) != [] ==> DupSeqs(live, h)[0] == Referencing(live, h)[0]
    ensures DupSeqs(live, h) == Referencing(live, h) <==> forall e :: e in live ==> CountHash(e.ce.base.refs, h) <= 1
  {
    SameOldest(live, h);
    DupsAreFewer(live, h);
    if forall e :: e in live ==> CountHash(e.ce.base.refs, h) <= 1 {
      SameWhenNamedOnce(live, h);
    }
  }

  /** The open-time scan in key order. */
  method SeedChainTips(clocks: seq<Entry>) returns (tips: map<nat, nat>, seqs: map<nat, seq<nat>>)
    ensures Tracks(tips, seqs, clocks)
  {
    tips, seqs := map[], map[];
    for i := 0 to |clocks|
      invariant Tracks(tips, seqs, clocks[..i])
    {
      var e := clocks[i];
      var chain := e.ce.base.chain;
      assert clocks[..i + 1] == clocks[..i] + [e];
      TrackersAppend(tips, seqs, clocks[..i], e);
      tips := tips[chain := e.at];
      seqs := seqs[chain := MemoryStore.Listed(seqs, chain) + [e.at]];
    }
    assert clocks[..|clocks|] == clocks;
  }

  lemma TrackersAppend(tips: map<nat, nat>, seqs: map<nat, seq<nat>>, clocks: seq<Entry>, e: Entry)
    requires Tracks(tips, seqs, clocks)
    ensures var chain := e.ce.base.chain;
      Tracks(tips[chain := e.at], seqs[chain := MemoryStore.Listed(seqs, chain) + [e.at]], clocks + [e])
  {
    var chain := e.ce.base.chain;
    var tips', seqs', clocks' := tips[chain := e.at], seqs[chain := MemoryStore.Listed(seqs, chain) + [e.at]], clocks + [e];
    assert Front(clocks') == clocks;
    forall c
      ensures ChainAt(tips', seqs', SeqsOn(clocks', c), c)
    {
      assert ChainAt(tips, seqs, SeqsOn(clocks, c), c);
    }
  }

  lemma TrackersTrimmed(tips: map<nat, nat>, seqs: map<nat, seq<nat>>, clocks: seq<Entry>, clocks': seq<Entry>, chain: nat, n: nat)
    requires Tracks(tips, seqs, clocks) && chain in seqs && n < |seqs[chain]|
    requires SeqsOn(clocks', chain) == seqs[chain][n..]
    requires forall c :: c != chain ==> SeqsOn(clocks', c) == SeqsOn(clocks, c)
    ensures Tracks(tips, seqs[chain := seqs[chain][n..]], clocks')
  {
    var seqs' := seqs[chain := seqs[chain][n..]];
    forall c
      ensures ChainAt(tips, seqs', SeqsOn(clocks', c), c)
    {
      assert ChainAt(tips, seqs, SeqsOn(clocks, c), c);
    }
  }

  /** The migration scan: the reverse index the records imply. */
  method RebuildRefs(clocks: seq<Entry>) returns (refs: map<Hash, seq<nat>>)
    requires MemoryStore.WellOrdered(clocks, NextClock(clocks))
    ensures DupsMatch(refs, clocks)
  {
    refs := map[];
    for i := 0 to |clocks|
      invariant DupsMatch(refs, clocks[..i])
    {
      var e := clocks[i];
      assert MemoryStore.WellOrdered(clocks[..i], e.at);
      AllBelow(refs, clocks[..i], e.at);
      ghost var was := refs;
      refs := StoreRefs(refs, e.at, e.ce.base.refs);
      DupsAppend(was, refs, clocks[..i], e);
      assert clocks[..i + 1] == clocks[..i] + [e];
    }
    assert clocks[..|clocks|] == clocks;
  }

  /** Delete one clock event with its index entry and the duplicates it contributed. */
  method Delete(d: Disk, chain: nat, at: nat, ghost keep: nat) returns (r: Disk)
    requires DiskOk(d) && |SeqsOn(d.clocks, chain)| > keep > 0 && SeqsOn(d.clocks, chain)[0] == at
    ensures DiskOk(r) && r == d.(clocks := r.clocks, clockIndex := r.clockIndex, refs := r.refs)
    ensures NextClock(r.clocks) == NextClock(d.clocks)
    ensures SeqsOn(r.clocks, chain) == SeqsOn(d.clocks, chain)[1..]
    ensures forall c :: c != chain ==> SeqsOn(r.clocks, c) == SeqsOn(d.clocks, c)
    ensures KeepNewest(r.clocks, chain, keep) == KeepNewest(d.clocks, chain, keep)
  {
    SeqsPlaced(d.clocks, chain);
    hide DupsMatch, Evict, KeepNewest, SeqsOn, MemoryStore.WellOrdered, MemoryStore.HashesMatch, MemoryStore.Erased;
    var i := PlaceOf(d.clocks, at);
    var ce := d.clocks[i].ce;
    var refs := MemoryStore.Erase(d.refs, at, ce.base.refs);
    DupsEvict(d.refs, refs, d.clocks, NextClock(d.clocks), i);
    ClockEvictOk(d.clocks, d.clockIndex, i);
    EvictThenKeep(d.clocks, chain, keep);
    r := d.(clocks := Evict(d.clocks, i), clockIndex := d.clockIndex - {ce.base.hash}, refs := refs);
    EvictSeqsOn(d.clocks, chain, chain);
    forall c | c != chain
      ensures SeqsOn(r.clocks, c) == SeqsOn(d.clocks, c)
    {
      EvictSeqsOn(d.clocks, chain, c);
    }
  }

  // ---------------------------------------------------------------------------
  // write batches
  // ---------------------------------------------------------------------------

  function PendingOn(pending: seq<(nat, nat)>, chain: nat): (r: seq<nat>) {
    if pending == [] then []
    else PendingOn(Front(pending), chain) + if Last(pending).0 == chain then [Last(pending).1] else []
  }

  /** The chain's live sequences once the batch is committed. */
  ghost predicate PendingAt(before: seq<Entry>, after: seq<Entry>, pending: seq<(nat, nat)>, c: nat) {
    SeqsOn(after, c) == SeqsOn(before, c) + PendingOn(pending, c)
  }

  ghost predicate PendingMatch(before: seq<Entry>, after: seq<Entry>, pending: seq<(nat, nat)>) {
    forall c :: PendingAt(before, after, pending, c)
  }

  /** The trackers with the appends `done` applied. */
  ghost predicate AppliedAt(tips: map<nat, nat>, seqs: map<nat, seq<nat>>, before: seq<Entry>, done: seq<(nat, nat)>, c: nat) {
    ChainAt(tips, seqs, SeqsOn(before, c) + PendingOn(done, c), c)
  }

  ghost predicate Applied(tips: map<nat, nat>, seqs: map<nat, seq<nat>>, before: seq<Entry>, done: seq<(nat, nat)>) {
    forall c :: AppliedAt(tips, seqs, before, done, c)
  }

  /** One write transaction. `txn` is its private copy of the disk, absent once it is spent. */
  class Batch {
    const store: LmdbStore
    var txn: Option<Disk>
    var eventSeq: nat
    var clockSeq: nat
    var pending: seq<(nat, nat)>

    ghost predicate Valid()
      reads this, store
    {
      && store.Valid()
      && (txn.Some? ==>
            && DiskOk(txn.value) && txn.value.version == Some(FORMAT_VERSION)
            && eventSeq == NextEvent(txn.value.events) && clockSeq == NextClock(txn.value.clocks)
            && PendingMatch(store.disk.clocks, txn.value.clocks, pending))
    }

    constructor Begin(s: LmdbStore)
      requires s.Valid()
      ensures Valid() && store == s && txn == Some(s.disk)
    {
      store := s;
      txn := Some(s.disk);
      eventSeq, clockSeq := s.nextEventSeq, s.nextClockSeq;
      pending := [];
    }

    method AddEvent(e: Event) returns (at: nat)
      requires Valid() && txn.Some?
      modifies this
      ensures Valid() && at == NextEvent(old(txn).value.events) && at == |old(txn).value.events|
      ensures txn == Some(EventStored(old(txn).value, at, e))
    {
      hide EventsOk, DupsMatch, ClocksOk, Tracks, PendingMatch;
      var d := txn.value;
      at := eventSeq;
      EventAppendOk(d.events, d.eventIndex, at, e);
      eventSeq := eventSeq + 1;
      txn := Some(d.(events := PutEvent(d.events, at, e), eventIndex := d.eventIndex[e.hash := at]));
    }

    method AddClockEvent(c: LocalClockEvent) returns (at: nat)
      requires Valid() && txn.Some? && ByHash(txn.value.clocks, c.base.hash).None?
      modifies this
      ensures Valid() && txn.Some? && at == NextClock(old(txn).value.clocks)
      ensures txn.value == ClockStored(old(txn).value, at, c, txn.value.refs)
    {
      hide DupsMatch, MemoryStore.WellOrdered, MemoryStore.HashesMatch, Stored, Below, ByHash, EventsOk, Tracks, PendingMatch;
      var d := txn.value;
      at := clockSeq;
      AllBelow(d.refs, d.clocks, at);
      ClockAppendOk(d.clocks, d.clockIndex, at, c);
      clockSeq := clockSeq + 1;
      var refs := StoreRefs(d.refs, at, c.base.refs);
      DupsAppend(d.refs, refs, d.clocks, Entry(at, c));
      PendingAppend(store.disk.clocks, d.clocks, pending, Entry(at, c));
      txn := Some(d.(clocks := PutClock(d.clocks, at, c), clockIndex := d.clockIndex[c.base.hash := at], refs := refs));
      pending := pending + [(c.base.chain, at)];
    }

    /** Unlike the in-memory store, updating an unknown clock event is an error. */
    method UpdateClockEvent(c: LocalClockEvent) returns (ok: bool)
      requires Valid() && txn.Some? && MemoryStore.SameRecord(txn.value.clocks, c)
      modifies this
      ensures Valid() && txn.Some? && (ok <==> ByHash(old(txn).value.clocks, c.base.hash).Some?)
      ensures txn == Some(if ok then old(txn).value.(clocks := Update(old(txn).value.clocks, c)) else old(txn).value)
    {
      hide DupsMatch, MemoryStore.WellOrdered, MemoryStore.HashesMatch, MemoryStore.SameRecord, EventsOk, Tracks, PendingMatch;
      var d := txn.value;
      MemoryStore.HashKnown(d.clockIndex, d.clocks, c.base.hash);
      if c.base.hash !in d.clockIndex {
        return false;
      }
      var at := d.clockIndex[c.base.hash];
      PutIsUpdate(d.clocks, NextClock(d.clocks), ByHash(d.clocks, c.base.hash).value, c);
      UpdateOk(d, c);
      txn := Some(d.(clocks := PutClock(d.clocks, at, c)));
      PendingSame(store.disk.clocks, d.clocks, txn.value.clocks, pending);
      ok := true;
    }

    /** Commit: the disk changes as a whole and only then do the counters and trackers advance.
        A full map fails the commit and leaves the store as it was. */
    method Commit(full: bool) returns (ok: bool)
      requires Valid()
      modifies this, store
      ensures Valid() && txn == None
      ensures ok <==> old(txn).None? || !full
      ensures store.disk == if old(txn).Some? && !full then old(txn).value else old(store.disk)
      ensures full ==> unchanged(store)
    {
      if txn.None? {
        return true;
      }
      var d := txn.value;
      txn := None;
      if full {
        return false;
      }
      hide DiskOk, Tracks, Applied, PendingMatch;
      ghost var before := store.disk.clocks;
      ApplyAll(store.chainTipSeq, store.chainSeqs, before, d.clocks, pending);
      store.disk := d;
      store.nextEventSeq := eventSeq;
      store.nextClockSeq := clockSeq;
      var i := 0;
      while i < |pending|
        invariant i <= |pending| && txn == None && store.disk == d && pending == old(pending)
        invariant store.nextEventSeq == NextEvent(d.events) && store.nextClockSeq == NextClock(d.clocks)
        invariant Applied(store.chainTipSeq, store.chainSeqs, before, pending[..i])
      {
        var (chain, at) := pending[i];
        assert Front(pending[..i + 1]) == pending[..i];
        ApplyStep(store.chainTipSeq, store.chainSeqs, before, pending[..i + 1]);
        store.chainTipSeq := store.chainTipSeq[chain := at];
        store.chainSeqs := store.chainSeqs[chain := MemoryStore.Listed(store.chainSeqs, chain) + [at]];
        i := i + 1;
      }
      assert pending[..i] == pending;
      ApplyAll(store.chainTipSeq, store.chainSeqs, before, d.clocks, pending);
      ok := true;
    }

    /** An uncommitted batch that goes away changes nothing. */
    method Abort()
      requires Valid()
      modifies this
      ensures Valid() && txn == None
    {
      txn := None;
    }
  }

  lemma PendingAppend(before: seq<Entry>, after: seq<Entry>, pending: seq<(nat, nat)>, e: Entry)
    requires PendingMatch(before, after, pending)
    ensures PendingMatch(before, after + [e], pending + [(e.ce.base.chain, e.at)])
  {
    var after', pending' := after + [e], pending + [(e.ce.base.chain, e.at)];
    assert Front(after') == after && Front(pending') == pending;
    forall c
      ensures PendingAt(before, after', pending', c)
    {
      assert PendingAt(before, after, pending, c);
    }
  }

  lemma PendingSame(before: seq<Entry>, after: seq<Entry>, after': seq<Entry>, pending: seq<(nat, nat)>)
    requires PendingMatch(before, after, pending) && forall k :: SeqsOn(after', k) == SeqsOn(after, k)
    ensures PendingMatch(before, after', pending)
  {
    forall c
      ensures PendingAt(before, after', pending, c)
    {
      assert PendingAt(before, after, pending, c);
    }
  }

  lemma AppendAt(tips: map<nat, nat>, seqs: map<nat, seq<nat>>, on: seq<nat>, chain: nat, at: nat, c: nat)
    requires ChainAt(tips, seqs, on, c)
    ensures ChainAt(tips[chain := at], seqs[chain := MemoryStore.Listed(seqs, chain) + [at]], if c == chain then on + [at] else on, c)
  {
  }

  lemma ApplyStep(tips: map<nat, nat>, seqs: map<nat, seq<nat>>, before: seq<Entry>, done: seq<(nat, nat)>)
    requires done != [] && Applied(tips, seqs, before, Front(done))
    ensures var (chain, at) := Last(done);
      Applied(tips[chain := at], seqs[chain := MemoryStore.Listed(seqs, chain) + [at]], before, done)
  {
    var (chain, at) := Last(done);
    var tips', seqs' := tips[chain := at], seqs[chain := MemoryStore.Listed(seqs, chain) + [at]];
    forall c
      ensures AppliedAt(tips', seqs', before, done, c)
    {
      assert AppliedAt(tips, seqs, before, Front(done), c);
      AppendAt(tips, seqs, SeqsOn(before, c) + PendingOn(Front(done), c), chain, at, c);
      assert (SeqsOn(before, c) + PendingOn(Front(done), c)) + [at] == SeqsOn(before, c) + (PendingOn(Front(done), c) + [at]);
    }
  }

  lemma ApplyAll(tips: map<nat, nat>, seqs: map<nat, seq<nat>>, before: seq<Entry>, after: seq<Entry>, pending: seq<(nat, nat)>)
    requires PendingMatch(before, after, pending)
    ensures Tracks(tips, seqs, before) ==> Applied(tips, seqs, before, [])
    ensures Applied(tips, seqs, before, pending) ==> Tracks(tips, seqs, after)
  {
    if Tracks(tips, seqs, before) {
      forall c
        ensures AppliedAt(tips, seqs, before, [], c)
      {
        assert ChainAt(tips, seqs, SeqsOn(before, c), c);
      }
    }
    if Applied(tips, seqs, before, pending) {
      forall c
        ensures ChainAt(tips, seqs, SeqsOn(after, c), c)
      {
        assert AppliedAt(tips, seqs, before, pending, c) && PendingAt(before, after, pending, c);
      }
    }
  }
}
