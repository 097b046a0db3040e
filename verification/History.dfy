/** The network-wide creation history: every event and clock event any node ever created, in
    creation order. It is what "happened before" means; no node can see it. */
module History {
  import opened Domain
  import opened Hashing
  import Validate

  /** `now` is the creator's clock reading at the moment of creation. */
  datatype Item = Ev(e: Event, now: Timestamp) | Ck(c: ClockEvent, now: Timestamp) {
    function Hash(): Hash { if Ev? then e.hash else c.hash }
    function Creator(): NodeId { if Ev? then e.creator else c.creator }
    function Refs(): seq<EventReference> { if Ev? then e.refs else c.refs }
    function Ref(): EventReference { EventReference(Creator(), Hash()) }
  }

  type History = seq<Item>

  datatype Setup = Setup(cr: Crypto, cfg: map<NodeId, NodeConfig>)

  // ---------------------------------------------------------------------------
  // views of a history
  // ---------------------------------------------------------------------------

  /** Where the item with hash `h` was created, or -1. */
  ghost function IndexOf(H: History, h: Hash): (r: int)
    ensures -1 <= r < |H|
    ensures r >= 0 ==> H[r].Hash() == h
    ensures r == -1 ==> forall x :: x in H ==> x.Hash() != h
  {
    if H == [] then -1
    else
      var older := IndexOf(Front(H), h);
      if older >= 0 then older else if Last(H).Hash() == h then |H| - 1 else -1
  }

  /** The reference names an item of the history under its real creator. */
  ghost predicate Resolves(H: History, r: EventReference) {
    IndexOf(H, r.hash) >= 0 && H[IndexOf(H, r.hash)].Creator() == r.creator
  }

  ghost predicate HasClock(H: History, c: ClockEvent) {
    exists i :: 0 <= i < |H| && H[i].Ck? && H[i].c == c
  }

  ghost predicate HasEvent(H: History, e: Event) {
    exists i :: 0 <= i < |H| && H[i].Ev? && H[i].e == e
  }

  /** A linked chain made only of items their creators really created. */
  ghost predicate RealChain(H: History, ch: EventChain) {
    && HasEvent(H, ch.event)
    && (forall c :: c in ch.lower ==> HasClock(H, c))
    && (forall c :: c in ch.upper ==> HasClock(H, c))
    && Validate.ChainLinked(ch)
  }

  /** The reference names a clock event its creator made on chain `chain`. */
  ghost predicate IsClockOn(H: History, r: EventReference, chain: nat) {
    exists i :: 0 <= i < |H| && H[i].Ck? && H[i].c.chain == chain && ClockRef(H[i].c) == r
  }

  /** All clock events of node `n` on one chain, oldest first. */
  ghost function ClocksOn(H: History, n: NodeId, chain: nat): (r: seq<ClockEvent>) {
    if H == [] then []
    else ClocksOn(Front(H), n, chain) +
         if Last(H).Ck? && Last(H).c.creator == n && Last(H).c.chain == chain then [Last(H).c] else []
  }

  /** Item `j` is a tick of node `n` on chain `c`. */
  ghost predicate TickOn(H: History, j: int, n: NodeId, c: nat)
    requires 0 <= j < |H|
  {
    H[j].Ck? && H[j].c.creator == n && H[j].c.chain == c
  }

  ghost function EventsOf(H: History, n: NodeId): (r: seq<Event>) {
    if H == [] then []
    else EventsOf(Front(H), n) + if Last(H).Ev? && Last(H).e.creator == n then [Last(H).e] else []
  }

  /** The events node `n` published since chain `chain` last ticked. */
  ghost function TailOf(H: History, n: NodeId, chain: nat): (r: seq<Event>) {
    if H == [] || Last(H).Creator() != n then if H == [] then [] else TailOf(Front(H), n, chain)
    else if Last(H).Ev? then TailOf(Front(H), n, chain) + [Last(H).e]
    else if Last(H).c.chain == chain then []
    else TailOf(Front(H), n, chain)
  }

  /** The newest clock event as a reference list: empty for a chain that never ticked. */
  function LastRef(cs: seq<ClockEvent>): (r: seq<EventReference>) {
    if cs == [] then [] else [ClockRef(Last(cs))]
  }

  /** The tips of chains 0 .. k-1 of node `n`, in chain order. */
  ghost function TipRefs(H: History, n: NodeId, k: nat): (r: seq<EventReference>) {
    if k == 0 then [] else TipRefs(H, n, k - 1) + LastRef(ClocksOn(H, n, k - 1))
  }

  // ---------------------------------------------------------------------------
  // honest histories
  // ---------------------------------------------------------------------------

  /** An event references the tip of every chain of its creator. */
  ghost predicate EventOk(st: Setup, H: History, e: Event) {
    && e.creator in st.cfg
    && EventIntact(st.cr, e)
    && e.refs == TipRefs(H, e.creator, st.cfg[e.creator].NumChains())
  }

  /** The references of a clock event are its same-chain predecessor, then neighbour tips on the
      same chain, then its creator's newest `t` events: every one published since the chain last
      ticked, and after a restart possibly older ones again. */
  ghost predicate TickRefs(H: History, c: ClockEvent, t: nat) {
    var prev := LastRef(ClocksOn(H, c.creator, c.chain));
    var events := EventsOf(H, c.creator);
    && |TailOf(H, c.creator, c.chain)| <= t <= |events|
    && |prev| + t <= |c.refs|
    && c.refs[..|prev|] == prev
    && c.refs[|c.refs| - t..] == EventRefs(events[|events| - t..])
    && (forall i :: |prev| <= i < |c.refs| - t ==> IsClockOn(H, c.refs[i], c.chain))
  }

  ghost predicate ClockOk(st: Setup, H: History, c: ClockEvent, now: Timestamp) {
    && c.creator in st.cfg
    && c.chain < st.cfg[c.creator].NumChains()
    && ClockIntact(st.cr, c)
    && (exists t: nat :: TickRefs(H, c, t))
    && var prev := ClocksOn(H, c.creator, c.chain);
       c.timestamp == if prev != [] && now < Last(prev).timestamp then Last(prev).timestamp else now
  }

  ghost predicate ItemOk(st: Setup, H: History, x: Item) {
    && x.Hash() != []
    && IndexOf(H, x.Hash()) == -1
    && (forall r :: r in x.Refs() ==> Resolves(H, r))
    && (x.Ev? ==> EventOk(st, H, x.e))
    && (x.Ck? ==> ClockOk(st, H, x.c, x.now))
  }

  /** Item `k` was acceptable when it was created. */
  ghost predicate CreatedOk(st: Setup, H: History, k: nat)
    requires k < |H|
  {
    ItemOk(st, H[..k], H[k])
  }

  ghost predicate Ok(st: Setup, H: History) {
    forall k: nat :: k < |H| ==> CreatedOk(st, H, k)
  }

  /** Node `n`'s clock never went backward from one of its ticks to the next. */
  ghost predicate Monotone(H: History, n: NodeId) {
    forall i, j :: 0 <= i < j < |H| && H[i].Ck? && H[j].Ck? && H[i].Creator() == n && H[j].Creator() == n ==> H[i].now <= H[j].now
  }

  // ---------------------------------------------------------------------------
  // growth
  // ---------------------------------------------------------------------------

  lemma AppendFacts(H: History, x: Item)
    ensures Front(H + [x]) == H && Last(H + [x]) == x
  {
  }

  lemma IndexOfAppend(H: History, x: Item, h: Hash)
    ensures IndexOf(H, h) >= 0 ==> IndexOf(H + [x], h) == IndexOf(H, h)
    ensures IndexOf(H, h) < 0 && x.Hash() == h ==> IndexOf(H + [x], h) == |H|
    ensures IndexOf(H, h) < 0 && x.Hash() != h ==> IndexOf(H + [x], h) == -1
  {
    AppendFacts(H, x);
  }

  lemma {:induction false} IndexOfPrefix(H: History, k: nat, h: Hash)
    requires k <= |H| && IndexOf(H[..k], h) >= 0
    ensures IndexOf(H, h) == IndexOf(H[..k], h)
    decreases |H|
  {
    if k < |H| {
      assert Front(H)[..k] == H[..k];
      IndexOfPrefix(Front(H), k, h);
    } else {
      assert H[..k] == H;
    }
  }

  lemma OkPrefix(st: Setup, H: History, k: nat)
    requires Ok(st, H) && k <= |H|
    ensures Ok(st, H[..k])
  {
    forall j: nat | j < k
      ensures CreatedOk(st, H[..k], j)
    {
      assert CreatedOk(st, H, j);
      assert H[..k][..j] == H[..j];
    }
  }

  /** Each item of an honest history was acceptable when it was created. */
  lemma OkAt(st: Setup, H: History, k: nat)
    requires Ok(st, H) && k < |H|
    ensures Ok(st, H[..k]) && ItemOk(st, H[..k], H[k])
  {
    OkPrefix(st, H, k);
    assert CreatedOk(st, H, k);
  }

  lemma TickRefsAt(st: Setup, H: History, j: nat) returns (t: nat)
    requires Ok(st, H) && j < |H| && H[j].Ck?
    ensures TickRefs(H[..j], H[j].c, t)
  {
    hide Ok, TickRefs;
    OkAt(st, H, j);
    t :| TickRefs(H[..j], H[j].c, t);
  }

  lemma OkAppend(st: Setup, H: History, x: Item)
    ensures Ok(st, H + [x]) <==> Ok(st, H) && ItemOk(st, H, x)
  {
    var G := H + [x];
    assert G[..|H|] == H;
    if Ok(st, G) {
      OkPrefix(st, G, |H|);
      assert CreatedOk(st, G, |H|);
    }
    if Ok(st, H) && ItemOk(st, H, x) {
      forall j: nat | j < |G|
        ensures CreatedOk(st, G, j)
      {
        if j < |H| {
          assert CreatedOk(st, H, j);
          assert G[..j] == H[..j];
        }
      }
    }
  }

  lemma FoundWhereFresh(H: History, k: nat)
    requires k < |H| && IndexOf(H[..k], H[k].Hash()) == -1
    ensures IndexOf(H, H[k].Hash()) == k
  {
    hide IndexOf;
    TakeOneMore(H, k);
    IndexOfAppend(H[..k], H[k], H[k].Hash());
    IndexOfPrefix(H, k + 1, H[k].Hash());
  }

  lemma TakeOneMore(H: History, k: nat)
    requires k < |H|
    ensures H[..k + 1] == H[..k] + [H[k]]
  {
  }

  /** Hashes identify items: an item is found exactly where it was created. */
  lemma Unique(st: Setup, H: History, k: nat)
    requires Ok(st, H) && k < |H|
    ensures IndexOf(H, H[k].Hash()) == k
  {
    OkAt(st, H, k);
    FoundWhereFresh(H, k);
  }

  lemma SameHashSameItem(st: Setup, H: History, i: nat, j: nat)
    requires Ok(st, H) && i < |H| && j < |H| && H[i].Hash() == H[j].Hash()
    ensures i == j
  {
    Unique(st, H, i);
    Unique(st, H, j);
  }

  /** The network-wide reference graph is acyclic: every reference of every item names, under
      its true creator, an item created strictly earlier. */
  lemma {:induction false} ReferencesGoBack(st: Setup, H: History, k: nat, r: EventReference)
    requires Ok(st, H) && k < |H| && r in H[k].Refs()
    ensures 0 <= IndexOf(H, r.hash) < k && H[IndexOf(H, r.hash)].Ref() == r
  {
    OkAt(st, H, k);
    assert Resolves(H[..k], r);
    IndexOfPrefix(H, k, r.hash);
  }

  // ---------------------------------------------------------------------------
  // one node's chains
  // ---------------------------------------------------------------------------

  lemma {:induction false} ClocksOnMembers(H: History, n: NodeId, chain: nat, c: ClockEvent)
    ensures c in ClocksOn(H, n, chain) <==> HasClock(H, c) && c.creator == n && c.chain == chain
  {
    if H != [] {
      ClocksOnMembers(Front(H), n, chain, c);
      assert H == Front(H) + [Last(H)];
      if HasClock(H, c) && !(Last(H).Ck? && Last(H).c == c) {
        var i :| 0 <= i < |H| && H[i].Ck? && H[i].c == c;
        assert Front(H)[i] == H[i];
      }
      if HasClock(Front(H), c) {
        var i :| 0 <= i < |H| - 1 && Front(H)[i].Ck? && Front(H)[i].c == c;
        assert H[i] == Front(H)[i];
      }
    }
  }

  lemma {:induction false} EventsOfMembers(H: History, n: NodeId, e: Event)
    ensures e in EventsOf(H, n) <==> HasEvent(H, e) && e.creator == n
  {
    if H != [] {
      EventsOfMembers(Front(H), n, e);
      assert H == Front(H) + [Last(H)];
      if HasEvent(H, e) && !(Last(H).Ev? && Last(H).e == e) {
        var i :| 0 <= i < |H| && H[i].Ev? && H[i].e == e;
        assert Front(H)[i] == H[i];
      }
      if HasEvent(Front(H), e) {
        var i :| 0 <= i < |H| - 1 && Front(H)[i].Ev? && Front(H)[i].e == e;
        assert H[i] == Front(H)[i];
      }
    }
  }

  /** The events published since a chain last ticked are its creator's newest. */
  lemma {:induction false} TailIsSuffix(H: History, n: NodeId, c: nat)
    ensures var E := EventsOf(H, n); var T := TailOf(H, n, c); |T| <= |E| && E[|E| - |T|..] == T
  {
    if H != [] {
      TailIsSuffix(Front(H), n, c);
    }
  }

  /** For any clock readings, even backward ones, one chain of one node is hash-linked through
      each clock event's first reference and its timestamps never decrease. */
  lemma {:induction false} ChainLinked(st: Setup, H: History, n: NodeId, chain: nat, i: nat)
    requires Ok(st, H) && 0 < i < |ClocksOn(H, n, chain)|
    ensures var L := ClocksOn(H, n, chain);
            |L[i].refs| > 0 && L[i].refs[0] == ClockRef(L[i - 1]) && L[i - 1].timestamp <= L[i].timestamp
  {
    var F := ClocksOn(Front(H), n, chain);
    OkAt(st, H, |H| - 1);
    if i < |F| {
      ChainLinked(st, Front(H), n, chain, i);
    } else {
      var c := Last(H).c;
      assert ClockOk(st, Front(H), c, Last(H).now);
      var t: nat :| TickRefs(Front(H), c, t);
      assert c.refs[..1][0] == c.refs[0];
    }
  }

  /** With a clock that never goes backward, a node's clock events carry its actual readings. */
  lemma {:induction false} StampIsReading(st: Setup, H: History, n: NodeId, k: nat)
    requires Ok(st, H) && Monotone(H, n) && k < |H| && H[k].Ck? && H[k].c.creator == n
    ensures H[k].c.timestamp == H[k].now
    decreases k
  {
    OkAt(st, H, k);
    var prev := ClocksOn(H[..k], n, H[k].c.chain);
    if prev != [] {
      ClocksOnMembers(H[..k], n, H[k].c.chain, Last(prev));
      var i :| 0 <= i < k && H[..k][i].Ck? && H[..k][i].c == Last(prev);
      assert H[i] == H[..k][i];
      StampIsReading(st, H, n, i);
    }
  }

  /** ... so at such a node creation order and timestamp order agree, across all its chains. */
  lemma StampsOrdered(st: Setup, H: History, n: NodeId, i: nat, j: nat)
    requires Ok(st, H) && Monotone(H, n) && i < |H| && j < |H|
    requires H[i].Ck? && H[i].c.creator == n && H[j].Ck? && H[j].c.creator == n
    ensures i <= j ==> H[i].c.timestamp <= H[j].c.timestamp
    ensures H[i].c.timestamp < H[j].c.timestamp ==> i < j
  {
    StampIsReading(st, H, n, i);
    StampIsReading(st, H, n, j);
  }
}
