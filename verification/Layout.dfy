/** The byte positions of every field: of the three datagrams, of the structures inside a chain
    and of what the hashes commit to, with 16-byte ids and 32-byte hashes. */
module Layout {
  import opened Domain
  import opened Hashing
  import opened Wire
  import opened NodeModel
  import opened Packets
  import Arith
  import BigEndian
  import Proofs

  // ---------------------------------------------------------------------------
  // slices
  // ---------------------------------------------------------------------------

  lemma Cut(a: Bytes, b: Bytes)
    ensures (a + b)[..|a|] == a && (a + b)[|a|..] == b
  {
  }

  /** A slice that starts after `a` is a slice of what follows. */
  lemma Past(a: Bytes, b: Bytes, i: nat, j: nat)
    requires |a| <= i <= j <= |a| + |b|
    ensures (a + b)[i..j] == b[i - |a|..j - |a|]
  {
  }

  /** Byte `i` of a `w`-byte number is its digit of weight 256^(w-1-i): most significant first. */
  lemma {:induction false} DigitAt(n: nat, w: nat, i: nat)
    requires i < w
    ensures BigEndian.Encode(n, w)[i] == n / BigEndian.Pow256(w - 1 - i) % 256
  {
    if i < w - 1 {
      DigitAt(n / 256, w - 1, i);
      Quotients(n, BigEndian.Pow256(w - 2 - i));
    } else {
      assert BigEndian.Pow256(0) == 1;
    }
  }

  lemma Quotients(n: nat, p: nat)
    requires p > 0
    ensures n / 256 / p == n / (256 * p)
  {
    var q := n / 256 / p;
    Arith.Divided(n / 256, p);
    Arith.Divided(n, 256);
    var rest := n / 256 % p * 256 + n % 256;
    assert n == q * (256 * p) + rest by {
      assert n == (q * p + n / 256 % p) * 256 + n % 256;
    }
    Unique(n, 256 * p, q, rest);
  }

  lemma Unique(n: nat, d: nat, q: nat, r: nat)
    requires d > 0 && r < d && n == q * d + r
    ensures n / d == q
  {
    Arith.Divided(n, d);
    if n / d < q {
      Arith.Mono(n / d + 1, q, d);
      Arith.OneMore(n / d, d);
    } else if n / d > q {
      Arith.Mono(q + 1, n / d, d);
      Arith.OneMore(q, d);
    }
  }

  // ---------------------------------------------------------------------------
  // fields
  // ---------------------------------------------------------------------------

  /** The bytes of `field` stand at offset `at`. */
  ghost predicate FieldAt(b: Bytes, at: nat, field: Bytes) {
    at + |field| <= |b| && b[at..at + |field|] == field
  }

  lemma Front0(a: Bytes, rest: Bytes)
    ensures FieldAt(a + rest, 0, a)
  {
  }

  lemma Whole(a: Bytes)
    ensures FieldAt(a, 0, a)
  {
  }

  lemma Shifted(a: Bytes, rest: Bytes)
    ensures forall at: nat, f :: FieldAt(rest, at, f) ==> FieldAt(a + rest, |a| + at, f)
  {
    forall at: nat, f | FieldAt(rest, at, f)
      ensures FieldAt(a + rest, |a| + at, f)
    {
      Past(a, rest, |a| + at, |a| + at + |f|);
    }
  }

  lemma Leading(a: Bytes, rest: Bytes)
    ensures forall at: nat, f :: FieldAt(a, at, f) ==> FieldAt(a + rest, at, f)
  {
    forall at: nat, f | FieldAt(a, at, f)
      ensures FieldAt(a + rest, at, f)
    {
      assert (a + rest)[at..at + |f|] == a[at..at + |f|];
    }
  }

  /** A length-prefixed string: four bytes of length, then the bytes. */
  lemma BlobLayout(b: Bytes)
    ensures |Blob(b)| == 4 + |b| && FieldAt(Blob(b), 0, U32(|b|)) && FieldAt(Blob(b), 4, b)
  {
    hide FieldAt, U32;
    Front0(U32(|b|), b);
    Whole(b);
    Shifted(U32(|b|), b);
  }

  lemma EightBytes(n: int)
    ensures |U64(n)| == 8
  {
  }

  const ID: nat := 16
  const HASH: nat := 32

  predicate RefSized(r: EventReference) {
    |r.creator.bytes| == ID && |r.hash| == HASH
  }

  /** 52 bytes: creator, then hash. */
  lemma RefLayout(r: EventReference)
    requires RefSized(r)
    ensures |Ref(r)| == 52 && FieldAt(Ref(r), 0, r.creator.bytes) && FieldAt(Ref(r), 16, U32(32)) && FieldAt(Ref(r), 20, r.hash)
  {
    hide FieldAt, U32, Blob;
    Front0(r.creator.bytes, Blob(r.hash));
    BlobLayout(r.hash);
    Shifted(r.creator.bytes, Blob(r.hash));
  }

  lemma {:induction false} RefsAt(rs: seq<EventReference>, i: nat)
    requires forall r :: r in rs ==> RefSized(r)
    ensures |List(Ref, rs)| == 52 * |rs| && (i < |rs| ==> FieldAt(List(Ref, rs), 52 * i, Ref(rs[i])))
  {
    hide FieldAt, Ref;
    if rs != [] {
      RefsAt(Front(rs), i);
      RefLayout(Last(rs));
      Leading(List(Ref, Front(rs)), Ref(Last(rs)));
      Whole(Ref(Last(rs)));
      Shifted(List(Ref, Front(rs)), Ref(Last(rs)));
    }
  }

  lemma {:induction false} IdsAt(ids: seq<NodeId>, i: nat)
    requires forall m :: m in ids ==> |m.bytes| == ID
    ensures |List(IdBytes, ids)| == 16 * |ids| && (i < |ids| ==> FieldAt(List(IdBytes, ids), 16 * i, ids[i].bytes))
  {
    hide FieldAt;
    if ids != [] {
      IdsAt(Front(ids), i);
      Leading(List(IdBytes, Front(ids)), IdBytes(Last(ids)));
      Whole(Last(ids).bytes);
      Shifted(List(IdBytes, Front(ids)), IdBytes(Last(ids)));
    }
  }

  /** A counted list of references: the count, then 52 bytes each. */
  lemma RefsLayout(rs: seq<EventReference>, i: nat)
    requires forall r :: r in rs ==> RefSized(r)
    ensures |Refs(rs)| == 4 + 52 * |rs| && FieldAt(Refs(rs), 0, U32(|rs|)) && (i < |rs| ==> FieldAt(Refs(rs), 4 + 52 * i, Ref(rs[i])))
  {
    hide FieldAt, U32, Ref, List;
    RefsAt(rs, i);
    Front0(U32(|rs|), List(Ref, rs));
    Shifted(U32(|rs|), List(Ref, rs));
  }

  lemma IdsLayout(ids: seq<NodeId>, i: nat)
    requires forall m :: m in ids ==> |m.bytes| == ID
    ensures |Ids(ids)| == 4 + 16 * |ids| && FieldAt(Ids(ids), 0, U32(|ids|)) && (i < |ids| ==> FieldAt(Ids(ids), 4 + 16 * i, ids[i].bytes))
  {
    hide FieldAt, U32, List;
    IdsAt(ids, i);
    Front0(U32(|ids|), List(IdBytes, ids));
    Shifted(U32(|ids|), List(IdBytes, ids));
  }

  // ---------------------------------------------------------------------------
  // events and clock events
  // ---------------------------------------------------------------------------

  predicate EventSized(e: Event) {
    |e.creator.bytes| == ID && |e.hash| == HASH && forall r :: r in e.refs ==> RefSized(r)
  }

  predicate ClockSized(c: ClockEvent) {
    |c.creator.bytes| == ID && |c.hash| == HASH && forall r :: r in c.refs ==> RefSized(r)
  }

  /** 72 bytes, plus the content, 52 per reference and the signature. */
  lemma EventLayout(e: Event, i: nat)
    requires EventSized(e)
    ensures var b, d, r := EventBytes(e), |e.data|, |e.refs|;
      && |b| == 72 + d + 52 * r + |e.signature|
      && FieldAt(b, 0, e.creator.bytes) && FieldAt(b, 16, U32(32)) && FieldAt(b, 20, e.hash)
      && FieldAt(b, 52, U32(d)) && FieldAt(b, 56, e.data) && FieldAt(b, 56 + d, U64(e.salt))
      && FieldAt(b, 64 + d, U32(r)) && (i < r ==> FieldAt(b, 68 + d + 52 * i, Ref(e.refs[i])))
      && FieldAt(b, 68 + d + 52 * r, U32(|e.signature|)) && FieldAt(b, 72 + d + 52 * r, e.signature)
  {
    hide FieldAt, U32, U64, Blob, Refs, Ref;
    BlobLayout(e.signature);
    RefsLayout(e.refs, i);
    BlobLayout(e.data);
    BlobLayout(e.hash);
    var p5 := Refs(e.refs) + Blob(e.signature);
    Leading(Refs(e.refs), Blob(e.signature));
    Shifted(Refs(e.refs), Blob(e.signature));
    var p4 := U64(e.salt) + p5;
    EightBytes(e.salt);
    Front0(U64(e.salt), p5);
    Shifted(U64(e.salt), p5);
    var p3 := Blob(e.data) + p4;
    Leading(Blob(e.data), p4);
    Shifted(Blob(e.data), p4);
    var p2 := Blob(e.hash) + p3;
    Leading(Blob(e.hash), p3);
    Shifted(Blob(e.hash), p3);
    Front0(e.creator.bytes, p2);
    Shifted(e.creator.bytes, p2);
  }

  /** 84 bytes, plus 52 per reference and the signature. */
  lemma ClockLayout(c: ClockEvent, i: nat)
    requires ClockSized(c)
    ensures var b, r := ClockBytes(c), |c.refs|;
      && |b| == 84 + 52 * r + |c.signature|
      && FieldAt(b, 0, c.creator.bytes) && FieldAt(b, 16, U32(32)) && FieldAt(b, 20, c.hash)
      && FieldAt(b, 52, U64(c.chain)) && FieldAt(b, 60, U64(c.timestamp)) && FieldAt(b, 68, U64(c.salt))
      && FieldAt(b, 76, U32(r)) && (i < r ==> FieldAt(b, 80 + 52 * i, Ref(c.refs[i])))
      && FieldAt(b, 80 + 52 * r, U32(|c.signature|)) && FieldAt(b, 84 + 52 * r, c.signature)
  {
    hide FieldAt, U32, U64, Blob, Refs, Ref;
    BlobLayout(c.signature);
    RefsLayout(c.refs, i);
    BlobLayout(c.hash);
    EightBytes(c.chain);
    EightBytes(c.timestamp);
    EightBytes(c.salt);
    var p6 := Refs(c.refs) + Blob(c.signature);
    Leading(Refs(c.refs), Blob(c.signature));
    Shifted(Refs(c.refs), Blob(c.signature));
    var p5 := U64(c.salt) + p6;
    Front0(U64(c.salt), p6);
    Shifted(U64(c.salt), p6);
    var p4 := U64(c.timestamp) + p5;
    Front0(U64(c.timestamp), p5);
    Shifted(U64(c.timestamp), p5);
    var p3 := U64(c.chain) + p4;
    Front0(U64(c.chain), p4);
    Shifted(U64(c.chain), p4);
    var p2 := Blob(c.hash) + p3;
    Leading(Blob(c.hash), p3);
    Shifted(Blob(c.hash), p3);
    Front0(c.creator.bytes, p2);
    Shifted(c.creator.bytes, p2);
  }

  /** Where clock event `i` of a list starts: after the count and all those before it. */
  function ClocksBefore(cs: seq<ClockEvent>, i: nat): nat
    requires i <= |cs|
  {
    if i == 0 then 4 else ClocksBefore(cs, i - 1) + |ClockBytes(cs[i - 1])|
  }

  lemma {:induction false} ClocksAt(cs: seq<ClockEvent>, i: nat)
    requires i <= |cs|
    ensures |List(ClockBytes, cs[..i])| + 4 == ClocksBefore(cs, i)
    ensures i < |cs| ==> FieldAt(List(ClockBytes, cs[..i + 1]), ClocksBefore(cs, i) - 4, ClockBytes(cs[i]))
  {
    hide FieldAt, ClockBytes;
    if i > 0 {
      ClocksAt(cs, i - 1);
      assert Front(cs[..i]) == cs[..i - 1] && Last(cs[..i]) == cs[i - 1];
    }
    if i < |cs| {
      assert Front(cs[..i + 1]) == cs[..i] && Last(cs[..i + 1]) == cs[i];
      Whole(ClockBytes(cs[i]));
      Shifted(List(ClockBytes, cs[..i]), ClockBytes(cs[i]));
    }
  }

  lemma {:induction false} ClocksStay(cs: seq<ClockEvent>, i: nat, k: nat, at: nat, f: Bytes)
    requires i <= k <= |cs| && FieldAt(List(ClockBytes, cs[..i]), at, f)
    ensures FieldAt(List(ClockBytes, cs[..k]), at, f)
  {
    hide FieldAt, ClockBytes;
    if k > i {
      ClocksStay(cs, i, k - 1, at, f);
      assert Front(cs[..k]) == cs[..k - 1] && Last(cs[..k]) == cs[k - 1];
      Leading(List(ClockBytes, cs[..k - 1]), ClockBytes(cs[k - 1]));
    }
  }

  /** A counted list of clock events: the count, then each after the other. */
  lemma ClockListLayout(cs: seq<ClockEvent>, i: nat)
    ensures |ClockList(cs)| == ClocksBefore(cs, |cs|) && FieldAt(ClockList(cs), 0, U32(|cs|))
    ensures i < |cs| ==> FieldAt(ClockList(cs), ClocksBefore(cs, i), ClockBytes(cs[i]))
  {
    hide FieldAt, ClockBytes, U32, List;
    assert cs[..|cs|] == cs;
    ClocksAt(cs, |cs|);
    Front0(U32(|cs|), List(ClockBytes, cs));
    Shifted(U32(|cs|), List(ClockBytes, cs));
    if i < |cs| {
      ClocksAt(cs, i);
      ClocksStay(cs, i + 1, |cs|, ClocksBefore(cs, i) - 4, ClockBytes(cs[i]));
    }
  }

  /** The event first, then the lower run, then the upper run. */
  lemma ChainLayout(ch: EventChain)
    ensures var b, e, l := ChainBytes(ch), |EventBytes(ch.event)|, |ClockList(ch.lower)|;
      && |b| == e + l + |ClockList(ch.upper)|
      && FieldAt(b, 0, EventBytes(ch.event)) && FieldAt(b, e, ClockList(ch.lower)) && FieldAt(b, e + l, ClockList(ch.upper))
  {
    hide FieldAt, EventBytes, ClockList;
    var p := ClockList(ch.lower) + ClockList(ch.upper);
    Whole(ClockList(ch.upper));
    Front0(ClockList(ch.lower), ClockList(ch.upper));
    Shifted(ClockList(ch.lower), ClockList(ch.upper));
    Front0(EventBytes(ch.event), p);
    Shifted(EventBytes(ch.event), p);
  }

  // ---------------------------------------------------------------------------
  // the three datagrams
  // ---------------------------------------------------------------------------

  /** 17 bytes of header: the type, then the sender; the rest is shifted by as much. */
  lemma HeaderLayout(d: Datagram)
    requires |d.sender.bytes| == ID
    ensures var b := PacketBytes(d);
      && |b| == 17 + |Body(d.payload)|
      && FieldAt(b, 0, [TypeOf(d.payload)]) && FieldAt(b, 1, d.sender.bytes)
      && forall at: nat, f :: FieldAt(Body(d.payload), at, f) ==> FieldAt(b, 17 + at, f)
  {
    hide FieldAt, Body;
    var t, p := [TypeOf(d.payload)], d.sender.bytes + Body(d.payload);
    Front0(t, p);
    Front0(d.sender.bytes, Body(d.payload));
    Shifted(t, p);
    Shifted(d.sender.bytes, Body(d.payload));
    forall at: nat, f | FieldAt(Body(d.payload), at, f)
      ensures FieldAt(PacketBytes(d), 17 + at, f)
    {
      assert FieldAt(p, 16 + at, f);
    }
  }

  /** A clock notification: 97 bytes. */
  lemma NotificationLayout(d: Datagram)
    requires d.payload.ClockNotification? && |d.sender.bytes| == ID && |d.payload.hash| == HASH && |d.payload.theirs| == HASH
    ensures var b, m := PacketBytes(d), d.payload;
      && |b| == 97 && FieldAt(b, 0, [0]) && FieldAt(b, 1, d.sender.bytes) && FieldAt(b, 17, U64(m.chain))
      && FieldAt(b, 25, U32(32)) && FieldAt(b, 29, m.hash) && FieldAt(b, 61, U32(32)) && FieldAt(b, 65, m.theirs)
  {
    hide FieldAt, U32, U64, Blob, PacketBytes;
    var m := d.payload;
    HeaderLayout(d);
    BlobLayout(m.hash);
    BlobLayout(m.theirs);
    EightBytes(m.chain);
    var p := Blob(m.hash) + Blob(m.theirs);
    Leading(Blob(m.hash), Blob(m.theirs));
    Shifted(Blob(m.hash), Blob(m.theirs));
    Front0(U64(m.chain), p);
    Shifted(U64(m.chain), p);
  }

  /** A chain request: 113 bytes, and 16 per hop of its breadcrumb. */
  lemma RequestLayout(d: Datagram, i: nat)
    requires d.payload.ChainRequest? && |d.sender.bytes| == ID && |d.payload.originator.bytes| == ID && RefSized(d.payload.event)
    requires forall x :: x in d.payload.path ==> |x.bytes| == ID
    ensures var b, m := PacketBytes(d), d.payload;
      && |b| == 113 + 16 * |m.path| && FieldAt(b, 0, [1]) && FieldAt(b, 1, d.sender.bytes)
      && FieldAt(b, 17, m.originator.bytes) && FieldAt(b, 33, m.event.creator.bytes)
      && FieldAt(b, 49, U32(32)) && FieldAt(b, 53, m.event.hash)
      && FieldAt(b, 85, U64(m.range.lo)) && FieldAt(b, 93, U64(m.range.hi)) && FieldAt(b, 101, U64(m.hopLimit))
      && FieldAt(b, 109, U32(|m.path|)) && (i < |m.path| ==> FieldAt(b, 113 + 16 * i, m.path[i].bytes))
  {
    hide FieldAt, U32, U64, Blob, PacketBytes, Ids;
    var m := d.payload;
    HeaderLayout(d);
    BlobLayout(m.event.hash);
    IdsLayout(m.path, i);
    EightBytes(m.range.lo);
    EightBytes(m.range.hi);
    EightBytes(m.hopLimit);
    var p5 := U64(m.hopLimit) + Ids(m.path);
    Front0(U64(m.hopLimit), Ids(m.path));
    Shifted(U64(m.hopLimit), Ids(m.path));
    var p4 := RangeBytes(m.range) + p5;
    Front0(U64(m.range.lo), U64(m.range.hi));
    Whole(U64(m.range.hi));
    Shifted(U64(m.range.lo), U64(m.range.hi));
    Leading(RangeBytes(m.range), p5);
    Shifted(RangeBytes(m.range), p5);
    var p3 := Blob(m.event.hash) + p4;
    Leading(Blob(m.event.hash), p4);
    Shifted(Blob(m.event.hash), p4);
    var p2 := m.event.creator.bytes + p3;
    Front0(m.event.creator.bytes, p3);
    Shifted(m.event.creator.bytes, p3);
    Front0(m.originator.bytes, p2);
    Shifted(m.originator.bytes, p2);
  }

  /** A chain response: 37 bytes, its chain, and 16 per hop still to go. */
  lemma ResponseLayout(d: Datagram, i: nat)
    requires d.payload.ChainResponse? && |d.sender.bytes| == ID && |d.payload.originator.bytes| == ID
    requires forall x :: x in d.payload.path ==> |x.bytes| == ID
    ensures var b, m := PacketBytes(d), d.payload; var c := |ChainBytes(m.eventChain)|;
      && |b| == 37 + c + 16 * |m.path| && FieldAt(b, 0, [2]) && FieldAt(b, 1, d.sender.bytes)
      && FieldAt(b, 17, m.originator.bytes) && FieldAt(b, 33, ChainBytes(m.eventChain))
      && FieldAt(b, 33 + c, U32(|m.path|)) && (i < |m.path| ==> FieldAt(b, 37 + c + 16 * i, m.path[i].bytes))
  {
    hide FieldAt, U32, PacketBytes, Ids, ChainBytes;
    var m := d.payload;
    HeaderLayout(d);
    IdsLayout(m.path, i);
    var p := ChainBytes(m.eventChain) + Ids(m.path);
    Front0(ChainBytes(m.eventChain), Ids(m.path));
    Shifted(ChainBytes(m.eventChain), Ids(m.path));
    Front0(m.originator.bytes, p);
    Shifted(m.originator.bytes, p);
  }

  // ---------------------------------------------------------------------------
  // what the hashes commit to
  // ---------------------------------------------------------------------------

  lemma {:induction false} CommittedRefs(refs: seq<EventReference>, i: nat)
    requires forall r :: r in refs ==> RefSized(r)
    ensures |RefBytes(refs)| == 48 * |refs|
    ensures i < |refs| ==> FieldAt(RefBytes(refs), 48 * i, refs[i].creator.bytes) && FieldAt(RefBytes(refs), 48 * i + 16, refs[i].hash)
  {
    hide FieldAt;
    if refs != [] {
      var head, rest := refs[0].creator.bytes + refs[0].hash, RefBytes(refs[1..]);
      assert RefSized(refs[0]);
      CommittedRefs(refs[1..], if i > 0 then i - 1 else 0);
      Front0(refs[0].creator.bytes, refs[0].hash);
      Whole(refs[0].hash);
      Shifted(refs[0].creator.bytes, refs[0].hash);
      Leading(head, rest);
      Shifted(head, rest);
    }
  }

  /** What is hashed of an event: the content, the salt, then creator and hash of each
      reference, with no lengths in between. */
  lemma EventCommitment(cr: Crypto, e: Event, i: nat) returns (b: Bytes)
    requires EventSized(e)
    ensures EventHash(cr, e.data, e.salt, e.refs) == cr.sha(b)
    ensures var d := |e.data|;
      && |b| == d + 8 + 48 * |e.refs| && FieldAt(b, 0, e.data) && FieldAt(b, d, U64(e.salt))
      && (i < |e.refs| ==> FieldAt(b, d + 8 + 48 * i, e.refs[i].creator.bytes) && FieldAt(b, d + 24 + 48 * i, e.refs[i].hash))
  {
    hide FieldAt, U64, RefBytes;
    b := e.data + U64(e.salt) + RefBytes(e.refs);
    EightBytes(e.salt);
    CommittedRefs(e.refs, i);
    Front0(e.data, U64(e.salt));
    Whole(U64(e.salt));
    Shifted(e.data, U64(e.salt));
    Leading(e.data + U64(e.salt), RefBytes(e.refs));
    Shifted(e.data + U64(e.salt), RefBytes(e.refs));
  }

  /** What is hashed of a clock event: chain, timestamp, salt, then the references alike. */
  lemma ClockCommitment(cr: Crypto, c: ClockEvent, i: nat) returns (b: Bytes)
    requires ClockSized(c)
    ensures ClockHash(cr, c.chain, c.timestamp, c.salt, c.refs) == cr.sha(b)
    ensures
      && |b| == 24 + 48 * |c.refs| && FieldAt(b, 0, U64(c.chain)) && FieldAt(b, 8, U64(c.timestamp)) && FieldAt(b, 16, U64(c.salt))
      && (i < |c.refs| ==> FieldAt(b, 24 + 48 * i, c.refs[i].creator.bytes) && FieldAt(b, 40 + 48 * i, c.refs[i].hash))
  {
    hide FieldAt, U64, RefBytes;
    b := U64(c.chain) + U64(c.timestamp) + U64(c.salt) + RefBytes(c.refs);
    EightBytes(c.chain);
    EightBytes(c.timestamp);
    EightBytes(c.salt);
    CommittedRefs(c.refs, i);
    var p2 := U64(c.chain) + U64(c.timestamp);
    Front0(U64(c.chain), U64(c.timestamp));
    Whole(U64(c.timestamp));
    Shifted(U64(c.chain), U64(c.timestamp));
    var p3 := p2 + U64(c.salt);
    Leading(p2, U64(c.salt));
    Whole(U64(c.salt));
    Shifted(p2, U64(c.salt));
    Leading(p3, RefBytes(c.refs));
    Shifted(p3, RefBytes(c.refs));
  }

  // ---------------------------------------------------------------------------
  // proofs and snapshots
  // ---------------------------------------------------------------------------

  /** A proof spells "LOTIPROF", then holds its version, kind, node, key and chain; an order proof
      goes on with the second chain and one byte of order. */
  lemma ProofLayout(p: Proofs.Proof)
    requires |p.node.bytes| == ID
    ensures var b, k, c := Proofs.ProofBytes(p), |p.pubkey|, |ChainBytes(p.chain)|;
      && FieldAt(b, 0, [0x4C, 0x4F, 0x54, 0x49, 0x50, 0x52, 0x4F, 0x46]) && FieldAt(b, 8, [0, 0, 0, 0, 0, 0, 0, 1])
      && FieldAt(b, 16, [p.kind]) && FieldAt(b, 17, p.node.bytes)
      && FieldAt(b, 33, U32(k)) && FieldAt(b, 37, p.pubkey) && FieldAt(b, 37 + k, ChainBytes(p.chain))
      && (p.kind == Proofs.ORDER ==>
            && |b| == 38 + k + c + |ChainBytes(p.chain2)|
            && FieldAt(b, 37 + k + c, ChainBytes(p.chain2)) && FieldAt(b, |b| - 1, [Proofs.ToByte(p.order)]))
      && (p.kind != Proofs.ORDER ==> |b| == 37 + k + c)
  {
    hide FieldAt, U32, Blob, ChainBytes, BigEndian.Encode;
    MagicBytes();
    BlobLayout(p.pubkey);
    EightBytes(Proofs.MAGIC);
    EightBytes(Proofs.VERSION);
    var last := Proofs.OrderPart(p);
    if p.kind == Proofs.ORDER {
      var o := [Proofs.ToByte(p.order)];
      Front0(ChainBytes(p.chain2), o);
      Whole(o);
      Shifted(ChainBytes(p.chain2), o);
    }
    var p5 := ChainBytes(p.chain) + last;
    Front0(ChainBytes(p.chain), last);
    Shifted(ChainBytes(p.chain), last);
    var p4 := Blob(p.pubkey) + p5;
    Leading(Blob(p.pubkey), p5);
    Shifted(Blob(p.pubkey), p5);
    var p3 := p.node.bytes + p4;
    Front0(p.node.bytes, p4);
    Shifted(p.node.bytes, p4);
    var p2 := [p.kind] + p3;
    Front0([p.kind], p3);
    Shifted([p.kind], p3);
    var p1 := U64(Proofs.VERSION) + p2;
    Front0(U64(Proofs.VERSION), p2);
    Shifted(U64(Proofs.VERSION), p2);
    Front0(U64(Proofs.MAGIC), p1);
    Shifted(U64(Proofs.MAGIC), p1);
  }

  lemma MagicBytes()
    ensures U64(Proofs.MAGIC) == [0x4C, 0x4F, 0x54, 0x49, 0x50, 0x52, 0x4F, 0x46]
    ensures U64(Proofs.VERSION) == [0, 0, 0, 0, 0, 0, 0, 1]
  {
    Spelled(0x4C, 0x4F, 0x54, 0x49, 0x50, 0x52, 0x4F, 0x46);
    Spelled(0, 0, 0, 0, 0, 0, 0, 1);
  }

  /** Eight bytes, one after the other, make up a number. */
  lemma Spelled(a: Byte, b: Byte, c: Byte, d: Byte, e: Byte, f: Byte, g: Byte, h: Byte)
    ensures BigEndian.Encode(((((((a * 256 + b) * 256 + c) * 256 + d) * 256 + e) * 256 + f) * 256 + g) * 256 + h, 8) == [a, b, c, d, e, f, g, h]
  {
    var n1 := a;
    var n2 := n1 * 256 + b;
    var n3 := n2 * 256 + c;
    var n4 := n3 * 256 + d;
    var n5 := n4 * 256 + e;
    var n6 := n5 * 256 + f;
    var n7 := n6 * 256 + g;
    assert BigEndian.Encode(n1, 1) == [a];
    assert BigEndian.Encode(n2, 2) == [a, b];
    assert BigEndian.Encode(n3, 3) == [a, b, c];
    assert BigEndian.Encode(n4, 4) == [a, b, c, d];
    assert BigEndian.Encode(n5, 5) == [a, b, c, d, e];
    assert BigEndian.Encode(n6, 6) == [a, b, c, d, e, f];
    assert BigEndian.Encode(n7, 7) == [a, b, c, d, e, f, g];
  }
}
