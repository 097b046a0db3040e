/** What the content hashes cover: on a digest without collisions an accepted item cannot have
    any hashed field rewritten and stay accepted under its hash. */
module Tamper {
  import opened Domain
  import opened Hashing
  import BigEndian
  import Validate
  import Wire

  const HASH_BYTES: nat := 32

  ghost predicate Injective(sha: Bytes -> Hash) {
    forall a, b :: sha(a) == sha(b) ==> a == b
  }

  /** The widths a digest and a node fingerprint have: 32 and 16 bytes. */
  ghost predicate Sized(refs: seq<EventReference>) {
    forall i :: 0 <= i < |refs| ==> |refs[i].creator.bytes| == Wire.NODE_ID_BYTES && |refs[i].hash| == HASH_BYTES
  }

  // ---------------------------------------------------------------------------
  // the bytes determine the fields
  // ---------------------------------------------------------------------------

  lemma SameNumber(a: int, b: int)
    requires U64(a) == U64(b)
    ensures a % U64_MODULUS == b % U64_MODULUS
  {
    Wire.Widths();
    BigEndian.DecodeEncode(a % U64_MODULUS, 8);
    BigEndian.DecodeEncode(b % U64_MODULUS, 8);
  }

  lemma SplitAt(a: Bytes, x: Bytes, b: Bytes, y: Bytes)
    requires a + x == b + y && |a| == |b|
    ensures a == b && x == y
  {
    assert (a + x)[..|a|] == a && (b + y)[..|b|] == b;
    assert (a + x)[|a|..] == x && (b + y)[|b|..] == y;
  }

  /** Written one after the other without lengths, references of the right widths still read
      back uniquely. */
  lemma {:induction false} SameReferences(p: seq<EventReference>, q: seq<EventReference>)
    requires RefBytes(p) == RefBytes(q) && Sized(p) && Sized(q)
    ensures p == q
  {
    if p != [] && q != [] {
      SplitAt(p[0].creator.bytes + p[0].hash, RefBytes(p[1..]), q[0].creator.bytes + q[0].hash, RefBytes(q[1..]));
      SplitAt(p[0].creator.bytes, p[0].hash, q[0].creator.bytes, q[0].hash);
      SameReferences(p[1..], q[1..]);
      assert p == [p[0]] + p[1..] && q == [q[0]] + q[1..];
    }
  }

  // ---------------------------------------------------------------------------
  // clock events
  // ---------------------------------------------------------------------------

  /** The same hashed content: chain, timestamp and salt as 64-bit numbers, and the references. */
  ghost predicate SameClock(c: ClockEvent, d: ClockEvent) {
    && c.chain % U64_MODULUS == d.chain % U64_MODULUS
    && c.timestamp % U64_MODULUS == d.timestamp % U64_MODULUS
    && c.salt % U64_MODULUS == d.salt % U64_MODULUS
    && RefBytes(c.refs) == RefBytes(d.refs)
    && (Sized(c.refs) && Sized(d.refs) ==> c.refs == d.refs)
  }

  /** Two intact clock events carry the same hash if and only if their hashed content is the
      same. */
  lemma ClockHashCovers(cr: Crypto, c: ClockEvent, d: ClockEvent)
    requires Injective(cr.sha) && ClockIntact(cr, c) && ClockIntact(cr, d)
    ensures c.hash == d.hash <==> SameClock(c, d)
  {
    if c.hash == d.hash {
      ClockInputs(U64(c.chain), U64(c.timestamp), U64(c.salt), RefBytes(c.refs),
                  U64(d.chain), U64(d.timestamp), U64(d.salt), RefBytes(d.refs));
      SameNumber(c.chain, d.chain);
      SameNumber(c.timestamp, d.timestamp);
      SameNumber(c.salt, d.salt);
      if Sized(c.refs) && Sized(d.refs) {
        SameReferences(c.refs, d.refs);
      }
    }
  }

  lemma ClockInputs(a: Bytes, b: Bytes, c: Bytes, r: Bytes, a': Bytes, b': Bytes, c': Bytes, r': Bytes)
    requires |a| == |a'| && |b| == |b'| && |c| == |c'| && a + b + c + r == a' + b' + c' + r'
    ensures a == a' && b == b' && c == c' && r == r'
  {
    SplitAt(a + b + c, r, a' + b' + c', r');
    SplitAt(a + b, c, a' + b', c');
    SplitAt(a, b, a', b');
  }

  // ---------------------------------------------------------------------------
  // events
  // ---------------------------------------------------------------------------

  ghost predicate SameEvent(e: Event, f: Event) {
    && e.data == f.data && e.salt % U64_MODULUS == f.salt % U64_MODULUS
    && RefBytes(e.refs) == RefBytes(f.refs)
    && (Sized(e.refs) && Sized(f.refs) ==> e.refs == f.refs)
  }

  /** The length of the data is not hashed. Of two intact events whose data is equally long, the
      hashes are equal if and only if the hashed content is the same. */
  lemma EventHashCovers(cr: Crypto, e: Event, f: Event)
    requires Injective(cr.sha) && EventIntact(cr, e) && EventIntact(cr, f) && |e.data| == |f.data|
    ensures e.hash == f.hash <==> SameEvent(e, f)
  {
    if e.hash == f.hash {
      SplitAt(e.data + U64(e.salt), RefBytes(e.refs), f.data + U64(f.salt), RefBytes(f.refs));
      SplitAt(e.data, U64(e.salt), f.data, U64(f.salt));
      SameNumber(e.salt, f.salt);
      if Sized(e.refs) && Sized(f.refs) {
        SameReferences(e.refs, f.refs);
      }
    }
  }

  /** With references of the right widths, equally many of them mean equally long data. */
  lemma SameLength(cr: Crypto, e: Event, f: Event)
    requires Injective(cr.sha) && EventIntact(cr, e) && EventIntact(cr, f) && e.hash == f.hash
    requires Sized(e.refs) && Sized(f.refs)
    ensures |e.data| == |f.data| <==> |e.refs| == |f.refs|
  {
    RefBytesLength(e.refs);
    RefBytesLength(f.refs);
  }

  lemma {:induction false} RefBytesLength(refs: seq<EventReference>)
    requires Sized(refs)
    ensures |RefBytes(refs)| == |refs| * (Wire.NODE_ID_BYTES + HASH_BYTES)
  {
    if refs != [] {
      RefBytesLength(refs[1..]);
    }
  }

  // ---------------------------------------------------------------------------
  // chains
  // ---------------------------------------------------------------------------

  ghost predicate SameClocks(a: seq<ClockEvent>, b: seq<ClockEvent>) {
    |a| == |b| && forall i :: 0 <= i < |a| ==> SameClock(a[i], b[i])
  }

  ghost predicate SameHashes(a: seq<ClockEvent>, b: seq<ClockEvent>) {
    |a| == |b| && forall i :: 0 <= i < |a| ==> a[i].hash == b[i].hash
  }

  /** Two accepted chains that carry the same hashes in the same places, over equally long data,
      agree on every hashed field of every item, and so on the interval they prove. */
  lemma AcceptedAgree(cr: Crypto, a: EventChain, b: EventChain, reference: NodeId)
    requires Injective(cr.sha) && Validate.Sound(cr, a, reference) && Validate.Sound(cr, b, reference)
    requires SameHashes(a.lower, b.lower) && SameHashes(a.upper, b.upper)
    requires a.event.hash == b.event.hash && |a.event.data| == |b.event.data|
    ensures SameClocks(a.lower, b.lower) && SameClocks(a.upper, b.upper) && SameEvent(a.event, b.event)
  {
    forall i | 0 <= i < |a.lower|
      ensures SameClock(a.lower[i], b.lower[i])
    {
      ClockHashCovers(cr, a.lower[i], b.lower[i]);
    }
    forall i | 0 <= i < |a.upper|
      ensures SameClock(a.upper[i], b.upper[i])
    {
      ClockHashCovers(cr, a.upper[i], b.upper[i]);
    }
    EventHashCovers(cr, a.event, b.event);
  }

  /** A clock event of an accepted chain that is rewritten under its hash in any hashed field, or
      given a signature that does not verify, makes the chain rejected. */
  lemma RewrittenClockIsRejected(cr: Crypto, ch: EventChain, reference: NodeId, i: nat, c: ClockEvent)
    requires Injective(cr.sha) && Validate.Sound(cr, ch, reference)
    ensures i < |ch.lower| && c.hash == ch.lower[i].hash && (!SameClock(c, ch.lower[i]) || !cr.verify(c.hash, c.signature, c.creator))
            ==> !Validate.Sound(cr, ch.(lower := ch.lower[i := c]), reference)
    ensures i < |ch.upper| && c.hash == ch.upper[i].hash && (!SameClock(c, ch.upper[i]) || !cr.verify(c.hash, c.signature, c.creator))
            ==> !Validate.Sound(cr, ch.(upper := ch.upper[i := c]), reference)
  {
    if i < |ch.lower| && c.hash == ch.lower[i].hash {
      assert ch.lower[i] in ch.lower && c in ch.lower[i := c] by {
        assert ch.lower[i := c][i] == c;
      }
      if ClockIntact(cr, c) {
        ClockHashCovers(cr, c, ch.lower[i]);
      }
    }
    if i < |ch.upper| && c.hash == ch.upper[i].hash {
      assert ch.upper[i] in ch.upper && c in ch.upper[i := c] by {
        assert ch.upper[i := c][i] == c;
      }
      if ClockIntact(cr, c) {
        ClockHashCovers(cr, c, ch.upper[i]);
      }
    }
  }

  /** In particular the interval cannot be restamped. */
  lemma RestampedIsRejected(cr: Crypto, ch: EventChain, reference: NodeId, i: nat, t: Timestamp)
    requires Injective(cr.sha) && Validate.Sound(cr, ch, reference)
    ensures i < |ch.lower| && t % U64_MODULUS != ch.lower[i].timestamp % U64_MODULUS ==>
            !Validate.Sound(cr, ch.(lower := ch.lower[i := ch.lower[i].(timestamp := t)]), reference)
    ensures i < |ch.upper| && t % U64_MODULUS != ch.upper[i].timestamp % U64_MODULUS ==>
            !Validate.Sound(cr, ch.(upper := ch.upper[i := ch.upper[i].(timestamp := t)]), reference)
  {
    hide Validate.Sound;
    if i < |ch.lower| {
      RewrittenClockIsRejected(cr, ch, reference, i, ch.lower[i].(timestamp := t));
    }
    if i < |ch.upper| {
      RewrittenClockIsRejected(cr, ch, reference, i, ch.upper[i].(timestamp := t));
    }
  }

  /** Nor can the event be rewritten under its hash at its length. */
  lemma RewrittenEventIsRejected(cr: Crypto, ch: EventChain, reference: NodeId, e: Event)
    requires Injective(cr.sha) && Validate.Sound(cr, ch, reference) && e.hash == ch.event.hash && |e.data| == |ch.event.data|
    requires !SameEvent(e, ch.event) || !cr.verify(e.hash, e.signature, e.creator)
    ensures !Validate.Sound(cr, ch.(event := e), reference)
  {
    if EventIntact(cr, e) {
      EventHashCovers(cr, e, ch.event);
    }
  }
}
