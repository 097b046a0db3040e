/** The length-prefixed wire layout: what each domain object looks like in bytes, and what a
    reader makes of arbitrary bytes. */
module Wire {
  import opened Domain
  import opened Hashing
  import Arith
  import BigEndian

  const U32_MODULUS: nat := 0x1_0000_0000
  const NODE_ID_BYTES: nat := 16

  /** The least number of wire bytes of a reference and of a clock event. */
  const REF_BYTES: nat := 20
  const CLOCK_BYTES: nat := 44

  /** A decoded value and the bytes after it, or the reader's exception. */
  datatype Parsed<+T> = Fail | Got(value: T, rest: Bytes)

  // ---------------------------------------------------------------------------
  // writing
  // ---------------------------------------------------------------------------

  function U32(n: nat): (b: Bytes)
    ensures |b| == 4
  {
    BigEndian.Encode(n % U32_MODULUS, 4)
  }

  function Blob(b: Bytes): (r: Bytes)
    ensures |r| == 4 + |b|
  {
    U32(|b|) + b
  }

  function List<T>(enc: T -> Bytes, xs: seq<T>): (r: Bytes) {
    if xs == [] then [] else List(enc, Front(xs)) + enc(Last(xs))
  }

  function Ref(r: EventReference): (b: Bytes) {
    r.creator.bytes + Blob(r.hash)
  }

  function Refs(rs: seq<EventReference>): (b: Bytes) {
    U32(|rs|) + List(Ref, rs)
  }

  function EventBytes(e: Event): (b: Bytes) {
    e.creator.bytes + (Blob(e.hash) + (Blob(e.data) + (U64(e.salt) + (Refs(e.refs) + Blob(e.signature)))))
  }

  function ClockBytes(c: ClockEvent): (b: Bytes) {
    c.creator.bytes + (Blob(c.hash) + (U64(c.chain) + (U64(c.timestamp) + (U64(c.salt) + (Refs(c.refs) + Blob(c.signature))))))
  }

  function ClockList(cs: seq<ClockEvent>): (b: Bytes) {
    U32(|cs|) + List(ClockBytes, cs)
  }

  function ChainBytes(ch: EventChain): (b: Bytes) {
    EventBytes(ch.event) + (ClockList(ch.lower) + ClockList(ch.upper))
  }

  function RangeBytes(r: TimeRange): (b: Bytes) {
    U64(r.lo) + U64(r.hi)
  }

  function IdBytes(id: NodeId): (b: Bytes) {
    id.bytes
  }

  function Ids(ids: seq<NodeId>): (b: Bytes) {
    U32(|ids|) + List(IdBytes, ids)
  }

  // ---------------------------------------------------------------------------
  // reading
  // ---------------------------------------------------------------------------

  /** A 64-bit word read as a signed tick. */
  function Signed(n: nat): int {
    if n < U64_MODULUS / 2 then n else n - U64_MODULUS
  }

  function ParseInt(b: Bytes, w: nat): (r: Parsed<nat>)
    ensures r.Got? <==> |b| >= w
    ensures r.Got? ==> r.rest == b[w..]
  {
    if |b| < w then Fail else Got(BigEndian.Decode(b[..w]), b[w..])
  }

  function ParseId(b: Bytes): (r: Parsed<NodeId>) {
    if |b| < NODE_ID_BYTES then Fail else Got(NodeId(b[..NODE_ID_BYTES]), b[NODE_ID_BYTES..])
  }

  function ParseBlob(b: Bytes): (r: Parsed<Bytes>) {
    match ParseInt(b, 4)
    case Fail => Fail
    case Got(n, rest) => if |rest| < n then Fail else Got(rest[..n], rest[n..])
  }

  function ParseList<T>(dec: Bytes -> Parsed<T>, b: Bytes, n: nat): (r: Parsed<seq<T>>) {
    if n == 0 then Got([], b)
    else match ParseList(dec, b, n - 1)
      case Fail => Fail
      case Got(xs, rest) =>
        match dec(rest)
        case Fail => Fail
        case Got(x, rest') => Got(xs + [x], rest')
  }

  /** A count, refused when so many elements cannot fit in what is left, then the elements. */
  function ParseCounted<T>(dec: Bytes -> Parsed<T>, least: nat, b: Bytes): (r: Parsed<seq<T>>)
    requires least > 0
  {
    match ParseInt(b, 4)
    case Fail => Fail
    case Got(n, rest) => if n > |rest| / least then Fail else ParseList(dec, rest, n)
  }

  function ParseRef(b: Bytes): (r: Parsed<EventReference>) {
    match ParseId(b)
    case Fail => Fail
    case Got(creator, rest) =>
      match ParseBlob(rest)
      case Fail => Fail
      case Got(hash, rest') => Got(EventReference(creator, hash), rest')
  }

  function ParseRefs(b: Bytes): (r: Parsed<seq<EventReference>>) {
    ParseCounted(ParseRef, REF_BYTES, b)
  }

  function ParseEvent(b: Bytes): (r: Parsed<Event>) {
    var p1 := ParseId(b);
    if p1.Fail? then Fail else
    var p2 := ParseBlob(p1.rest);
    if p2.Fail? then Fail else
    var p3 := ParseBlob(p2.rest);
    if p3.Fail? then Fail else
    var p4 := ParseInt(p3.rest, 8);
    if p4.Fail? then Fail else
    var p5 := ParseRefs(p4.rest);
    if p5.Fail? then Fail else
    var p6 := ParseBlob(p5.rest);
    if p6.Fail? then Fail else
    Got(Event(p1.value, p2.value, p3.value, p4.value, p5.value, p6.value), p6.rest)
  }

  function ParseClock(b: Bytes): (r: Parsed<ClockEvent>) {
    var p1 := ParseId(b);
    if p1.Fail? then Fail else
    var p2 := ParseBlob(p1.rest);
    if p2.Fail? then Fail else
    var p3 := ParseInt(p2.rest, 8);
    if p3.Fail? then Fail else
    var p4 := ParseInt(p3.rest, 8);
    if p4.Fail? then Fail else
    var p5 := ParseInt(p4.rest, 8);
    if p5.Fail? then Fail else
    var p6 := ParseRefs(p5.rest);
    if p6.Fail? then Fail else
    var p7 := ParseBlob(p6.rest);
    if p7.Fail? then Fail else
    Got(ClockEvent(p1.value, p2.value, p3.value % U32_MODULUS, Signed(p4.value), p5.value, p6.value, p7.value), p7.rest)
  }

  function ParseClocks(b: Bytes): (r: Parsed<seq<ClockEvent>>) {
    ParseCounted(ParseClock, CLOCK_BYTES, b)
  }

  function ParseChain(b: Bytes): (r: Parsed<EventChain>) {
    var p1 := ParseEvent(b);
    if p1.Fail? then Fail else
    var p2 := ParseClocks(p1.rest);
    if p2.Fail? then Fail else
    var p3 := ParseClocks(p2.rest);
    if p3.Fail? then Fail else
    Got(EventChain(p1.value, p2.value, p3.value), p3.rest)
  }

  function ParseRange(b: Bytes): (r: Parsed<TimeRange>) {
    var p1 := ParseInt(b, 8);
    if p1.Fail? then Fail else
    var p2 := ParseInt(p1.rest, 8);
    if p2.Fail? then Fail else
    Got(TimeRange(Signed(p1.value), Signed(p2.value)), p2.rest)
  }

  function ParseIds(b: Bytes): (r: Parsed<seq<NodeId>>) {
    ParseCounted(ParseId, NODE_ID_BYTES, b)
  }

  // ---------------------------------------------------------------------------
  // field widths
  // ---------------------------------------------------------------------------

  predicate IdFits(id: NodeId) {
    |id.bytes| == NODE_ID_BYTES
  }

  predicate Short(n: nat) {
    n < U32_MODULUS
  }

  predicate TickFits(t: Timestamp) {
    -(U64_MODULUS / 2) <= t < U64_MODULUS / 2
  }

  predicate RefFits(r: EventReference) {
    IdFits(r.creator) && Short(|r.hash|)
  }

  ghost predicate RefsFit(rs: seq<EventReference>) {
    Short(|rs|) && forall r :: r in rs ==> RefFits(r)
  }

  ghost predicate EventFits(e: Event) {
    IdFits(e.creator) && Short(|e.hash|) && Short(|e.data|) && e.salt < U64_MODULUS && RefsFit(e.refs) && Short(|e.signature|)
  }

  ghost predicate ClockFits(c: ClockEvent) {
    && IdFits(c.creator) && Short(|c.hash|) && Short(c.chain) && TickFits(c.timestamp)
    && c.salt < U64_MODULUS && RefsFit(c.refs) && Short(|c.signature|)
  }

  ghost predicate ClocksFit(cs: seq<ClockEvent>) {
    Short(|cs|) && forall c :: c in cs ==> ClockFits(c)
  }

  ghost predicate ChainFits(ch: EventChain) {
    EventFits(ch.event) && ClocksFit(ch.lower) && ClocksFit(ch.upper)
  }

  ghost predicate RangeFits(r: TimeRange) {
    TickFits(r.lo) && TickFits(r.hi)
  }

  ghost predicate IdsFit(ids: seq<NodeId>) {
    Short(|ids|) && forall id :: id in ids ==> IdFits(id)
  }

  // ---------------------------------------------------------------------------
  // round trips: whatever bytes follow
  // ---------------------------------------------------------------------------

  lemma Widths()
    ensures BigEndian.Pow256(1) == 256 && BigEndian.Pow256(4) == U32_MODULUS && BigEndian.Pow256(8) == U64_MODULUS
  {
    assert BigEndian.Pow256(2) == 0x1_0000;
    assert BigEndian.Pow256(3) == 0x100_0000;
    assert BigEndian.Pow256(5) == 0x100_0000_0000;
    assert BigEndian.Pow256(6) == 0x1_0000_0000_0000;
    assert BigEndian.Pow256(7) == 0x100_0000_0000_0000;
  }

  lemma IntRoundTrip(n: nat, w: nat, rest: Bytes)
    requires n < BigEndian.Pow256(w)
    ensures ParseInt(BigEndian.Encode(n, w) + rest, w) == Got(n, rest)
  {
    var b := BigEndian.Encode(n, w);
    BigEndian.DecodeEncode(n, w);
    assert (b + rest)[..w] == b && (b + rest)[w..] == rest;
  }

  lemma U32RoundTrip(n: nat, rest: Bytes)
    requires Short(n)
    ensures ParseInt(U32(n) + rest, 4) == Got(n, rest)
  {
    hide ParseInt, BigEndian.Encode, BigEndian.Pow256;
    Widths();
    IntRoundTrip(n, 4, rest);
  }

  lemma U64RoundTrip(n: int, rest: Bytes)
    ensures ParseInt(U64(n) + rest, 8) == Got(n % U64_MODULUS, rest)
  {
    hide ParseInt, BigEndian.Encode, BigEndian.Pow256;
    Widths();
    IntRoundTrip(n % U64_MODULUS, 8, rest);
  }

  /** Two's complement is undone on every 64-bit tick. */
  lemma SignedRoundTrip(t: Timestamp)
    requires TickFits(t)
    ensures Signed(t % U64_MODULUS) == t
  {
    if t < 0 {
      assert t % U64_MODULUS == t + U64_MODULUS;
    }
  }

  lemma IdRoundTrip(id: NodeId, rest: Bytes)
    requires IdFits(id)
    ensures ParseId(id.bytes + rest) == Got(id, rest)
  {
    assert (id.bytes + rest)[..NODE_ID_BYTES] == id.bytes && (id.bytes + rest)[NODE_ID_BYTES..] == rest;
  }

  lemma BlobRoundTrip(b: Bytes, rest: Bytes)
    requires Short(|b|)
    ensures ParseBlob(Blob(b) + rest) == Got(b, rest)
  {
    assert Blob(b) + rest == U32(|b|) + (b + rest);
    U32RoundTrip(|b|, b + rest);
    assert (b + rest)[..|b|] == b && (b + rest)[|b|..] == rest;
  }

  /** An encoder and a decoder that undo each other on one value, whatever follows. */
  ghost predicate Inverse<T(!new)>(enc: T -> Bytes, dec: Bytes -> Parsed<T>, x: T) {
    forall rest :: dec(enc(x) + rest) == Got(x, rest)
  }

  lemma {:induction false} ListRoundTrip<T(!new)>(enc: T -> Bytes, dec: Bytes -> Parsed<T>, xs: seq<T>, rest: Bytes)
    requires forall x :: x in xs ==> Inverse(enc, dec, x)
    ensures ParseList(dec, List(enc, xs) + rest, |xs|) == Got(xs, rest)
  {
    if xs == [] {
      assert List(enc, xs) + rest == rest;
    } else {
      var front, last := Front(xs), Last(xs);
      assert xs == front + [last];
      assert List(enc, xs) + rest == List(enc, front) + (enc(last) + rest);
      ListRoundTrip(enc, dec, front, enc(last) + rest);
      assert last in xs && Inverse(enc, dec, last);
    }
  }

  lemma {:induction false} ListLength<T>(enc: T -> Bytes, xs: seq<T>, least: nat)
    requires forall x :: x in xs ==> |enc(x)| >= least
    ensures |List(enc, xs)| >= |xs| * least
  {
    if xs != [] {
      assert xs == Front(xs) + [Last(xs)];
      ListLength(enc, Front(xs), least);
      assert |xs| * least == |Front(xs)| * least + least;
    }
  }

  /** The element-count guard never refuses a genuine encoding. */
  lemma CountedRoundTrip<T(!new)>(enc: T -> Bytes, dec: Bytes -> Parsed<T>, least: nat, xs: seq<T>, rest: Bytes)
    requires least > 0 && Short(|xs|)
    requires forall x :: x in xs ==> Inverse(enc, dec, x) && |enc(x)| >= least
    ensures ParseCounted(dec, least, (U32(|xs|) + List(enc, xs)) + rest) == Got(xs, rest)
  {
    hide List, ParseList, U32, ParseInt;
    var body := List(enc, xs) + rest;
    assert (U32(|xs|) + List(enc, xs)) + rest == U32(|xs|) + body;
    U32RoundTrip(|xs|, body);
    ListLength(enc, xs, least);
    Fits(|xs|, |body|, least);
    ListRoundTrip(enc, dec, xs, rest);
  }

  lemma Fits(n: nat, m: nat, least: nat)
    requires least > 0 && m >= n * least
    ensures n <= m / least
  {
    var q := m / least;
    Arith.Divided(m, least);
    Arith.OneMore(q, least);
    if n > q {
      Arith.Mono(q + 1, n, least);
    }
  }

  lemma RefRoundTrip(r: EventReference)
    requires RefFits(r)
    ensures Inverse(Ref, ParseRef, r) && |Ref(r)| >= REF_BYTES
  {
    forall rest
      ensures ParseRef(Ref(r) + rest) == Got(r, rest)
    {
      assert Ref(r) + rest == r.creator.bytes + (Blob(r.hash) + rest);
      IdRoundTrip(r.creator, Blob(r.hash) + rest);
      BlobRoundTrip(r.hash, rest);
    }
  }

  lemma RefsRoundTrip(rs: seq<EventReference>, rest: Bytes)
    requires RefsFit(rs)
    ensures ParseRefs(Refs(rs) + rest) == Got(rs, rest)
  {
    forall r | r in rs
      ensures Inverse(Ref, ParseRef, r) && |Ref(r)| >= REF_BYTES
    {
      RefRoundTrip(r);
    }
    CountedRoundTrip(Ref, ParseRef, REF_BYTES, rs, rest);
  }

  lemma EventRoundTrip(e: Event, rest: Bytes)
    requires EventFits(e)
    ensures ParseEvent(EventBytes(e) + rest) == Got(e, rest)
  {
    hide Blob, Refs, ParseBlob, ParseRefs, ParseId, ParseInt, U64;
    var t6 := Blob(e.signature) + rest;
    var t5 := Refs(e.refs) + t6;
    var t4 := U64(e.salt) + t5;
    var t3 := Blob(e.data) + t4;
    var t2 := Blob(e.hash) + t3;
    assert EventBytes(e) + rest == e.creator.bytes + t2;
    IdRoundTrip(e.creator, t2);
    BlobRoundTrip(e.hash, t3);
    BlobRoundTrip(e.data, t4);
    U64RoundTrip(e.salt, t5);
    RefsRoundTrip(e.refs, t6);
    BlobRoundTrip(e.signature, rest);
  }

  lemma Regroup(a: Bytes, b: Bytes, c: Bytes, d: Bytes, e: Bytes, f: Bytes, g: Bytes, rest: Bytes)
    ensures (a + (b + (c + (d + (e + (f + g)))))) + rest == a + (b + (c + (d + (e + (f + (g + rest))))))
  {
    var de, de' := d + (e + (f + g)), d + (e + (f + (g + rest)));
    assert de + rest == de';
    assert (a + (b + (c + de))) + rest == a + (b + (c + (de + rest)));
  }

  lemma ClockRoundTripWith(c: ClockEvent, rest: Bytes)
    requires ClockFits(c)
    ensures ParseClock(ClockBytes(c) + rest) == Got(c, rest)
  {
    hide Blob, Refs, ParseBlob, ParseRefs, ParseId, ParseInt, U64, Signed;
    var t7 := Blob(c.signature) + rest;
    var t6 := Refs(c.refs) + t7;
    var t5 := U64(c.salt) + t6;
    var t4 := U64(c.timestamp) + t5;
    var t3 := U64(c.chain) + t4;
    var t2 := Blob(c.hash) + t3;
    Regroup(c.creator.bytes, Blob(c.hash), U64(c.chain), U64(c.timestamp), U64(c.salt), Refs(c.refs), Blob(c.signature), rest);
    IdRoundTrip(c.creator, t2);
    BlobRoundTrip(c.hash, t3);
    U64RoundTrip(c.chain, t4);
    U64RoundTrip(c.timestamp, t5);
    SignedRoundTrip(c.timestamp);
    U64RoundTrip(c.salt, t6);
    RefsRoundTrip(c.refs, t7);
    BlobRoundTrip(c.signature, rest);
  }

  lemma ClockRoundTrip(c: ClockEvent)
    requires ClockFits(c)
    ensures Inverse(ClockBytes, ParseClock, c) && |ClockBytes(c)| >= CLOCK_BYTES
  {
    forall rest {
      ClockRoundTripWith(c, rest);
    }
  }

  lemma ClocksRoundTrip(cs: seq<ClockEvent>, rest: Bytes)
    requires ClocksFit(cs)
    ensures ParseClocks(ClockList(cs) + rest) == Got(cs, rest)
  {
    forall c | c in cs
      ensures Inverse(ClockBytes, ParseClock, c) && |ClockBytes(c)| >= CLOCK_BYTES
    {
      ClockRoundTrip(c);
    }
    CountedRoundTrip(ClockBytes, ParseClock, CLOCK_BYTES, cs, rest);
  }

  lemma ChainRoundTrip(ch: EventChain, rest: Bytes)
    requires ChainFits(ch)
    ensures ParseChain(ChainBytes(ch) + rest) == Got(ch, rest)
  {
    hide EventBytes, ClockList, ParseEvent, ParseClocks;
    var t3 := ClockList(ch.upper) + rest;
    var t2 := ClockList(ch.lower) + t3;
    assert ChainBytes(ch) + rest == EventBytes(ch.event) + t2;
    EventRoundTrip(ch.event, t2);
    ClocksRoundTrip(ch.lower, t3);
    ClocksRoundTrip(ch.upper, rest);
  }

  lemma RangeRoundTrip(r: TimeRange, rest: Bytes)
    requires RangeFits(r)
    ensures ParseRange(RangeBytes(r) + rest) == Got(r, rest)
  {
    assert RangeBytes(r) + rest == U64(r.lo) + (U64(r.hi) + rest);
    U64RoundTrip(r.lo, U64(r.hi) + rest);
    U64RoundTrip(r.hi, rest);
    SignedRoundTrip(r.lo);
    SignedRoundTrip(r.hi);
  }

  lemma IdsRoundTrip(ids: seq<NodeId>, rest: Bytes)
    requires IdsFit(ids)
    ensures ParseIds(Ids(ids) + rest) == Got(ids, rest)
  {
    forall id | id in ids
      ensures Inverse(IdBytes, ParseId, id) && |IdBytes(id)| >= NODE_ID_BYTES
    {
      forall tail {
        IdRoundTrip(id, tail);
      }
    }
    CountedRoundTrip(IdBytes, ParseId, NODE_ID_BYTES, ids, rest);
  }

  // ---------------------------------------------------------------------------
  // whatever decodes is within the field widths
  // ---------------------------------------------------------------------------

  lemma IntFits(b: Bytes, w: nat)
    ensures var r := ParseInt(b, w); r.Got? ==> r.value < BigEndian.Pow256(w)
  {
    if |b| >= w {
      BigEndian.DecodeBound(b[..w]);
    }
  }

  lemma BlobFits(b: Bytes)
    ensures var r := ParseBlob(b); r.Got? ==> Short(|r.value|)
  {
    Widths();
    IntFits(b, 4);
  }

  lemma {:induction false} ListParsed<T>(dec: Bytes -> Parsed<T>, b: Bytes, n: nat)
    ensures var r := ParseList(dec, b, n);
      r.Got? ==> |r.value| == n && forall i :: 0 <= i < n ==> exists s :: dec(s).Got? && dec(s).value == r.value[i]
  {
    if n > 0 {
      ListParsed(dec, b, n - 1);
    }
  }

  lemma CountedParsed<T>(dec: Bytes -> Parsed<T>, least: nat, b: Bytes, i: nat)
    requires least > 0
    ensures var r := ParseCounted(dec, least, b); r.Got? ==> Short(|r.value|)
    ensures var r := ParseCounted(dec, least, b);
      r.Got? && i < |r.value| ==> exists s :: dec(s).Got? && dec(s).value == r.value[i]
  {
    Widths();
    IntFits(b, 4);
    var p := ParseInt(b, 4);
    if p.Got? {
      ListParsed(dec, p.rest, p.value);
    }
  }

  lemma RefsParsed(b: Bytes)
    ensures var r := ParseRefs(b); r.Got? ==> RefsFit(r.value)
  {
    var r := ParseRefs(b);
    CountedParsed(ParseRef, REF_BYTES, b, 0);
    if r.Got? {
      forall x | x in r.value
        ensures RefFits(x)
      {
        var i :| 0 <= i < |r.value| && r.value[i] == x;
        CountedParsed(ParseRef, REF_BYTES, b, i);
        var s :| ParseRef(s).Got? && ParseRef(s).value == x;
        BlobFits(ParseId(s).rest);
      }
    }
  }

  lemma EventParsed(b: Bytes)
    ensures var r := ParseEvent(b); r.Got? ==> EventFits(r.value)
  {
    hide ParseBlob, ParseRefs, ParseInt, RefsFit;
    if ParseEvent(b).Got? {
      var p1 := ParseId(b);
      var p2 := ParseBlob(p1.rest);
      var p3 := ParseBlob(p2.rest);
      var p4 := ParseInt(p3.rest, 8);
      var p5 := ParseRefs(p4.rest);
      BlobFits(p1.rest);
      BlobFits(p2.rest);
      Widths();
      IntFits(p3.rest, 8);
      RefsParsed(p4.rest);
      BlobFits(p5.rest);
    }
  }

  lemma SignedFits(n: nat)
    requires n < U64_MODULUS
    ensures TickFits(Signed(n))
  {
  }

  lemma ClockParsed(b: Bytes)
    ensures var r := ParseClock(b); r.Got? ==> ClockFits(r.value)
  {
    hide ParseBlob, ParseRefs, ParseInt, RefsFit, Signed, TickFits;
    if ParseClock(b).Got? {
      var p1 := ParseId(b);
      var p2 := ParseBlob(p1.rest);
      var p3 := ParseInt(p2.rest, 8);
      var p4 := ParseInt(p3.rest, 8);
      var p5 := ParseInt(p4.rest, 8);
      var p6 := ParseRefs(p5.rest);
      BlobFits(p1.rest);
      Widths();
      IntFits(p3.rest, 8);
      SignedFits(p4.value);
      IntFits(p4.rest, 8);
      RefsParsed(p5.rest);
      BlobFits(p6.rest);
    }
  }

  lemma ClocksParsed(b: Bytes)
    ensures var r := ParseClocks(b); r.Got? ==> ClocksFit(r.value)
  {
    var r := ParseClocks(b);
    CountedParsed(ParseClock, CLOCK_BYTES, b, 0);
    if r.Got? {
      forall x | x in r.value
        ensures ClockFits(x)
      {
        var i :| 0 <= i < |r.value| && r.value[i] == x;
        CountedParsed(ParseClock, CLOCK_BYTES, b, i);
        var s :| ParseClock(s).Got? && ParseClock(s).value == x;
        ClockParsed(s);
      }
    }
  }

  lemma ChainParsed(b: Bytes)
    ensures var r := ParseChain(b); r.Got? ==> ChainFits(r.value)
  {
    hide ParseEvent, ParseClocks, EventFits, ClocksFit;
    if ParseChain(b).Got? {
      var p1 := ParseEvent(b);
      var p2 := ParseClocks(p1.rest);
      EventParsed(b);
      ClocksParsed(p1.rest);
      ClocksParsed(p2.rest);
    }
  }

  lemma RangeParsed(b: Bytes)
    ensures var r := ParseRange(b); r.Got? ==> RangeFits(r.value)
  {
    if ParseRange(b).Got? {
      var p1 := ParseInt(b, 8);
      Widths();
      IntFits(b, 8);
      IntFits(p1.rest, 8);
    }
  }

  lemma IdsParsed(b: Bytes)
    ensures var r := ParseIds(b); r.Got? ==> IdsFit(r.value)
  {
    var r := ParseIds(b);
    CountedParsed(ParseId, NODE_ID_BYTES, b, 0);
    if r.Got? {
      forall x | x in r.value
        ensures IdFits(x)
      {
        var i :| 0 <= i < |r.value| && r.value[i] == x;
        CountedParsed(ParseId, NODE_ID_BYTES, b, i);
      }
    }
  }
}
