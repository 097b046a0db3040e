/** Portable proofs: their binary form and their offline verification. */
module Proofs {
  import opened Domain
  import opened Hashing
  import opened Wire
  import BigEndian
  import Codec
  import Tamper
  import Validate

  const MAGIC: nat := 0x4C4F_5449_5052_4F46
  const VERSION: nat := 1

  const BOUNDS: Byte := 0
  const ORDER: Byte := 1
  const CHAIN: Byte := 2

  /** `kind` and `order` are the raw enumeration values; a reader does not check them. */
  datatype Proof = Proof(kind: Byte, node: NodeId, pubkey: Bytes, chain: EventChain, chain2: EventChain, order: int)

  const NO_ID: NodeId := NodeId([0, 0, 0, 0, 0, 0, 0, 0, 0, 0, 0, 0, 0, 0, 0, 0])
  const NO_CHAIN: EventChain := EventChain(Event(NO_ID, [], [], 0, [], []), [], [])

  function OrderCode(o: Order): int {
    match o
    case Before => -1
    case Undetermined => 0
    case After => 1
  }

  // ---------------------------------------------------------------------------
  // layout
  // ---------------------------------------------------------------------------

  /** A signed byte on the wire, and back. */
  function ToByte(n: int): Byte {
    n % 256
  }

  function FromByte(b: Byte): int {
    if b < 128 then b else b - 256
  }

  function OrderPart(p: Proof): (b: Bytes) {
    if p.kind == ORDER then ChainBytes(p.chain2) + [ToByte(p.order)] else []
  }

  function ProofBytes(p: Proof): (b: Bytes) {
    U64(MAGIC) + (U64(VERSION) + ([p.kind] + (p.node.bytes + (Blob(p.pubkey) + (ChainBytes(p.chain) + OrderPart(p))))))
  }

  function ParseOrderPart(kind: Byte, b: Bytes): (r: Parsed<(EventChain, int)>) {
    if kind != ORDER then Got((NO_CHAIN, 0), b)
    else
      var p1 := ParseChain(b);
      if p1.Fail? || p1.rest == [] then Fail
      else Got((p1.value, FromByte(p1.rest[0])), p1.rest[1..])
  }

  /** Magic, version, kind. */
  function ParseHeader(b: Bytes): (r: Parsed<Byte>) {
    var p1 := ParseInt(b, 8);
    if p1.Fail? || p1.value != MAGIC then Fail else
    var p2 := ParseInt(p1.rest, 8);
    if p2.Fail? || p2.value != VERSION || p2.rest == [] then Fail else
    Got(p2.rest[0], p2.rest[1..])
  }

  function ParseProof(b: Bytes): (r: Parsed<Proof>) {
    var p2 := ParseHeader(b);
    if p2.Fail? then Fail else
    var kind := p2.value;
    var p3 := ParseId(p2.rest);
    if p3.Fail? then Fail else
    var p4 := ParseBlob(p3.rest);
    if p4.Fail? then Fail else
    var p5 := ParseChain(p4.rest);
    if p5.Fail? then Fail else
    var p6 := ParseOrderPart(kind, p5.rest);
    if p6.Fail? then Fail else
    Got(Proof(kind, p3.value, p4.value, p5.value, p6.value.0, p6.value.1), p6.rest)
  }

  ghost predicate ProofFits(p: Proof) {
    && IdFits(p.node) && Short(|p.pubkey|) && ChainFits(p.chain)
    && (p.kind == ORDER ==> ChainFits(p.chain2) && -128 <= p.order < 128)
  }

  /** The proof as its form carries it: only order proofs carry a second chain and an order. */
  function Carried(p: Proof): Proof {
    if p.kind == ORDER then p else p.(chain2 := NO_CHAIN, order := 0)
  }

  // ---------------------------------------------------------------------------
  // round trip
  // ---------------------------------------------------------------------------

  lemma OrderPartRoundTrip(p: Proof, rest: Bytes)
    requires ProofFits(p)
    ensures ParseOrderPart(p.kind, OrderPart(p) + rest) == Got((Carried(p).chain2, Carried(p).order), rest)
  {
    hide ParseChain, ChainBytes, ChainFits;
    if p.kind == ORDER {
      var t := [ToByte(p.order)] + rest;
      assert OrderPart(p) + rest == ChainBytes(p.chain2) + t;
      ChainRoundTrip(p.chain2, t);
      assert t[1..] == rest;
    } else {
      assert OrderPart(p) + rest == rest;
    }
  }

  /** Every proof within the field widths reads back as what its form carries, whatever follows. */
  lemma ProofRoundTrip(p: Proof, rest: Bytes)
    requires ProofFits(p)
    ensures ParseProof(ProofBytes(p) + rest) == Got(Carried(p), rest)
  {
    hide ParseChain, ChainBytes, ChainFits, Blob, ParseBlob, ParseInt, ParseId, U64, ParseOrderPart, OrderPart;
    var t7 := OrderPart(p) + rest;
    var t6 := ChainBytes(p.chain) + t7;
    var t5 := Blob(p.pubkey) + t6;
    var t4 := p.node.bytes + t5;
    var t3 := [p.kind] + t4;
    var t2 := U64(VERSION) + t3;
    Regroup(U64(MAGIC), U64(VERSION), [p.kind], p.node.bytes, Blob(p.pubkey), ChainBytes(p.chain), OrderPart(p), rest);
    assert ProofBytes(p) + rest == U64(MAGIC) + t2;
    U64RoundTrip(MAGIC, t2);
    U64RoundTrip(VERSION, t3);
    assert t3[0] == p.kind && t3[1..] == t4;
    IdRoundTrip(p.node, t5);
    BlobRoundTrip(p.pubkey, t6);
    ChainRoundTrip(p.chain, t7);
    OrderPartRoundTrip(p, rest);
  }

  // ---------------------------------------------------------------------------
  // the code
  // ---------------------------------------------------------------------------

  method Serialize(p: Proof) returns (b: Bytes)
    ensures b == ProofBytes(p)
  {
    hide Blob, U64, ChainBytes;
    var w := new Codec.Writer();
    w.PutU64(MAGIC);
    w.PutU64(VERSION);
    w.PutU8(p.kind);
    w.PutId(p.node);
    w.PutBlob(p.pubkey);
    w.PutChain(p.chain);
    ghost var sofar := w.buf;
    if p.kind == ORDER {
      w.PutChain(p.chain2);
      w.PutU8(ToByte(p.order));
    }
    assert w.buf == sofar + OrderPart(p);
    Codec.RegroupClock([], U64(MAGIC), U64(VERSION), [p.kind], p.node.bytes, Blob(p.pubkey), ChainBytes(p.chain), OrderPart(p));
    b := w.buf;
  }

  method Deserialize(b: Bytes) returns (p: Option<Proof>)
    ensures p == (var r := ParseProof(b); if r.Got? then Some(r.value) else None)
  {
    hide ParseChain, ParseBlob, ParseHeader, ParseId, ParseOrderPart;
    var r := new Codec.Reader(b);
    var kind := GetHeader(r);
    if kind == None { return None; }
    var node := r.GetId();
    if node == None { return None; }
    var pubkey := r.GetBlob();
    if pubkey == None { return None; }
    var chain := r.GetChain();
    if chain == None { return None; }
    var second := GetOrderPart(r, kind.value);
    if second == None { return None; }
    p := Some(Proof(kind.value, node.value, pubkey.value, chain.value, second.value.0, second.value.1));
  }

  method GetHeader(r: Codec.Reader) returns (kind: Option<Byte>)
    requires r.Valid()
    modifies r
    ensures r.Valid() && Codec.Reads(ParseHeader(old(r.Left())), kind, r.Left())
  {
    hide ParseInt;
    var magic := r.GetInt(8);
    if magic == None || magic.value != MAGIC { return None; }
    var version := r.GetInt(8);
    if version == None || version.value != VERSION { return None; }
    kind := r.GetU8();
  }

  method GetOrderPart(r: Codec.Reader, kind: Byte) returns (part: Option<(EventChain, int)>)
    requires r.Valid()
    modifies r
    ensures r.Valid() && Codec.Reads(ParseOrderPart(kind, old(r.Left())), part, r.Left())
  {
    hide ParseChain;
    if kind != ORDER {
      return Some((NO_CHAIN, 0));
    }
    var chain := r.GetChain();
    if chain == None { return None; }
    var order := r.GetU8();
    if order == None { return None; }
    part := Some((chain.value, FromByte(order.value)));
  }

  // ---------------------------------------------------------------------------
  // verification
  // ---------------------------------------------------------------------------

  datatype Failure = PubkeyMismatch | Unsound(fault: Validate.Fault) | Unsound2(fault: Validate.Fault) | OrderMismatch

  datatype Result = Valid(lower: Timestamp, upper: Timestamp, order: int) | Invalid(why: Failure)

  /** The first 16 digest bytes, zero-padded should the digest be shorter. */
  function FirstBytes(digest: Bytes, k: nat): (r: Bytes)
    ensures |r| == k && forall i :: 0 <= i < k ==> r[i] == if i < |digest| then digest[i] else 0
  {
    if k == 0 then [] else FirstBytes(digest, k - 1) + [if k - 1 < |digest| then digest[k - 1] else 0]
  }

  function Fingerprint(cr: Crypto, pubkey: Bytes): NodeId {
    NodeId(FirstBytes(cr.sha(pubkey), NODE_ID_BYTES))
  }

  /** What a valid proof proves: the reference is who it says, its chains are sound and, for an
      order proof, the recorded order is the one their intervals imply. */
  ghost predicate Proves(cr: Crypto, p: Proof) {
    && (p.pubkey == [] || Fingerprint(cr, p.pubkey) == p.node)
    && Validate.Sound(cr, p.chain, p.node)
    && (p.kind == ORDER ==>
          && Validate.Sound(cr, p.chain2, p.node)
          && p.order == OrderCode(Validate.Compare(p.chain, p.chain2)))
  }

  /** What each failure claims about the proof. */
  ghost predicate Explains(why: Failure, cr: Crypto, p: Proof) {
    match why
    case PubkeyMismatch => p.pubkey != [] && Fingerprint(cr, p.pubkey) != p.node
    case Unsound(fault) => Validate.Holds(fault, cr, p.chain, p.node)
    case Unsound2(fault) => p.kind == ORDER && Validate.Holds(fault, cr, p.chain2, p.node)
    case OrderMismatch =>
      && p.kind == ORDER && Validate.Sound(cr, p.chain, p.node) && Validate.Sound(cr, p.chain2, p.node)
      && p.order != OrderCode(Validate.Compare(p.chain, p.chain2))
  }

  /** Offline verification accepts exactly the proofs that prove something, and reports what. */
  method Verify(cr: Crypto, p: Proof) returns (r: Result)
    ensures r.Valid? <==> Proves(cr, p)
    ensures r.Valid? ==> r.lower == p.chain.lower[0].timestamp && r.upper == Last(p.chain.upper).timestamp
    ensures r.Valid? ==> r.order == if p.kind == ORDER then p.order else 0
    ensures r.Invalid? ==> Explains(r.why, cr, p)
  {
    hide Validate.Holds, Fingerprint;
    if p.pubkey != [] && Fingerprint(cr, p.pubkey) != p.node {
      return Invalid(PubkeyMismatch);
    }
    var c1 := Validate.VerifyChain(cr, p.chain, p.node);
    if c1.Rejected? {
      return Invalid(Unsound(c1.fault));
    }
    if p.kind == ORDER {
      var c2 := Validate.VerifyChain(cr, p.chain2, p.node);
      if c2.Rejected? {
        return Invalid(Unsound2(c2.fault));
      }
      if OrderCode(Validate.Compare(p.chain, p.chain2)) != p.order {
        return Invalid(OrderMismatch);
      }
      return Valid(c1.lower, c1.upper, p.order);
    }
    r := Valid(c1.lower, c1.upper, 0);
  }

  /** The recorded order says how the two intervals lie: -1 if the first ends before the second
      starts, 1 if the reverse, 0 if they have an instant in common. */
  ghost predicate Records(order: int, a: TimeRange, b: TimeRange) {
    && -1 <= order <= 1
    && (order == -1 <==> Validate.Precedes(a, b))
    && (order == 1 <==> Validate.Precedes(b, a))
    && (order == 0 <==> Validate.Meet(a, b))
  }

  /** An order proof with a matching key is valid if and only if both chains are sound for the
      reference and the recorded order says how their intervals lie. */
  lemma OrderProofIsExact(cr: Crypto, p: Proof)
    requires p.kind == ORDER && (p.pubkey == [] || Fingerprint(cr, p.pubkey) == p.node)
    ensures Proves(cr, p) <==>
      && Validate.Sound(cr, p.chain, p.node) && Validate.Sound(cr, p.chain2, p.node)
      && Records(p.order, Validate.Interval(p.chain), Validate.Interval(p.chain2))
  {
    if Validate.Sound(cr, p.chain, p.node) && Validate.Sound(cr, p.chain2, p.node) {
      hide Validate.Precedes, Validate.Meet, Fingerprint;
      Validate.CompareIsExact(p.chain, p.chain2);
    }
  }

  /** A valid proof one of whose clock events is rewritten under its hash in a hashed field is
      no longer valid. */
  lemma ForgedProofIsInvalid(cr: Crypto, p: Proof, i: nat, c: ClockEvent)
    requires Tamper.Injective(cr.sha) && Proves(cr, p)
    ensures i < |p.chain.lower| && c.hash == p.chain.lower[i].hash && !Tamper.SameClock(c, p.chain.lower[i]) ==>
            !Proves(cr, p.(chain := p.chain.(lower := p.chain.lower[i := c])))
    ensures i < |p.chain.upper| && c.hash == p.chain.upper[i].hash && !Tamper.SameClock(c, p.chain.upper[i]) ==>
            !Proves(cr, p.(chain := p.chain.(upper := p.chain.upper[i := c])))
  {
    hide Validate.Sound, Tamper.SameClock, Validate.Compare, Fingerprint;
    Tamper.RewrittenClockIsRejected(cr, p.chain, p.node, i, c);
  }

  /** What is verified after a trip through its binary form is what was verified before it. */
  lemma VerdictSurvivesTheWire(cr: Crypto, p: Proof, rest: Bytes)
    requires ProofFits(p)
    ensures var q := ParseProof(ProofBytes(p) + rest); q.Got? && (Proves(cr, q.value) <==> Proves(cr, p))
  {
    hide Validate.Sound, ParseProof, ProofBytes, ProofFits;
    ProofRoundTrip(p, rest);
  }
}
