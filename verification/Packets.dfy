/** The three datagram types behind their common header. */
module Packets {
  import opened Domain
  import opened Hashing
  import opened Wire
  import opened NodeModel
  import BigEndian
  import Codec

  const CLOCK_NOTIFICATION: Byte := 0
  const CHAIN_REQUEST: Byte := 1
  const CHAIN_RESPONSE: Byte := 2

  const HEADER_BYTES: nat := 1 + NODE_ID_BYTES

  datatype Datagram = Datagram(sender: NodeId, payload: Payload)

  // ---------------------------------------------------------------------------
  // layout
  // ---------------------------------------------------------------------------

  function TypeOf(m: Payload): Byte {
    if m.ClockNotification? then CLOCK_NOTIFICATION else if m.ChainRequest? then CHAIN_REQUEST else CHAIN_RESPONSE
  }

  function Body(m: Payload): (b: Bytes) {
    match m
    case ClockNotification(chain, hash, theirs) => U64(chain) + (Blob(hash) + Blob(theirs))
    case ChainRequest(originator, event, range, hopLimit, path) =>
      originator.bytes + (event.creator.bytes + (Blob(event.hash) + (RangeBytes(range) + (U64(hopLimit) + Ids(path)))))
    case ChainResponse(originator, chain, path) => originator.bytes + (ChainBytes(chain) + Ids(path))
  }

  function PacketBytes(d: Datagram): (b: Bytes) {
    [TypeOf(d.payload)] + (d.sender.bytes + Body(d.payload))
  }

  function ParseNotification(b: Bytes): (r: Parsed<Payload>) {
    var p1 := ParseInt(b, 8);
    if p1.Fail? then Fail else
    var p2 := ParseBlob(p1.rest);
    if p2.Fail? then Fail else
    var p3 := ParseBlob(p2.rest);
    if p3.Fail? then Fail else
    Got(ClockNotification(p1.value % U32_MODULUS, p2.value, p3.value), p3.rest)
  }

  function ParseRequest(b: Bytes): (r: Parsed<Payload>) {
    var p1 := ParseId(b);
    if p1.Fail? then Fail else
    var p2 := ParseId(p1.rest);
    if p2.Fail? then Fail else
    var p3 := ParseBlob(p2.rest);
    if p3.Fail? then Fail else
    var p4 := ParseRange(p3.rest);
    if p4.Fail? then Fail else
    var p5 := ParseInt(p4.rest, 8);
    if p5.Fail? then Fail else
    var p6 := ParseIds(p5.rest);
    if p6.Fail? then Fail else
    Got(ChainRequest(p1.value, EventReference(p2.value, p3.value), p4.value, p5.value % U32_MODULUS, p6.value), p6.rest)
  }

  function ParseResponse(b: Bytes): (r: Parsed<Payload>) {
    var p1 := ParseId(b);
    if p1.Fail? then Fail else
    var p2 := ParseChain(p1.rest);
    if p2.Fail? then Fail else
    var p3 := ParseIds(p2.rest);
    if p3.Fail? then Fail else
    Got(ChainResponse(p1.value, p2.value, p3.value), p3.rest)
  }

  function ParseBody(kind: Byte, b: Bytes): (r: Parsed<Payload>) {
    if kind == CLOCK_NOTIFICATION then ParseNotification(b)
    else if kind == CHAIN_REQUEST then ParseRequest(b)
    else if kind == CHAIN_RESPONSE then ParseResponse(b)
    else Fail
  }

  /** Bytes after the payload are ignored. */
  function ParsePacket(b: Bytes): (r: Parsed<Datagram>) {
    if b == [] then Fail else
    var p1 := ParseId(b[1..]);
    if p1.Fail? then Fail else
    var p2 := ParseBody(b[0], p1.rest);
    if p2.Fail? then Fail else
    Got(Datagram(p1.value, p2.value), p2.rest)
  }

  ghost predicate PayloadFits(m: Payload) {
    match m
    case ClockNotification(chain, hash, theirs) => Short(chain) && Short(|hash|) && Short(|theirs|)
    case ChainRequest(originator, event, range, hopLimit, path) =>
      IdFits(originator) && RefFits(event) && RangeFits(range) && Short(hopLimit) && IdsFit(path)
    case ChainResponse(originator, chain, path) => IdFits(originator) && ChainFits(chain) && IdsFit(path)
  }

  ghost predicate DatagramFits(d: Datagram) {
    IdFits(d.sender) && PayloadFits(d.payload)
  }

  // ---------------------------------------------------------------------------
  // round trips
  // ---------------------------------------------------------------------------

  lemma NotificationRoundTrip(m: Payload, rest: Bytes)
    requires m.ClockNotification? && PayloadFits(m)
    ensures ParseNotification(Body(m) + rest) == Got(m, rest)
  {
    hide Blob, ParseBlob, ParseInt, U64;
    var t3 := Blob(m.theirs) + rest;
    var t2 := Blob(m.hash) + t3;
    assert Body(m) + rest == U64(m.chain) + t2;
    U64RoundTrip(m.chain, t2);
    BlobRoundTrip(m.hash, t3);
    BlobRoundTrip(m.theirs, rest);
  }

  lemma RequestRoundTrip(m: Payload, rest: Bytes)
    requires m.ChainRequest? && PayloadFits(m)
    ensures ParseRequest(Body(m) + rest) == Got(m, rest)
  {
    hide Blob, ParseBlob, ParseInt, U64, ParseId, ParseIds, Ids, ParseRange, RangeBytes;
    var t6 := Ids(m.path) + rest;
    var t5 := U64(m.hopLimit) + t6;
    var t4 := RangeBytes(m.range) + t5;
    var t3 := Blob(m.event.hash) + t4;
    var t2 := m.event.creator.bytes + t3;
    Regroup([], m.originator.bytes, m.event.creator.bytes, Blob(m.event.hash), RangeBytes(m.range), U64(m.hopLimit), Ids(m.path), rest);
    assert Body(m) + rest == m.originator.bytes + t2;
    IdRoundTrip(m.originator, t2);
    IdRoundTrip(m.event.creator, t3);
    BlobRoundTrip(m.event.hash, t4);
    RangeRoundTrip(m.range, t5);
    U64RoundTrip(m.hopLimit, t6);
    IdsRoundTrip(m.path, rest);
  }

  lemma ResponseRoundTrip(m: Payload, rest: Bytes)
    requires m.ChainResponse? && PayloadFits(m)
    ensures ParseResponse(Body(m) + rest) == Got(m, rest)
  {
    hide ParseId, ParseIds, Ids, ParseChain, ChainBytes, ChainFits;
    var t3 := Ids(m.path) + rest;
    var t2 := ChainBytes(m.eventChain) + t3;
    assert Body(m) + rest == m.originator.bytes + t2;
    IdRoundTrip(m.originator, t2);
    ChainRoundTrip(m.eventChain, t3);
    IdsRoundTrip(m.path, rest);
  }

  /** Every datagram within the field widths decodes from its own encoding to itself, whatever
      bytes follow it. */
  lemma PacketRoundTrip(d: Datagram, rest: Bytes)
    requires DatagramFits(d)
    ensures ParsePacket(PacketBytes(d) + rest) == Got(d, rest)
  {
    hide Body, ParseId, ParseNotification, ParseRequest, ParseResponse, PayloadFits;
    var tail := Body(d.payload) + rest;
    var b := PacketBytes(d) + rest;
    assert b[0] == TypeOf(d.payload) && b[1..] == d.sender.bytes + tail;
    IdRoundTrip(d.sender, tail);
    if d.payload.ClockNotification? {
      NotificationRoundTrip(d.payload, rest);
    } else if d.payload.ChainRequest? {
      RequestRoundTrip(d.payload, rest);
    } else {
      ResponseRoundTrip(d.payload, rest);
    }
  }

  lemma BodyParsed(kind: Byte, b: Bytes)
    ensures var r := ParseBody(kind, b); r.Got? ==> PayloadFits(r.value)
  {
    hide ParseBlob, ParseInt, ParseIds, ParseRange, ParseChain, ChainFits, RangeFits, IdsFit;
    if ParseBody(kind, b).Got? {
      if kind == CLOCK_NOTIFICATION {
        var p1 := ParseInt(b, 8);
        BlobFits(p1.rest);
        BlobFits(ParseBlob(p1.rest).rest);
      } else if kind == CHAIN_REQUEST {
        var p2 := ParseId(ParseId(b).rest);
        var p3 := ParseBlob(p2.rest);
        var p4 := ParseRange(p3.rest);
        BlobFits(p2.rest);
        RangeParsed(p3.rest);
        IdsParsed(ParseInt(p4.rest, 8).rest);
      } else {
        var p1 := ParseId(b);
        ChainParsed(p1.rest);
        IdsParsed(ParseChain(p1.rest).rest);
      }
    }
  }

  /** Whatever bytes decode, the decoded datagram re-encodes to bytes that decode to it again. */
  lemma DecodingIsStable(b: Bytes)
    ensures var r := ParsePacket(b); r.Got? ==> DatagramFits(r.value) && ParsePacket(PacketBytes(r.value)) == Got(r.value, [])
  {
    hide ParseBody, PayloadFits, PacketBytes;
    var r := ParsePacket(b);
    if r.Got? {
      BodyParsed(b[0], ParseId(b[1..]).rest);
      hide ParsePacket;
      PacketRoundTrip(r.value, []);
      assert PacketBytes(r.value) + [] == PacketBytes(r.value);
    }
  }

  // ---------------------------------------------------------------------------
  // the code
  // ---------------------------------------------------------------------------

  method Encode(d: Datagram) returns (b: Bytes)
    ensures b == PacketBytes(d)
  {
    hide Body;
    var w := new Codec.Writer();
    w.PutU8(TypeOf(d.payload));
    w.PutId(d.sender);
    PutBody(w, d.payload);
    b := w.buf;
  }

  method PutBody(w: Codec.Writer, m: Payload)
    modifies w
    ensures w.buf == old(w.buf) + Body(m)
  {
    hide Blob, U64, RangeBytes, Ids, ChainBytes;
    match m {
      case ClockNotification(chain, hash, theirs) =>
        w.PutU64(chain);
        w.PutBlob(hash);
        w.PutBlob(theirs);
      case ChainRequest(originator, event, range, hopLimit, path) =>
        w.PutId(originator);
        w.PutId(event.creator);
        w.PutBlob(event.hash);
        w.PutRange(range);
        w.PutU64(hopLimit);
        w.PutIds(path);
        Codec.RegroupEvent(old(w.buf), originator.bytes, event.creator.bytes, Blob(event.hash), RangeBytes(range), U64(hopLimit), Ids(path));
      case ChainResponse(originator, chain, path) =>
        w.PutId(originator);
        w.PutChain(chain);
        w.PutIds(path);
    }
  }

  method DecodeBody(r: Codec.Reader, kind: Byte) returns (m: Option<Payload>)
    requires r.Valid()
    modifies r
    ensures r.Valid() && Codec.Reads(ParseBody(kind, old(r.Left())), m, r.Left())
  {
    hide ParseBlob, ParseInt, ParseId, ParseIds, ParseRange, ParseChain;
    if kind == CLOCK_NOTIFICATION {
      var chain := r.GetInt(8);
      if chain == None { return None; }
      var hash := r.GetBlob();
      if hash == None { return None; }
      var theirs := r.GetBlob();
      if theirs == None { return None; }
      m := Some(ClockNotification(chain.value % U32_MODULUS, hash.value, theirs.value));
    } else if kind == CHAIN_REQUEST {
      var originator := r.GetId();
      if originator == None { return None; }
      var creator := r.GetId();
      if creator == None { return None; }
      var hash := r.GetBlob();
      if hash == None { return None; }
      var range := r.GetRange();
      if range == None { return None; }
      var hopLimit := r.GetInt(8);
      if hopLimit == None { return None; }
      var path := r.GetIds();
      if path == None { return None; }
      m := Some(ChainRequest(originator.value, EventReference(creator.value, hash.value), range.value, hopLimit.value % U32_MODULUS, path.value));
    } else if kind == CHAIN_RESPONSE {
      var originator := r.GetId();
      if originator == None { return None; }
      var chain := r.GetChain();
      if chain == None { return None; }
      var path := r.GetIds();
      if path == None { return None; }
      m := Some(ChainResponse(originator.value, chain.value, path.value));
    } else {
      m := None;
    }
  }

  /** Decoding any bytes ends in a datagram or in the error, never past the end of the buffer. */
  method Decode(b: Bytes) returns (d: Option<Datagram>)
    ensures d == (var p := ParsePacket(b); if p.Got? then Some(p.value) else None)
  {
    hide ParseId, ParseBody;
    var r := new Codec.Reader(b);
    var kind := r.GetU8();
    if kind == None { return None; }
    var sender := r.GetId();
    if sender == None { return None; }
    var m := DecodeBody(r, kind.value);
    if m == None { return None; }
    d := Some(Datagram(sender.value, m.value));
  }

  /** Just the header's sender, without decoding the payload. */
  method SenderOf(b: Bytes) returns (id: Option<NodeId>)
    ensures id.Some? <==> |b| >= HEADER_BYTES
    ensures ParsePacket(b).Got? ==> id == Some(ParsePacket(b).value.sender)
  {
    if |b| < HEADER_BYTES {
      return None;
    }
    var bytes: Bytes := [];
    for i := 0 to NODE_ID_BYTES
      invariant bytes == b[1..1 + i]
    {
      bytes := bytes + [b[1 + i]];
    }
    assert bytes == b[1..][..NODE_ID_BYTES];
    id := Some(NodeId(bytes));
  }
}
