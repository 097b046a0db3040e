/** The codec itself: a writer that appends to a buffer and a reader that walks one, each
    proved to produce and to accept exactly the wire layout. */
module Codec {
  import opened Domain
  import opened Hashing
  import opened Wire
  import BigEndian

  // ---------------------------------------------------------------------------
  // shifting bytes out
  // ---------------------------------------------------------------------------

  /** `n` shifted right by `k` bytes. */
  function ShiftRight(n: nat, k: nat): (r: nat) {
    if k == 0 then n else ShiftRight(n / 256, k - 1)
  }

  lemma {:induction false} ShiftOnce(n: nat, k: nat)
    ensures ShiftRight(n, k + 1) == ShiftRight(n, k) / 256
  {
    if k > 0 {
      ShiftOnce(n / 256, k - 1);
    }
  }

  // ---------------------------------------------------------------------------
  // writer
  // ---------------------------------------------------------------------------

  class Writer {
    var buf: Bytes

    constructor ()
      ensures buf == []
    {
      buf := [];
    }

    method PutU8(v: Byte)
      modifies this
      ensures buf == old(buf) + [v]
    {
      buf := buf + [v];
    }

    /** Most significant byte first, by shifting. */
    method PutInt(n: nat, w: nat)
      modifies this
      ensures buf == old(buf) + BigEndian.Encode(n, w)
    {
      for i := 0 to w
        invariant buf == old(buf) + BigEndian.Encode(ShiftRight(n, w - i), i)
      {
        ShiftOnce(n, w - 1 - i);
        buf := buf + [ShiftRight(n, w - 1 - i) % 256];
      }
    }

    method PutU32(n: nat)
      modifies this
      ensures buf == old(buf) + U32(n)
    {
      PutInt(n % U32_MODULUS, 4);
    }

    method PutU64(n: int)
      modifies this
      ensures buf == old(buf) + U64(n)
    {
      PutInt(n % U64_MODULUS, 8);
    }

    method PutId(id: NodeId)
      modifies this
      ensures buf == old(buf) + id.bytes
    {
      buf := buf + id.bytes;
    }

    method PutBlob(b: Bytes)
      modifies this
      ensures buf == old(buf) + Blob(b)
    {
      PutU32(|b|);
      buf := buf + b;
    }

    method PutRefs(rs: seq<EventReference>)
      modifies this
      ensures buf == old(buf) + Refs(rs)
    {
      hide U32;
      PutU32(|rs|);
      for i := 0 to |rs|
        invariant buf == old(buf) + (U32(|rs|) + List(Ref, rs[..i]))
      {
        PutId(rs[i].creator);
        PutBlob(rs[i].hash);
        assert Front(rs[..i + 1]) == rs[..i];
      }
      assert rs[..|rs|] == rs;
    }

    method PutEvent(e: Event)
      modifies this
      ensures buf == old(buf) + EventBytes(e)
    {
      hide Blob, Refs, U64;
      PutId(e.creator);
      PutBlob(e.hash);
      PutBlob(e.data);
      PutU64(e.salt);
      PutRefs(e.refs);
      PutBlob(e.signature);
      RegroupEvent(old(buf), e.creator.bytes, Blob(e.hash), Blob(e.data), U64(e.salt), Refs(e.refs), Blob(e.signature));
    }

    method PutClock(c: ClockEvent)
      modifies this
      ensures buf == old(buf) + ClockBytes(c)
    {
      hide Blob, Refs, U64;
      PutId(c.creator);
      PutBlob(c.hash);
      PutU64(c.chain);
      PutU64(c.timestamp);
      PutU64(c.salt);
      PutRefs(c.refs);
      PutBlob(c.signature);
      RegroupClock(old(buf), c.creator.bytes, Blob(c.hash), U64(c.chain), U64(c.timestamp), U64(c.salt), Refs(c.refs), Blob(c.signature));
    }

    method PutClocks(cs: seq<ClockEvent>)
      modifies this
      ensures buf == old(buf) + ClockList(cs)
    {
      hide U32, ClockBytes;
      PutU32(|cs|);
      for i := 0 to |cs|
        invariant buf == old(buf) + (U32(|cs|) + List(ClockBytes, cs[..i]))
      {
        PutClock(cs[i]);
        assert Front(cs[..i + 1]) == cs[..i];
      }
      assert cs[..|cs|] == cs;
    }

    method PutChain(ch: EventChain)
      modifies this
      ensures buf == old(buf) + ChainBytes(ch)
    {
      hide EventBytes, ClockList;
      PutEvent(ch.event);
      PutClocks(ch.lower);
      PutClocks(ch.upper);
    }

    method PutRange(r: TimeRange)
      modifies this
      ensures buf == old(buf) + RangeBytes(r)
    {
      hide U64;
      PutU64(r.lo);
      PutU64(r.hi);
    }

    method PutIds(ids: seq<NodeId>)
      modifies this
      ensures buf == old(buf) + Ids(ids)
    {
      hide U32;
      PutU32(|ids|);
      for i := 0 to |ids|
        invariant buf == old(buf) + (U32(|ids|) + List(IdBytes, ids[..i]))
      {
        PutId(ids[i]);
        assert Front(ids[..i + 1]) == ids[..i];
      }
      assert ids[..|ids|] == ids;
    }
  }

  lemma RegroupEvent(o: Bytes, a: Bytes, b: Bytes, c: Bytes, d: Bytes, e: Bytes, f: Bytes)
    ensures o + a + b + c + d + e + f == o + (a + (b + (c + (d + (e + f)))))
  {
    assert o + a + b + c + d + e + f == o + a + b + c + (d + (e + f));
    assert o + a + b + c + (d + (e + f)) == o + (a + (b + (c + (d + (e + f)))));
  }

  lemma RegroupClock(o: Bytes, a: Bytes, b: Bytes, c: Bytes, d: Bytes, e: Bytes, f: Bytes, g: Bytes)
    ensures o + a + b + c + d + e + f + g == o + (a + (b + (c + (d + (e + (f + g))))))
  {
    assert o + a + b + c + d + e + f + g == o + a + b + c + (d + (e + (f + g)));
    assert o + a + b + c + (d + (e + (f + g))) == o + (a + (b + (c + (d + (e + (f + g))))));
  }

  // ---------------------------------------------------------------------------
  // reader
  // ---------------------------------------------------------------------------

  /** A read that ended as the layout says: its value and what is left, or the exception. */
  ghost predicate Reads<T>(p: Parsed<T>, r: Option<T>, left: Bytes) {
    match p
    case Fail => r == None
    case Got(value, rest) => r == Some(value) && left == rest
  }

  lemma {:induction false} ListFails<T>(dec: Bytes -> Parsed<T>, b: Bytes, i: nat, n: nat)
    requires i <= n && ParseList(dec, b, i) == Fail
    ensures ParseList(dec, b, n) == Fail
    decreases n
  {
    if i < n {
      ListFails(dec, b, i, n - 1);
    }
  }

  class Reader {
    const buf: Bytes
    var pos: nat

    /** The position never leaves the buffer, whatever bytes it holds. */
    ghost predicate Valid()
      reads this
    {
      pos <= |buf|
    }

    ghost function Left(): Bytes
      requires Valid()
      reads this
    {
      buf[pos..]
    }

    constructor (b: Bytes)
      ensures Valid() && buf == b && Left() == b
    {
      buf, pos := b, 0;
    }

    method GetU8() returns (r: Option<Byte>)
      requires Valid()
      modifies `pos
      ensures Valid()
      ensures if old(Left()) == [] then r == None else r == Some(old(Left())[0]) && Left() == old(Left())[1..]
    {
      if pos + 1 > |buf| {
        return None;
      }
      r := Some(buf[pos]);
      pos := pos + 1;
    }

    method GetInt(w: nat) returns (r: Option<nat>)
      requires Valid()
      modifies `pos
      ensures Valid() && Reads(ParseInt(old(Left()), w), r, Left())
    {
      if pos + w > |buf| {
        return None;
      }
      ghost var start := pos;
      var v: nat := 0;
      for i := 0 to w
        invariant pos == start + i <= |buf| && v == BigEndian.Decode(buf[start..pos])
      {
        assert buf[start..pos + 1][..i] == buf[start..pos];
        var b: int := buf[pos];
        v := 256 * v + b;
        pos := pos + 1;
      }
      assert old(Left())[..w] == buf[start..pos] && old(Left())[w..] == Left();
      r := Some(v);
    }

    method GetId() returns (r: Option<NodeId>)
      requires Valid()
      modifies `pos
      ensures Valid() && Reads(ParseId(old(Left())), r, Left())
    {
      if pos + NODE_ID_BYTES > |buf| {
        return None;
      }
      ghost var start := pos;
      var bytes: Bytes := [];
      for i := 0 to NODE_ID_BYTES
        invariant pos == start + i <= |buf| && bytes == buf[start..pos]
      {
        bytes := bytes + [buf[pos]];
        pos := pos + 1;
      }
      assert old(Left())[..NODE_ID_BYTES] == bytes && old(Left())[NODE_ID_BYTES..] == Left();
      r := Some(NodeId(bytes));
    }

    method GetBlob() returns (r: Option<Bytes>)
      requires Valid()
      modifies `pos
      ensures Valid() && Reads(ParseBlob(old(Left())), r, Left())
    {
      hide ParseInt;
      var n := GetInt(4);
      if n == None || pos + n.value > |buf| {
        return None;
      }
      ghost var left := Left();
      r := Some(buf[pos..pos + n.value]);
      assert left[..n.value] == r.value;
      pos := pos + n.value;
      assert left[n.value..] == Left();
    }

    method GetRef() returns (r: Option<EventReference>)
      requires Valid()
      modifies `pos
      ensures Valid() && Reads(ParseRef(old(Left())), r, Left())
    {
      hide ParseId, ParseBlob;
      var creator := GetId();
      if creator == None {
        return None;
      }
      var hash := GetBlob();
      if hash == None {
        return None;
      }
      r := Some(EventReference(creator.value, hash.value));
    }

    method GetRefs() returns (r: Option<seq<EventReference>>)
      requires Valid()
      modifies `pos
      ensures Valid() && Reads(ParseRefs(old(Left())), r, Left())
    {
      hide ParseInt, ParseRef;
      var n := GetInt(4);
      if n == None || n.value > (|buf| - pos) / REF_BYTES {
        return None;
      }
      ghost var start := Left();
      var out := [];
      for i := 0 to n.value
        invariant Valid() && ParseList(ParseRef, start, i) == Got(out, Left())
      {
        var x := GetRef();
        if x == None {
          ListFails(ParseRef, start, i + 1, n.value);
          return None;
        }
        out := out + [x.value];
      }
      r := Some(out);
    }

    method GetEvent() returns (r: Option<Event>)
      requires Valid()
      modifies `pos
      ensures Valid() && Reads(ParseEvent(old(Left())), r, Left())
    {
      hide ParseId, ParseBlob, ParseInt, ParseRefs;
      var creator := GetId();
      if creator == None { return None; }
      var hash := GetBlob();
      if hash == None { return None; }
      var data := GetBlob();
      if data == None { return None; }
      var salt := GetInt(8);
      if salt == None { return None; }
      var refs := GetRefs();
      if refs == None { return None; }
      var signature := GetBlob();
      if signature == None { return None; }
      r := Some(Event(creator.value, hash.value, data.value, salt.value, refs.value, signature.value));
    }

    method GetClock() returns (r: Option<ClockEvent>)
      requires Valid()
      modifies `pos
      ensures Valid() && Reads(ParseClock(old(Left())), r, Left())
    {
      hide ParseId, ParseBlob, ParseInt, ParseRefs;
      var creator := GetId();
      if creator == None { return None; }
      var hash := GetBlob();
      if hash == None { return None; }
      var chain := GetInt(8);
      if chain == None { return None; }
      var timestamp := GetInt(8);
      if timestamp == None { return None; }
      var salt := GetInt(8);
      if salt == None { return None; }
      var refs := GetRefs();
      if refs == None { return None; }
      var signature := GetBlob();
      if signature == None { return None; }
      r := Some(ClockEvent(creator.value, hash.value, chain.value % U32_MODULUS, Signed(timestamp.value), salt.value, refs.value, signature.value));
    }

    method GetClocks() returns (r: Option<seq<ClockEvent>>)
      requires Valid()
      modifies `pos
      ensures Valid() && Reads(ParseClocks(old(Left())), r, Left())
    {
      hide ParseInt, ParseClock;
      var n := GetInt(4);
      if n == None || n.value > (|buf| - pos) / CLOCK_BYTES {
        return None;
      }
      ghost var start := Left();
      var out := [];
      for i := 0 to n.value
        invariant Valid() && ParseList(ParseClock, start, i) == Got(out, Left())
      {
        var x := GetClock();
        if x == None {
          ListFails(ParseClock, start, i + 1, n.value);
          return None;
        }
        out := out + [x.value];
      }
      r := Some(out);
    }

    method GetChain() returns (r: Option<EventChain>)
      requires Valid()
      modifies `pos
      ensures Valid() && Reads(ParseChain(old(Left())), r, Left())
    {
      hide ParseEvent, ParseClocks;
      var event := GetEvent();
      if event == None { return None; }
      var lower := GetClocks();
      if lower == None { return None; }
      var upper := GetClocks();
      if upper == None { return None; }
      r := Some(EventChain(event.value, lower.value, upper.value));
    }

    method GetRange() returns (r: Option<TimeRange>)
      requires Valid()
      modifies `pos
      ensures Valid() && Reads(ParseRange(old(Left())), r, Left())
    {
      hide ParseInt;
      var lo := GetInt(8);
      if lo == None { return None; }
      var hi := GetInt(8);
      if hi == None { return None; }
      r := Some(TimeRange(Signed(lo.value), Signed(hi.value)));
    }

    method GetIds() returns (r: Option<seq<NodeId>>)
      requires Valid()
      modifies `pos
      ensures Valid() && Reads(ParseIds(old(Left())), r, Left())
    {
      hide ParseInt, ParseId;
      var n := GetInt(4);
      if n == None || n.value > (|buf| - pos) / NODE_ID_BYTES {
        return None;
      }
      ghost var start := Left();
      var out := [];
      for i := 0 to n.value
        invariant Valid() && ParseList(ParseId, start, i) == Got(out, Left())
      {
        var x := GetId();
        if x == None {
          ListFails(ParseId, start, i + 1, n.value);
          return None;
        }
        out := out + [x.value];
      }
      r := Some(out);
    }
  }
}
