/** SHA-256 streaming: buffering, the length counter and padding, around an abstract block
    function. */
module Sha256 {
  import opened Domain
  import Arith
  import BigEndian

  const BLOCK: nat := 64
  const LENGTH_MODULUS: nat := 0x1_0000_0000_0000_0000

  // ---------------------------------------------------------------------------
  // the padded message (FIPS 180-4, section 5.1.1)
  // ---------------------------------------------------------------------------

  function Zeros(n: nat): (b: Bytes)
    ensures |b| == n && forall i :: 0 <= i < n ==> b[i] == 0
  {
    if n == 0 then [] else Zeros(n - 1) + [0]
  }

  /** Zero bytes between the marker byte and the length field. */
  function Gap(n: nat): (k: nat)
    ensures k < BLOCK && (n + 1 + k + 8) % BLOCK == 0
  {
    (55 - n) % BLOCK
  }

  function Padding(n: nat): (b: Bytes)
    ensures (n + |b|) % BLOCK == 0
  {
    [0x80] + Zeros(Gap(n)) + BigEndian.Encode((8 * n) % LENGTH_MODULUS, 8)
  }

  function Padded(m: Bytes): (b: Bytes)
    ensures |b| % BLOCK == 0
  {
    m + Padding(|m|)
  }

  predicate Aligned(l: nat, k: nat) {
    (l + 1 + k) % 512 == 448
  }

  /** In the standard's terms: after a message of l bits come a one bit and the least number k
      of zero bits that makes l + 1 + k congruent to 448 modulo 512, then l in 64 bits. */
  lemma PaddingIsStandard(n: nat)
    ensures var l, k := 8 * n, 7 + 8 * Gap(n);
      && Aligned(l, k)
      && (forall j: nat :: j < k ==> !Aligned(l, j))
      && |Padding(n)| * 8 == 1 + k + 64
  {
    var l, k := 8 * n, 7 + 8 * Gap(n);
    assert l + 1 + k == 8 * (n + 1 + Gap(n));
    forall j: nat | j < k
      ensures !Aligned(l, j)
    {
      assert k - j < 512;
    }
  }

  // ---------------------------------------------------------------------------
  // the block function folded over whole blocks
  // ---------------------------------------------------------------------------

  function Compress<H>(block: (H, Bytes) -> H, h: H, m: Bytes): (r: H)
    requires |m| % BLOCK == 0
  {
    if m == [] then h else block(Compress(block, h, m[..|m| - BLOCK]), m[|m| - BLOCK..])
  }

  lemma {:induction false} CompressMore<H>(block: (H, Bytes) -> H, h: H, m: Bytes, b: Bytes)
    requires |m| % BLOCK == 0 && |b| == BLOCK
    ensures Compress(block, h, m + b) == block(Compress(block, h, m), b)
  {
    assert (m + b)[..|m|] == m && (m + b)[|m|..] == b;
  }

  // ---------------------------------------------------------------------------
  // the length counter: four 16-bit digits, least significant first
  // ---------------------------------------------------------------------------

  function Power(k: nat): (p: nat)
    ensures p > 0
  {
    if k == 0 then 1 else 65536 * Power(k - 1)
  }

  function Value(d: seq<nat>): (v: nat) {
    if d == [] then 0 else d[0] + 65536 * Value(d[1..])
  }

  ghost predicate Digits(d: seq<nat>) {
    forall i :: 0 <= i < |d| ==> d[i] < 65536
  }

  function Low(x: nat): (r: nat)
    ensures r < 65536
  {
    x % 65536
  }

  function High(x: nat): nat {
    x / 65536
  }

  /** Add `n` to the lowest digit and ripple the carry; a carry out of the top is dropped. */
  function Added(d: seq<nat>, n: nat): (r: seq<nat>)
    ensures |r| == |d|
  {
    if d == [] then []
    else if d[0] + n >= 65536 then [Low(d[0] + n)] + Added(d[1..], High(d[0] + n))
    else [d[0] + n] + d[1..]
  }

  /** Each digit shifted left by three, taking in the bits shifted out below it. */
  function Shifted(d: seq<nat>, carry: nat): (r: seq<nat>)
    ensures |r| == |d|
  {
    if d == [] then [] else [Low(8 * d[0] + carry)] + Shifted(d[1..], d[0] / 8192)
  }

  /** The digits' bytes, most significant first. */
  function DigitBytes(d: seq<nat>): (b: Bytes)
    requires Digits(d)
    ensures |b| == 2 * |d|
  {
    if d == [] then [] else DigitBytes(d[1..]) + [d[0] / 256, d[0] % 256]
  }

  lemma Remainder(n: nat, d: nat, q: nat, r: nat)
    requires d > 0 && r < d && n == q * d + r
    ensures n % d == r
  {
    var p, s := n / d, n % d;
    Arith.Divided(n, d);
    Arith.OneMore(p, d);
    Arith.OneMore(q, d);
    if p > q {
      Arith.Mono(q + 1, p, d);
    } else if p < q {
      Arith.Mono(p + 1, q, d);
    }
  }

  /** Splitting off the lowest digit of a remainder. */
  lemma LowDigit(a: nat, b: nat, m: nat)
    requires a < 65536 && m > 0
    ensures (a + 65536 * b) % (65536 * m) == a + 65536 * (b % m)
  {
    var q, r := b / m, b % m;
    assert b == q * m + r;
    assert q * (65536 * m) == 65536 * (q * m);
    Remainder(a + 65536 * b, 65536 * m, q, a + 65536 * r);
  }

  lemma Carry(x: nat, v: nat, m: nat)
    requires m > 0
    ensures (x + 65536 * v) % (65536 * m) == Low(x) + 65536 * ((v + High(x)) % m)
  {
    LowDigit(x % 65536, v + x / 65536, m);
  }

  lemma {:induction false} ValueBelow(d: seq<nat>)
    requires Digits(d)
    ensures Value(d) < Power(|d|)
  {
    if d != [] {
      ValueBelow(d[1..]);
    }
  }

  lemma {:induction false} AddedDigits(d: seq<nat>, n: nat)
    requires Digits(d)
    ensures Digits(Added(d, n))
  {
    if d != [] && d[0] + n >= 65536 {
      AddedDigits(d[1..], High(d[0] + n));
    }
  }

  lemma AddedStep(d: seq<nat>, n: nat)
    requires d != []
    ensures var x := d[0] + n; Added(d, n) == if x >= 65536 then [Low(x)] + Added(d[1..], High(x)) else [x] + d[1..]
  {
  }

  lemma ValueStep(a: nat, tail: seq<nat>)
    ensures Value([a] + tail) == a + 65536 * Value(tail)
  {
    assert ([a] + tail)[1..] == tail;
  }

  lemma Unfold(d: seq<nat>)
    requires d != []
    ensures Value(d) == d[0] + 65536 * Value(d[1..]) && Power(|d|) == 65536 * Power(|d[1..]|)
  {
  }

  lemma {:induction false} AddedValue(d: seq<nat>, n: nat)
    requires Digits(d)
    ensures Value(Added(d, n)) == (Value(d) + n) % Power(|d|)
  {
    AddedDigits(d, n);
    ValueBelow(Added(d, n));
    if d != [] {
      hide Added, Low, High, Value, Power, Digits;
      var x, tail := d[0] + n, d[1..];
      Unfold(d);
      AddedStep(d, n);
      if x >= 65536 {
        assert Digits(tail) by {
          DigitsTail(d);
        }
        AddedValue(tail, High(x));
        ValueStep(Low(x), Added(tail, High(x)));
        Carry(x, Value(tail), Power(|tail|));
      } else {
        ValueStep(x, tail);
        Small(Value(d) + n, Power(|d|));
      }
    }
  }

  lemma DigitsTail(d: seq<nat>)
    requires d != [] && Digits(d)
    ensures Digits(d[1..]) && d[0] < 65536
  {
  }

  lemma Small(a: nat, m: nat)
    requires a < m
    ensures a % m == a
  {
  }

  lemma EightTimes(a: nat, carry: nat)
    requires a < 65536 && carry < 8
    ensures High(8 * a + carry) == Eighths(a) < 8
  {
  }

  /** What a digit carries out when it is multiplied by eight. */
  function Eighths(a: nat): nat {
    a / 8192
  }

  lemma {:induction false} ShiftedDigits(d: seq<nat>, carry: nat)
    requires Digits(d) && carry < 8
    ensures Digits(Shifted(d, carry))
  {
    if d != [] {
      EightTimes(d[0], carry);
      ShiftedDigits(d[1..], Eighths(d[0]));
    }
  }

  lemma ShiftedHead(d: seq<nat>, carry: nat)
    requires d != []
    ensures Shifted(d, carry) == [Low(8 * d[0] + carry)] + Shifted(d[1..], Eighths(d[0]))
  {
  }

  lemma Nothing()
    ensures Value([]) == 0 && Power(0) == 1 && forall carry :: Shifted([], carry) == []
  {
  }

  lemma OneUnit(n: nat)
    ensures n % 1 == 0
  {
  }

  lemma {:induction false} ShiftedValue(d: seq<nat>, carry: nat)
    requires Digits(d) && carry < 8
    ensures Value(Shifted(d, carry)) == (8 * Value(d) + carry) % Power(|d|)
  {
    hide Low, High, Value, Power, Digits, Shifted, Eighths;
    if d == [] {
      Nothing();
      OneUnit(carry);
    } else {
      var x, tail := 8 * d[0] + carry, d[1..];
      DigitsTail(d);
      EightTimes(d[0], carry);
      Unfold(d);
      ShiftedValue(tail, Eighths(d[0]));
      ShiftedHead(d, carry);
      ValueStep(Low(x), Shifted(tail, Eighths(d[0])));
      Carry(x, 8 * Value(tail), Power(|tail|));
    }
  }

  lemma TwoBytes(a: nat, v: nat)
    requires a < 65536
    ensures var n := a + 65536 * v; n % 256 == a % 256 && (n / 256) % 256 == a / 256 && (n / 256) / 256 == v
  {
    var n := a + 65536 * v;
    assert n == 256 * (256 * v + a / 256) + a % 256;
    assert n / 256 == 256 * v + a / 256;
  }

  lemma {:induction false} DigitBytesEncode(d: seq<nat>)
    requires Digits(d)
    ensures DigitBytes(d) == BigEndian.Encode(Value(d), 2 * |d|)
  {
    if d != [] {
      DigitBytesEncode(d[1..]);
      TwoBytes(d[0], Value(d[1..]));
      EncodeTwo(Value(d), 2 * |d| - 2);
    }
  }

  lemma EncodeTwo(v: nat, w: nat)
    ensures BigEndian.Encode(v, w + 2) == BigEndian.Encode((v / 256) / 256, w) + [(v / 256) % 256, v % 256]
  {
    assert BigEndian.Encode(v, w + 2) == BigEndian.Encode(v / 256, w + 1) + [v % 256];
  }

  lemma PowerFour()
    ensures Power(4) == LENGTH_MODULUS
  {
    assert Power(1) == 0x1_0000;
    assert Power(2) == 0x1_0000_0000;
    assert Power(3) == 0x1_0000_0000_0000;
  }

  // ---------------------------------------------------------------------------
  // the hasher
  // ---------------------------------------------------------------------------

  /** All of the message but the buffered tail has been compressed, block by block. */
  ghost predicate Fed<H>(block: (H, Bytes) -> H, init: H, h: H, message: Bytes, buffer: Bytes) {
    && |buffer| < BLOCK && |buffer| <= |message| && (|message| - |buffer|) % BLOCK == 0
    && buffer == message[|message| - |buffer|..]
    && h == Compress(block, init, message[..|message| - |buffer|])
  }

  class Hasher<H(0)> {
    const block: (H, Bytes) -> H
    const init: H
    var buffer: Bytes
    var digits: array<nat>
    var h: H

    /** Everything processed so far. */
    ghost var message: Bytes

    ghost predicate Valid()
      reads this, digits
    {
      Counted() && Fed(block, init, h, message, buffer)
    }

    /** The counter holds the length modulo 2^64. */
    ghost predicate Counted()
      reads this, digits
    {
      digits.Length == 4 && Digits(digits[..]) && Value(digits[..]) == |message| % LENGTH_MODULUS
    }

    constructor (block: (H, Bytes) -> H, init: H)
      ensures Valid() && message == [] && this.block == block && this.init == init && fresh(digits)
    {
      this.block, this.init := block, init;
      buffer := [];
      digits := new nat[4](_ => 0);
      h := init;
      message := [];
      new;
      assert digits[..] == [0, 0, 0, 0];
      assert Value(digits[..]) == 0 by {
        assert [0, 0, 0, 0][1..] == [0, 0, 0] && [0, 0, 0][1..] == [0, 0] && [0, 0][1..] == [0];
      }
    }

    /** `n` is a distance within one object, so it is below half the word range and the lowest
        digit cannot overflow its word. */
    method AddToLength(n: nat)
      requires digits.Length == 4 && Digits(digits[..]) && n < LENGTH_MODULUS / 2
      modifies digits
      ensures digits[..] == Added(old(digits[..]), n)
    {
      hide Digits, Added, Low, High;
      ghost var before := digits[..];
      AddedFirst(before, n);
      var carry := 0;
      digits[0] := digits[0] + n;
      assert digits[..] == [before[0] + n] + before[1..];
      var i := 0;
      while i < 4
        invariant i <= 4
        invariant digits[..i] + Added(digits[i..], carry) == Added(before, n)
        decreases 4 - i
      {
        ghost var d := digits[..];
        assert digits[..i] == d[..i] && digits[i..] == d[i..];
        RippleStep(d, i, carry, Added(before, n));
        digits[i] := digits[i] + carry;
        if digits[i] < 65536 {
          assert digits[..] == d[i := d[i] + carry];
          return;
        }
        carry := High(digits[i]);
        digits[i] := Low(digits[i]);
        ghost var e := d[i := digits[i]];
        assert digits[..] == e && digits[..i + 1] == e[..i + 1] && digits[i + 1..] == e[i + 1..];
        i := i + 1;
      }
      AddedNothing(carry);
      assert digits[..4] + [] == digits[..];
    }

    /** Feed a chunk: whole blocks are compressed at once, the rest waits in the buffer. */
    method Process(chunk: Bytes)
      requires Valid() && |chunk| < LENGTH_MODULUS / 2
      modifies this, digits
      ensures Valid() && message == old(message) + chunk && digits == old(digits)
    {
      hide Value, Digits, Added, Fed, Compress;
      CountMore(digits[..], |message|, |chunk|);
      AddToLength(|chunk|);
      Compressed(block, init, h, message, buffer);
      var hh, rest := Consume(block, h, buffer + chunk, init, message[..|message| - |buffer|]);
      StillFed(block, init, hh, message, buffer, chunk, rest);
      h, buffer := hh, rest;
      message := message + chunk;
    }

    /** The bit length, big-endian: the counter shifted left by three. */
    method WriteBitLength(temp: array<Byte>)
      requires Counted() && temp.Length == BLOCK
      modifies temp
      ensures temp[..56] == old(temp[..56])
      ensures temp[56..] == BigEndian.Encode((8 * |message|) % LENGTH_MODULUS, 8)
    {
      hide Value, Digits, Shifted, Compress, Low, DigitBytes, BigEndian.Encode;
      var bits := new nat[4];
      bits[0], bits[1], bits[2], bits[3] := digits[0], digits[1], digits[2], digits[3];
      assert bits[..] == digits[..];
      ShiftBits(bits);
      BitsOf(digits[..], |message|);
      WriteDigits(temp, bits);
    }

    /** Multiply by eight in place, from the lowest digit up. */
    static method ShiftBits(bits: array<nat>)
      requires bits.Length == 4
      modifies bits
      ensures bits[..] == Shifted(old(bits[..]), 0)
    {
      hide Shifted, Low;
      ghost var before := bits[..];
      assert bits[..0] == [] && bits[0..] == before;
      var carry := 0;
      for i := 0 to 4
        invariant bits[..i] + Shifted(bits[i..], carry) == Shifted(before, 0)
      {
        ghost var done, rest := bits[..i], bits[i + 1..];
        var was := bits[i];
        assert bits[i..] == [was] + rest;
        ShiftedStep(was, rest, carry);
        bits[i] := Low(8 * bits[i] + carry);
        carry := was / 8192;
        assert bits[..i + 1] == done + [bits[i]] && bits[i + 1..] == rest;
      }
      ShiftedNothing(carry);
      assert bits[..4] + [] == bits[..];
    }

    /** Pad and compress what is left: the digest state is that of the padded message. */
    method Finish()
      requires Valid()
      modifies this`h
      ensures h == Compress(block, init, Padded(message))
    {
      hide Value, Digits, Compress, Padding, Zeros, BigEndian.Encode;
      ghost var whole := message[..|message| - |buffer|];
      assert message == whole + buffer;
      var temp := new Byte[BLOCK];
      FillLast(temp);
      if |buffer| > 55 {
        ghost var first := temp[..];
        CompressMore(block, init, whole, first);
        h := block(h, temp[..]);
        Blank(temp);
        assert Counted();
        WriteBitLength(temp);
        assert temp[..] == temp[..56] + temp[56..];
        TwoBlocks(message, |buffer|, first, temp[..]);
        CompressMore(block, init, whole + first, temp[..]);
        h := block(h, temp[..]);
      } else {
        WriteBitLength(temp);
        assert temp[..] == temp[..56] + temp[56..];
        OneBlock(message, |buffer|, temp[..]);
        CompressMore(block, init, whole, temp[..]);
        h := block(h, temp[..]);
      }
    }

    /** What is buffered, the marker, then zeros. */
    method FillLast(temp: array<Byte>)
      requires temp.Length == BLOCK && |buffer| < BLOCK
      modifies temp
      ensures temp[..] == buffer + [0x80] + Zeros(63 - |buffer|)
      ensures |buffer| <= 55 ==> temp[..56] == buffer + [0x80] + Zeros(55 - |buffer|)
    {
      forall i | 0 <= i < BLOCK {
        temp[i] := if i < |buffer| then buffer[i] else if i == |buffer| then 0x80 else 0;
      }
    }

    /** Zero the block up to where the low half of the length field starts. */
    method Blank(temp: array<Byte>)
      requires temp.Length == BLOCK
      modifies temp
      ensures temp[..56] == Zeros(56)
    {
      forall i | 0 <= i < 60 {
        temp[i] := 0;
      }
    }
  }

  /** The compression loop over the whole blocks of what is buffered and the new chunk. */
  method Consume<H>(block: (H, Bytes) -> H, h0: H, all: Bytes, ghost init: H, ghost before: Bytes) returns (h: H, rest: Bytes)
    requires |before| % BLOCK == 0 && h0 == Compress(block, init, before)
    ensures |rest| < BLOCK && |rest| <= |all| && rest == all[|all| - |rest|..]
    ensures var fed := before + all[..|all| - |rest|]; |fed| % BLOCK == 0 && h == Compress(block, init, fed)
  {
    hide Compress;
    h := h0;
    var i := 0;
    assert before + all[..0] == before;
    while i + BLOCK <= |all|
      invariant i <= |all| && |before + all[..i]| % BLOCK == 0
      invariant h == Compress(block, init, before + all[..i])
    {
      ghost var fed := before + all[..i];
      assert fed + all[i..i + BLOCK] == before + all[..i + BLOCK];
      OneBlockMore(|fed|);
      CompressMore(block, init, fed, all[i..i + BLOCK]);
      h := block(h, all[i..i + BLOCK]);
      i := i + BLOCK;
    }
    rest := all[i..];
  }

  lemma OneBlockMore(n: nat)
    requires n % BLOCK == 0
    ensures (n + BLOCK) % BLOCK == 0
  {
  }

  lemma Compressed<H>(block: (H, Bytes) -> H, init: H, h: H, message: Bytes, buffer: Bytes)
    requires Fed(block, init, h, message, buffer)
    ensures |buffer| <= |message| && (|message| - |buffer|) % BLOCK == 0
    ensures buffer == message[|message| - |buffer|..] && h == Compress(block, init, message[..|message| - |buffer|])
  {
  }

  lemma StillFed<H>(block: (H, Bytes) -> H, init: H, h: H, message: Bytes, buffer: Bytes, chunk: Bytes, rest: Bytes)
    requires |buffer| <= |message| && buffer == message[|message| - |buffer|..]
    requires var all, before := buffer + chunk, message[..|message| - |buffer|];
      && |rest| < BLOCK && |rest| <= |all| && rest == all[|all| - |rest|..]
      && var fed := before + all[..|all| - |rest|]; |fed| % BLOCK == 0 && h == Compress(block, init, fed)
    ensures Fed(block, init, h, message + chunk, rest)
  {
    hide Compress;
    var all, before, whole := buffer + chunk, message[..|message| - |buffer|], message + chunk;
    assert whole == before + all;
    assert whole[..|whole| - |rest|] == before + all[..|all| - |rest|];
  }

  lemma GapOf(n: nat, remains: nat)
    requires remains < BLOCK && remains <= n && (n - remains) % BLOCK == 0
    ensures Gap(n) == if remains > 55 then 63 - remains + 56 else 55 - remains
  {
  }

  /** When the marker leaves no room for the length, padding spills into a second block. */
  lemma TwoBlocks(m: Bytes, remains: nat, first: Bytes, second: Bytes)
    requires 55 < remains < BLOCK && remains <= |m| && (|m| - remains) % BLOCK == 0
    requires first == m[|m| - remains..] + [0x80] + Zeros(63 - remains)
    requires second == Zeros(56) + BigEndian.Encode((8 * |m|) % LENGTH_MODULUS, 8)
    ensures Padded(m) == m[..|m| - remains] + first + second
  {
    GapOf(|m|, remains);
    hide Gap, Zeros, BigEndian.Encode;
    ZerosJoin(63 - remains, 56);
    var a, b, z, y, l := m[..|m| - remains], m[|m| - remains..], Zeros(63 - remains), Zeros(56), BigEndian.Encode((8 * |m|) % LENGTH_MODULUS, 8);
    assert m == a + b;
    Joins(a, b, [0x80], z, y, l);
  }

  lemma Joins(a: Bytes, b: Bytes, c: Bytes, z: Bytes, y: Bytes, l: Bytes)
    ensures (a + b) + (c + (z + y) + l) == a + (b + c + z) + (y + l)
  {
  }

  lemma OneBlock(m: Bytes, remains: nat, last: Bytes)
    requires remains <= 55 && remains <= |m| && (|m| - remains) % BLOCK == 0
    requires last == m[|m| - remains..] + [0x80] + Zeros(55 - remains) + BigEndian.Encode((8 * |m|) % LENGTH_MODULUS, 8)
    ensures Padded(m) == m[..|m| - remains] + last
  {
    GapOf(|m|, remains);
    hide Gap, Zeros, BigEndian.Encode;
    assert m == m[..|m| - remains] + m[|m| - remains..];
  }

  lemma ZerosJoin(a: nat, b: nat)
    ensures Zeros(a) + Zeros(b) == Zeros(a + b)
  {
  }

  lemma AddedFirst(d: seq<nat>, n: nat)
    requires d != []
    ensures [d[0] + n] + d[1..] != [] && Added([d[0] + n] + d[1..], 0) == Added(d, n)
  {
    assert ([d[0] + n] + d[1..])[1..] == d[1..];
  }

  lemma RippleStep(d: seq<nat>, i: nat, carry: nat, target: seq<nat>)
    requires i < |d| && d[..i] + Added(d[i..], carry) == target
    ensures var x := d[i] + carry;
      if x < 65536 then d[i := x] == target
      else var e := d[i := Low(x)]; e[..i + 1] + Added(e[i + 1..], High(x)) == target
  {
    hide Low, High;
    var x := d[i] + carry;
    AddedStep(d[i..], carry);
    assert d[i..][1..] == d[i + 1..];
    var e := d[i := Low(x)];
    assert e[..i + 1] == d[..i] + [Low(x)] && e[i + 1..] == d[i + 1..];
    assert d[i := x] == d[..i] + ([x] + d[i + 1..]);
  }

  lemma AddedNothing(carry: nat)
    ensures Added([], carry) == []
  {
  }

  lemma ShiftedStep(a: nat, rest: seq<nat>, carry: nat)
    ensures Shifted([a] + rest, carry) == [Low(8 * a + carry)] + Shifted(rest, a / 8192)
  {
    assert ([a] + rest)[1..] == rest;
  }

  lemma ShiftedNothing(carry: nat)
    ensures Shifted([], carry) == []
  {
  }

  lemma CountMore(d: seq<nat>, count: nat, n: nat)
    requires |d| == 4 && Digits(d) && Value(d) == count % LENGTH_MODULUS
    ensures Digits(Added(d, n)) && Value(Added(d, n)) == (count + n) % LENGTH_MODULUS
  {
    AddedDigits(d, n);
    AddedValue(d, n);
    PowerFour();
    hide Value, Digits, Added, Power;
    Wraps(count, n);
  }

  lemma Wraps(a: nat, b: nat)
    ensures (a % LENGTH_MODULUS + b) % LENGTH_MODULUS == (a + b) % LENGTH_MODULUS
  {
  }

  lemma BitsOf(d: seq<nat>, count: nat)
    requires |d| == 4 && Digits(d) && Value(d) == count % LENGTH_MODULUS
    ensures Digits(Shifted(d, 0)) && DigitBytes(Shifted(d, 0)) == BigEndian.Encode((8 * count) % LENGTH_MODULUS, 8)
  {
    ShiftedDigits(d, 0);
    ShiftedValue(d, 0);
    PowerFour();
    hide Value, Digits, Shifted, Power;
    DigitBytesEncode(Shifted(d, 0));
    BitLength(count);
  }

  lemma BitLength(n: nat)
    ensures (8 * (n % LENGTH_MODULUS)) % LENGTH_MODULUS == (8 * n) % LENGTH_MODULUS
  {
    SameRemainder(n, LENGTH_MODULUS);
  }

  lemma SameRemainder(n: nat, m: nat)
    requires m > 0
    ensures (8 * (n % m)) % m == (8 * n) % m
  {
    var q, s := n / m, 8 * (n % m);
    var p, t := s / m, s % m;
    Arith.Divided(n, m);
    Arith.Divided(s, m);
    Spread(q, p, m);
    Remainder(8 * n, m, 8 * q + p, t);
  }

  lemma Spread(q: nat, p: nat, m: nat)
    ensures (8 * q + p) * m == 8 * (q * m) + p * m
  {
  }

  /** From the top digit down, high byte then low byte. */
  method WriteDigits(temp: array<Byte>, bits: array<nat>)
    requires temp.Length == BLOCK && bits.Length == 4 && Digits(bits[..])
    modifies temp
    ensures temp[..56] == old(temp[..56]) && temp[56..] == DigitBytes(bits[..])
  {
    ghost var d := bits[..];
    var at, i := 56, 4;
    while i > 0
      invariant 0 <= i <= 4 && at == 64 - 2 * i && bits[..] == d
      invariant temp[..56] == old(temp[..56]) && temp[56..at] == DigitBytes(d[i..])
    {
      i := i - 1;
      assert d[i..][1..] == d[i + 1..] && d[i..][0] == bits[i];
      ghost var written := temp[56..at];
      temp[at] := bits[i] / 256;
      temp[at + 1] := bits[i] % 256;
      at := at + 2;
      assert temp[56..at] == written + [bits[i] / 256, bits[i] % 256];
    }
    assert d[0..] == d && temp[56..64] == temp[56..];
  }

  function Joined(chunks: seq<Bytes>): (m: Bytes) {
    if chunks == [] then [] else Joined(Front(chunks)) + Last(chunks)
  }

  /** However a message is split into chunks, the digest state is that of the whole, padded. */
  method HashChunks<H(0)>(block: (H, Bytes) -> H, init: H, chunks: seq<Bytes>) returns (h: H)
    requires forall i :: 0 <= i < |chunks| ==> |chunks[i]| < LENGTH_MODULUS / 2
    ensures h == Compress(block, init, Padded(Joined(chunks)))
  {
    hide Compress, Padded;
    var hasher := new Hasher<H>(block, init);
    for i := 0 to |chunks|
      invariant hasher.Valid() && fresh(hasher.digits) && hasher.message == Joined(chunks[..i])
    {
      hasher.Process(chunks[i]);
      assert Front(chunks[..i + 1]) == chunks[..i];
    }
    assert chunks[..|chunks|] == chunks;
    hasher.Finish();
    h := hasher.h;
  }
}
