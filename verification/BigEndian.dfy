/** Big-endian integers, the layout shared by the wire codec and the hash input. */
module BigEndian {
  import opened Domain

  function Pow256(w: nat): (p: nat)
    ensures p > 0
  {
    if w == 0 then 1 else 256 * Pow256(w - 1)
  }

  /** The low `w` bytes of `n`, most significant first. */
  function Encode(n: nat, w: nat): (b: Bytes)
    ensures |b| == w
  {
    if w == 0 then [] else Encode(n / 256, w - 1) + [n % 256]
  }

  function Decode(b: Bytes): (n: nat) {
    if b == [] then 0 else 256 * Decode(b[..|b| - 1]) + b[|b| - 1]
  }

  lemma {:induction false} DecodeEncode(n: nat, w: nat)
    requires n < Pow256(w)
    ensures Decode(Encode(n, w)) == n
  {
    if w > 0 {
      DecodeEncode(n / 256, w - 1);
      assert Encode(n, w)[..w - 1] == Encode(n / 256, w - 1);
    }
  }

  lemma {:induction false} DecodeBound(b: Bytes)
    ensures Decode(b) < Pow256(|b|)
  {
    if b != [] {
      DecodeBound(b[..|b| - 1]);
    }
  }
}
