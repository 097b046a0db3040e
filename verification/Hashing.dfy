/** The bytes that are hashed for events and clock events, over an abstract digest and signer. */
module Hashing {
  import opened Domain
  import BigEndian

  /** The digest and the key store a network runs on. Nothing is assumed of `sha`; in
      particular it need not be injective. */
  datatype Crypto = Crypto(sha: Bytes -> Hash,
                           sign: (NodeId, Hash) -> Signature,
                           verify: (Hash, Signature, NodeId) -> bool)

  const U64_MODULUS: nat := 0x1_0000_0000_0000_0000

  function U64(n: int): (b: Bytes) {
    BigEndian.Encode(n % U64_MODULUS, 8)
  }

  function RefBytes(refs: seq<EventReference>): (b: Bytes) {
    if refs == [] then [] else refs[0].creator.bytes + refs[0].hash + RefBytes(refs[1..])
  }

  function EventHash(cr: Crypto, data: Bytes, salt: nat, refs: seq<EventReference>): (h: Hash) {
    cr.sha(data + U64(salt) + RefBytes(refs))
  }

  function ClockHash(cr: Crypto, chain: nat, timestamp: Timestamp, salt: nat,
                     refs: seq<EventReference>): (h: Hash) {
    cr.sha(U64(chain) + U64(timestamp) + U64(salt) + RefBytes(refs))
  }

  /** What a verifier accepts as the genuine hash and signature of an event. */
  predicate EventIntact(cr: Crypto, e: Event) {
    && e.hash == EventHash(cr, e.data, e.salt, e.refs)
    && cr.verify(e.hash, e.signature, e.creator)
  }

  predicate ClockIntact(cr: Crypto, c: ClockEvent) {
    && c.hash == ClockHash(cr, c.chain, c.timestamp, c.salt, c.refs)
    && cr.verify(c.hash, c.signature, c.creator)
  }

  /** Every node can verify what any node signs. */
  ghost predicate HonestSigner(cr: Crypto) {
    forall id, h :: cr.verify(h, cr.sign(id, h), id)
  }
}
