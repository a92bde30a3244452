/** The cryptographic and address-parsing library calls the canisters make
    (`sha3::Keccak256`, `sha2::Sha256`, the `k256` ECDSA types and
    `primitive_types::H160::from_str`). Their internals are not modelled:
    each is a function-valued parameter, and the functions below give the
    callers only results of the shape the library guarantees (a 32-byte
    digest, an uncompressed key, a 20-byte address). */
module Crypto {
  import opened Wrappers
  import opened Bytes

  /** An uncompressed SEC1 point: the 0x04 marker and two 32-byte coordinates,
      as `to_encoded_point(false)` writes a key. */
  predicate IsUncompressedKey(k: seq<uint8>) {
    |k| == 65 && k[0] == 4
  }

  /** The library functions, as one value that every caller is given. */
  datatype Primitives = Primitives(
    /** `Keccak256::digest`. */
    keccak256: seq<uint8> -> seq<uint8>,
    /** `Sha256` over the whole input. */
    sha256: seq<uint8> -> seq<uint8>,
    /** Whether `VerifyingKey::from_sec1_bytes` accepts the bytes. */
    parsesAsKey: seq<uint8> -> bool,
    /** Whether `Signature::try_from` accepts the bytes (r and s in range). */
    parsesAsSignature: seq<uint8> -> bool,
    /** `verifying_key.verify(message, &sig).is_ok()` for (key, message,
        signature); the `Verifier` trait digests its message itself. */
    verifies: (seq<uint8>, seq<uint8>, seq<uint8>) -> bool,
    /** `VerifyingKey::recover_from_prehash` followed by
        `to_encoded_point(false)`, for a prehash, an already parsed signature
        and a recovery id. */
    recover: (seq<uint8>, seq<uint8>, nat) -> Option<seq<uint8>>,
    /** `H160::from_str`. */
    parseH160: string -> Option<seq<uint8>>)

  /** `RecoveryId::try_from(u8)`: ids 0 to 3 exist (y parity and the
      x-reduced flag), any other byte is rejected. */
  function RecoveryIdFromByte(b: uint8): (r: Option<nat>)
    ensures r.Some? <==> b < 4
    ensures r.Some? ==> r.value == b
  {
    if b < 4 then Some(b) else None
  }

  /** `Keccak256::digest(m)`: 32 bytes. */
  function Keccak256(c: Primitives, m: seq<uint8>): (d: seq<uint8>)
    ensures |d| == 32
  {
    if |c.keccak256(m)| == 32 then c.keccak256(m) else seq(32, _ => 0)
  }

  /** `Sha256` over `m`: 32 bytes. */
  function Sha256(c: Primitives, m: seq<uint8>): (d: seq<uint8>)
    ensures |d| == 32
  {
    if |c.sha256(m)| == 32 then c.sha256(m) else seq(32, _ => 0)
  }

  /** The key recovered from a prehash, a parsed signature and an id: none,
      or an uncompressed key. */
  function Recover(c: Primitives, hash: seq<uint8>, sig: seq<uint8>, id: nat): (k: Option<seq<uint8>>)
    ensures k.Some? ==> IsUncompressedKey(k.value)
  {
    if c.recover(hash, sig, id).Some? && IsUncompressedKey(c.recover(hash, sig, id).value)
    then c.recover(hash, sig, id) else None
  }

  /** `H160::from_str(text)`: none, or 20 bytes. */
  function ParseH160(c: Primitives, text: string): (a: Option<seq<uint8>>)
    ensures a.Some? ==> |a.value| == 20
  {
    if c.parseH160(text).Some? && |c.parseH160(text).value| == 20 then c.parseH160(text) else None
  }
}
