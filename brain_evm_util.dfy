/** The canister's EVM identity in `src/brain_canister/src/evm_util.rs`:
    the threshold-ECDSA key it asks for, the Ethereum address it derives
    from the public key the management canister returns, and the signing
    entry point, which is still a stub. The call to `ecdsa_public_key`
    itself is not modelled; its outcome is a parameter. */
module BrainEvmUtil {
  import opened Wrappers
  import opened Bytes
  import opened Crypto
  import IcpConfig
  import IcpStoryUtil

  datatype EcdsaCurve = Secp256k1

  datatype EcdsaKeyId = EcdsaKeyId(curve: EcdsaCurve, name: string)

  /** `get_ecdsa_key_id`: always the secp256k1 key of the configured name. */
  function KeyId(): (k: EcdsaKeyId)
    ensures k.curve == Secp256k1 && k.name == "test_key_1"
  {
    EcdsaKeyId(Secp256k1, IcpConfig.ECDSA_KEY_NAME)
  }

  /** `EcdsaPublicKeyArgument`. */
  datatype PublicKeyRequest = PublicKeyRequest(
    canisterId: Option<string>,
    derivationPath: seq<seq<uint8>>,
    keyId: EcdsaKeyId)

  /** The request of `get_canister_evm_address`: the calling canister's own
      key (no canister id), with an empty derivation path. */
  function AddressKeyRequest(): (q: PublicKeyRequest)
    ensures q.canisterId == None && q.derivationPath == [] && q.keyId == KeyId()
  {
    PublicKeyRequest(None, [], KeyId())
  }

  /** Why `get_canister_evm_address` fails. */
  datatype AddressError =
    | KeyFetchFailed(message: string)
    | BadPublicKeyLength(len: nat)

  predicate IsAddressText(a: string) {
    |a| == 42 && a[..2] == "0x" && IsLowerHex(a[2..])
  }

  /** The address derivation of `get_canister_evm_address`: a key that is
      not 65 bytes long is refused; otherwise the address is "0x" and the
      lower-case hex of bytes 12 to 32 of the Keccak-256 digest of the key
      without its first byte. The first byte itself is never looked at. */
  function DeriveEvmAddress(c: Primitives, pk: seq<uint8>): (r: Result<string, AddressError>)
    ensures r.Ok? <==> |pk| == 65
    ensures r.Err? ==> r.error == BadPublicKeyLength(|pk|)
    ensures r.Ok? ==> IsAddressText(r.value)
    ensures r.Ok? ==> HexDecode(r.value[2..]) == Some(Keccak256(c, pk[1..])[12..])
  {
    if |pk| != 65 then Err(BadPublicKeyLength(|pk|))
    else
      HexRoundTrip(Keccak256(c, pk[1..])[12..]);
      assert ("0x" + HexEncode(Keccak256(c, pk[1..])[12..]))[2..] == HexEncode(Keccak256(c, pk[1..])[12..]);
      Ok("0x" + HexEncode(Keccak256(c, pk[1..])[12..]))
  }

  /** `get_canister_evm_address` once the management canister has answered:
      a failed call is reported as a fetch failure; a returned key goes
      through the derivation. */
  function CanisterEvmAddress(c: Primitives, fetched: Result<seq<uint8>, string>)
    : (r: Result<string, AddressError>)
    ensures fetched.Err? ==> r == Err(KeyFetchFailed("Failed to get ECDSA public key"))
    ensures fetched.Ok? ==> r == DeriveEvmAddress(c, fetched.value)
  {
    match fetched
    case Err(_) => Err(KeyFetchFailed("Failed to get ECDSA public key"))
    case Ok(pk) => DeriveEvmAddress(c, pk)
  }

  /** The address depends only on bytes 1 to 65 of the key: two keys that
      differ in their marker byte alone have the same address, so a key
      without the 0x04 marker is accepted. */
  lemma PrefixNotInspected(c: Primitives, a: seq<uint8>, b: seq<uint8>)
    requires |a| == 65 && |b| == 65 && a[1..] == b[1..]
    ensures DeriveEvmAddress(c, a) == DeriveEvmAddress(c, b)
    ensures DeriveEvmAddress(c, a).Ok?
  {
  }

  /** The brain canister's address agrees with the address text the ICP
      canister's recovery-id search compares, behind the "0x". */
  lemma AgreesWithResolver(c: Primitives, pk: seq<uint8>)
    requires |pk| == 65
    ensures DeriveEvmAddress(c, pk) == Ok("0x" + IcpStoryUtil.KeyAddressHex(c, pk))
  {
  }

  /** The derived address is a valid recipient for the calldata builders:
      once its "0x" is trimmed it decodes to the twenty digest bytes. */
  lemma AddressDecodesAsRecipient(c: Primitives, pk: seq<uint8>)
    requires |pk| == 65
    ensures var a := DeriveEvmAddress(c, pk).value;
            HexDecode(TrimLeading0x(a)) == Some(Keccak256(c, pk[1..])[12..])
  {
    var a := DeriveEvmAddress(c, pk).value;
    assert StartsWith0x(a);
    var h := a[2..];
    assert !StartsWith0x(h) by {
      assert IsLowerHexDigit(h[1]);
    }
    assert TrimLeading0x(a) == TrimLeading0x(h) == h;
  }

  /** Two keys have the same address exactly when their digests agree on
      bytes 12 to 32. */
  lemma AddressesEqualIffDigestTails(c: Primitives, a: seq<uint8>, b: seq<uint8>)
    requires |a| == 65 && |b| == 65
    ensures DeriveEvmAddress(c, a) == DeriveEvmAddress(c, b) <==>
            Keccak256(c, a[1..])[12..] == Keccak256(c, b[1..])[12..]
  {
    var ha, hb := HexEncode(Keccak256(c, a[1..])[12..]), HexEncode(Keccak256(c, b[1..])[12..]);
    if DeriveEvmAddress(c, a) == DeriveEvmAddress(c, b) {
      assert ha == ("0x" + ha)[2..] == ("0x" + hb)[2..] == hb;
      HexEncodeInjective(Keccak256(c, a[1..])[12..], Keccak256(c, b[1..])[12..]);
    }
  }

  /** Why `sign_evm_transaction` fails. */
  datatype SigningError = NotImplemented(message: string)

  /** `sign_evm_transaction`: not implemented, so every hash is refused. */
  function SignEvmTransaction(txHash: seq<uint8>): (r: Result<seq<uint8>, SigningError>)
    ensures r.Err? && r.error == NotImplemented("EVM signing not yet implemented")
  {
    Err(NotImplemented("EVM signing not yet implemented"))
  }
}
