/** The signing-side helpers of `packages/icp/src/story_util.rs`: the
    signature checks that run before a transaction is signed, the search for
    the recovery id the chain-key signature lacks, what the signing paths do
    when that search fails, and the calldata of the two Story Protocol calls
    the canister builds. */
module IcpStoryUtil {
  import opened Wrappers
  import opened Bytes
  import opened Crypto
  import opened Abi
  import IcpConfig

  /** Why a signature check or the recovery-id search fails. */
  datatype SigningError =
    | BadHashLength(hashLen: nat)
    | BadSignatureLength(sigLen: nat)
    | BadPublicKeyLength(keyLen: nat)
    | BadPublicKeyPrefix(prefix: uint8)
    | KeyParseFailed
    | SignatureParseFailed
    | NoMatchingRecoveryId(icAddress: string)

  /** A 32-byte prehash, a 64-byte (r, s) signature and a 65-byte key. */
  predicate LengthsOk(hash: seq<uint8>, sig: seq<uint8>, key: seq<uint8>) {
    |hash| == 32 && |sig| == 64 && |key| == 65
  }

  // ---------------------------------------------------------------------------
  // verify_signature
  // ---------------------------------------------------------------------------

  /** `verify_signature`: three length checks in order, then the key and the
      signature must parse, and then the answer is whether the signature
      verifies. It never traps. Verification is its own primitive: nothing
      here relates it to key recovery. */
  function VerifySignature(c: Primitives, hash: seq<uint8>, sig: seq<uint8>, key: seq<uint8>)
    : (r: Result<bool, SigningError>)
    ensures |hash| != 32 ==> r == Err(BadHashLength(|hash|))
    ensures |hash| == 32 && |sig| != 64 ==> r == Err(BadSignatureLength(|sig|))
    ensures |hash| == 32 && |sig| == 64 && |key| != 65 ==> r == Err(BadPublicKeyLength(|key|))
    ensures LengthsOk(hash, sig, key) && !c.parsesAsKey(key) ==> r == Err(KeyParseFailed)
    ensures LengthsOk(hash, sig, key) && c.parsesAsKey(key) && !c.parsesAsSignature(sig) ==>
              r == Err(SignatureParseFailed)
    ensures r.Ok? <==> LengthsOk(hash, sig, key) && c.parsesAsKey(key) && c.parsesAsSignature(sig)
    ensures r.Ok? ==> r.value == c.verifies(key, hash, sig)
  {
    if |hash| != 32 then Err(BadHashLength(|hash|))
    else if |sig| != 64 then Err(BadSignatureLength(|sig|))
    else if |key| != 65 then Err(BadPublicKeyLength(|key|))
    else if !c.parsesAsKey(key) then Err(KeyParseFailed)
    else if !c.parsesAsSignature(sig) then Err(SignatureParseFailed)
    else Ok(c.verifies(key, hash, sig))
  }

  // ---------------------------------------------------------------------------
  // determine_recovery_id_with_pubkey
  // ---------------------------------------------------------------------------

  /** `str::to_lowercase` on ASCII text: the letters 'A' to 'Z' become
      'a' to 'z', every other character stays. */
  function AsciiLowercase(s: string): (r: string)
    ensures |r| == |s|
    ensures forall i :: 0 <= i < |s| ==>
              r[i] == if 'A' <= s[i] <= 'Z' then (s[i] as int - 'A' as int + 'a' as int) as char else s[i]
  {
    seq(|s|, i requires 0 <= i < |s| =>
      if 'A' <= s[i] <= 'Z' then (s[i] as int - 'A' as int + 'a' as int) as char else s[i])
  }

  /** Lower-case hex text is left as it is, so the `to_lowercase` after
      `hex::encode` changes nothing. */
  lemma LowercaseOfLowerHex(s: string)
    requires IsLowerHex(s)
    ensures AsciiLowercase(s) == s
  {
  }

  /** The address text the resolver compares: the lower-case hex of bytes
      12 to 32 of the Keccak-256 digest of the key without its marker byte. */
  function KeyAddressHex(c: Primitives, key: seq<uint8>): (a: string)
    requires |key| >= 1
    ensures |a| == 40 && IsLowerHex(a)
    ensures a == HexEncode(Keccak256(c, key[1..])[12..])
  {
    LowercaseOfLowerHex(HexEncode(Keccak256(c, key[1..])[12..]));
    AsciiLowercase(HexEncode(Keccak256(c, key[1..])[12..]))
  }

  /** The key one attempt recovers: none when the id does not exist, the
      signature does not parse or recovery fails. */
  function Candidate(c: Primitives, hash: seq<uint8>, sig: seq<uint8>, id: uint8): (k: Option<seq<uint8>>)
    ensures k.Some? ==> IsUncompressedKey(k.value)
    ensures k.Some? <==> id < 4 && c.parsesAsSignature(sig) && Recover(c, hash, sig, id).Some?
  {
    match RecoveryIdFromByte(id)
    case None => None
    case Some(rid) => if c.parsesAsSignature(sig) then Recover(c, hash, sig, rid) else None
  }

  /** Whether recovery id `id` is accepted: its recovered key equals the
      known key byte for byte, or the two keys give the same address. */
  predicate Matches(c: Primitives, hash: seq<uint8>, sig: seq<uint8>, key: seq<uint8>, id: uint8) {
    |key| >= 1 &&
    match Candidate(c, hash, sig, id)
    case None => false
    case Some(k) => k == key || KeyAddressHex(c, k) == KeyAddressHex(c, key)
  }

  /** The checks before any recovery is tried. */
  predicate GuardsPass(hash: seq<uint8>, sig: seq<uint8>, key: seq<uint8>) {
    LengthsOk(hash, sig, key) && key[0] == 4
  }

  /** The answer of the resolver: the checks in their order, then the
      smaller of the ids 0 and 1 that is accepted. */
  function ResolveRecoveryId(c: Primitives, hash: seq<uint8>, sig: seq<uint8>, key: seq<uint8>)
    : (r: Result<uint8, SigningError>)
    ensures |hash| != 32 ==> r == Err(BadHashLength(|hash|))
    ensures |hash| == 32 && |sig| != 64 ==> r == Err(BadSignatureLength(|sig|))
    ensures |hash| == 32 && |sig| == 64 && |key| != 65 ==> r == Err(BadPublicKeyLength(|key|))
    ensures LengthsOk(hash, sig, key) && key[0] != 4 ==> r == Err(BadPublicKeyPrefix(key[0]))
    ensures r.Ok? ==> GuardsPass(hash, sig, key) && r.value <= 1 && Matches(c, hash, sig, key, r.value)
    ensures r.Ok? ==> r.value == 1 ==> !Matches(c, hash, sig, key, 0)
    ensures r.Ok? ==> KeyAddressHex(c, Candidate(c, hash, sig, r.value).value) == KeyAddressHex(c, key)
    ensures GuardsPass(hash, sig, key) && Matches(c, hash, sig, key, 0) ==> r == Ok(0)
    ensures GuardsPass(hash, sig, key) ==>
              (r.Err? <==> !Matches(c, hash, sig, key, 0) && !Matches(c, hash, sig, key, 1))
    ensures GuardsPass(hash, sig, key) && r.Err? ==> r.error == NoMatchingRecoveryId(KeyAddressHex(c, key))
  {
    if |hash| != 32 then Err(BadHashLength(|hash|))
    else if |sig| != 64 then Err(BadSignatureLength(|sig|))
    else if |key| != 65 then Err(BadPublicKeyLength(|key|))
    else if key[0] != 4 then Err(BadPublicKeyPrefix(key[0]))
    else if Matches(c, hash, sig, key, 0) then Ok(0)
    else if Matches(c, hash, sig, key, 1) then Ok(1)
    else Err(NoMatchingRecoveryId(KeyAddressHex(c, key)))
  }

  /** `determine_recovery_id_with_pubkey`: the checks, then a loop over the
      ids 0 and 1 in which an attempt that cannot build the id, parse the
      signature or recover a key moves on to the next id, and an accepted
      key ends the search. */
  method DetermineRecoveryId(c: Primitives, hash: seq<uint8>, sig: seq<uint8>, key: seq<uint8>)
    returns (r: Result<uint8, SigningError>)
    ensures r == ResolveRecoveryId(c, hash, sig, key)
  {
    if |hash| != 32 {
      return Err(BadHashLength(|hash|));
    }
    if |sig| != 64 {
      return Err(BadSignatureLength(|sig|));
    }
    if |key| != 65 {
      return Err(BadPublicKeyLength(|key|));
    }
    if key[0] != 4 {
      return Err(BadPublicKeyPrefix(key[0]));
    }
    var icDigest := Keccak256(c, key[1..]);
    var icAddress := AsciiLowercase(HexEncode(icDigest[12..]));
    LowercaseOfLowerHex(HexEncode(icDigest[12..]));
    for id: uint8 := 0 to 2
      invariant forall j: uint8 :: j < id ==> !Matches(c, hash, sig, key, j)
    {
      var rid := RecoveryIdFromByte(id);
      if rid.None? {
        continue;
      }
      if !c.parsesAsSignature(sig) {
        continue;
      }
      var recovered := Recover(c, hash, sig, rid.value);
      if recovered.None? {
        continue;
      }
      var keyBytes := recovered.value;
      var recoveredDigest := Keccak256(c, keyBytes[1..]);
      var recoveredAddress := AsciiLowercase(HexEncode(recoveredDigest[12..]));
      LowercaseOfLowerHex(HexEncode(recoveredDigest[12..]));
      if keyBytes == key {
        return Ok(id);
      }
      if recoveredAddress == icAddress {
        return Ok(id);
      }
    }
    return Err(NoMatchingRecoveryId(icAddress));
  }

  /** An attempt for id 0 that yields no key does not end the search: the
      answer is then decided by id 1 alone. */
  lemma SkipsFailedCandidate(c: Primitives, hash: seq<uint8>, sig: seq<uint8>, key: seq<uint8>)
    requires GuardsPass(hash, sig, key) && Candidate(c, hash, sig, 0).None?
    ensures ResolveRecoveryId(c, hash, sig, key) ==
              if Matches(c, hash, sig, key, 1) then Ok(1)
              else Err(NoMatchingRecoveryId(KeyAddressHex(c, key)))
  {
  }

  /** A signature that does not parse is not reported as such: every
      attempt is skipped and the search ends without a match. */
  lemma UnparsableSignatureNeverMatches(c: Primitives, hash: seq<uint8>, sig: seq<uint8>, key: seq<uint8>)
    requires GuardsPass(hash, sig, key) && !c.parsesAsSignature(sig)
    ensures ResolveRecoveryId(c, hash, sig, key) == Err(NoMatchingRecoveryId(KeyAddressHex(c, key)))
  {
    assert !Matches(c, hash, sig, key, 0) && !Matches(c, hash, sig, key, 1);
  }

  /** A recovered key equal to the known key is accepted. */
  lemma ExactKeyMatches(c: Primitives, hash: seq<uint8>, sig: seq<uint8>, key: seq<uint8>, id: uint8)
    requires |key| >= 1 && Candidate(c, hash, sig, id) == Some(key)
    ensures Matches(c, hash, sig, key, id)
  {
  }

  /** The two checks share their length checks: on inputs of the wrong size
      both fail, with the same error. */
  lemma GuardsAgree(c: Primitives, hash: seq<uint8>, sig: seq<uint8>, key: seq<uint8>)
    requires !LengthsOk(hash, sig, key)
    ensures VerifySignature(c, hash, sig, key).Err? && ResolveRecoveryId(c, hash, sig, key).Err?
    ensures VerifySignature(c, hash, sig, key).error == ResolveRecoveryId(c, hash, sig, key).error
  {
  }

  // ---------------------------------------------------------------------------
  // What the signing paths do with the answer
  // ---------------------------------------------------------------------------

  /** The recovery id `register_ip_on_story` and `register_nft_as_ip` put into
      the signed transaction, for the 32-byte digest they sign: a signature
      that is not 64 bytes stops the path, and a failed search falls back to
      id 0 instead of stopping it. */
  function SigningRecoveryId(c: Primitives, hash: seq<uint8>, sig: seq<uint8>, key: seq<uint8>)
    : (r: Result<uint8, SigningError>)
    ensures r.Err? <==> |sig| != 64
    ensures r.Err? ==> r.error == BadSignatureLength(|sig|)
    ensures r.Ok? ==> r.value <= 1
    ensures r.Ok? && ResolveRecoveryId(c, hash, sig, key).Ok? ==>
              r.value == ResolveRecoveryId(c, hash, sig, key).value
    ensures r.Ok? && ResolveRecoveryId(c, hash, sig, key).Err? ==> r.value == 0
  {
    if |sig| != 64 then Err(BadSignatureLength(|sig|))
    else
      match ResolveRecoveryId(c, hash, sig, key)
      case Ok(id) => Ok(id)
      case Err(_) => Ok(0)
  }

  /** The fallback hides a failed search: with a well-formed signature,
      a key of the wrong length still yields id 0 ... */
  lemma FallbackIgnoresBadKey(c: Primitives, hash: seq<uint8>, sig: seq<uint8>, key: seq<uint8>)
    requires |hash| == 32 && |sig| == 64 && |key| != 65
    ensures SigningRecoveryId(c, hash, sig, key) == Ok(0)
  {
  }

  /** ... and so does a signature for which neither id recovers the key,
      although id 0 is then known not to match. */
  lemma FallbackWithoutMatch(c: Primitives, hash: seq<uint8>, sig: seq<uint8>, key: seq<uint8>)
    requires GuardsPass(hash, sig, key)
    requires !Matches(c, hash, sig, key, 0) && !Matches(c, hash, sig, key, 1)
    ensures SigningRecoveryId(c, hash, sig, key) == Ok(0)
  {
  }

  // ---------------------------------------------------------------------------
  // Calldata
  // ---------------------------------------------------------------------------

  /** Why a calldata builder fails. */
  datatype CalldataError =
    | InvalidTokenContract(text: string)
    | RecipientNotHex(text: string)
    | BadRecipientLength(len: nat)

  /** `register(uint256,address,uint256)`. */
  const REGISTER_SELECTOR: seq<uint8> := [0xfc, 0xa2, 0x47, 0xac]

  /** The selector text the builder decodes; it always decodes. */
  lemma RegisterSelectorDecodes()
    ensures HexDecode("fca247ac") == Some(REGISTER_SELECTOR)
  {
    var d := "fca247ac";
    assert AllHexDigits(d) by {
      forall i | 0 <= i < |d| ensures IsHexDigit(d[i]) {}
    }
    var v := HexDecode(d).value;
    assert v[0] == 0xfc && v[1] == 0xa2 && v[2] == 0x47 && v[3] == 0xac;
    assert v == REGISTER_SELECTOR;
  }

  function RegisterArgs(chainId: uint64, tokenContract: Address20, tokenId: uint64): seq<Token> {
    [Uint(chainId), Address(tokenContract), Uint(tokenId)]
  }

  /** What the argument bytes of `register` say: three words holding the
      chain id, the token contract and the token id. */
  predicate RegisterReadsAs(e: seq<uint8>, chainId: nat, tokenContract: seq<uint8>, tokenId: nat) {
    |e| == 96 && ReadWord(e, 0) == chainId && ReadAddress(e, 32) == tokenContract
    && ReadWord(e, 64) == tokenId
  }

  lemma RegisterLayout(chainId: uint64, tokenContract: Address20, tokenId: uint64)
    ensures RegisterReadsAs(EncodeSeq(RegisterArgs(chainId, tokenContract, tokenId)),
                            chainId, tokenContract, tokenId)
  {
    var ts := RegisterArgs(chainId, tokenContract, tokenId);
    StaticArgsLength(ts);
    ArgsHeadsLength(ts, 1);
    ArgsHeadsLength(ts, 2);
    assert Parts(ts)[..0] == [];
    UintArgReadBack(ts, 0, chainId);
    AddressArgReadBack(ts, 1, tokenContract);
    UintArgReadBack(ts, 2, tokenId);
  }

  /** `build_ip_asset_registry_register_calldata`: the token contract text
      must parse as an address; the calldata is the 4-byte selector and
      three words, 100 bytes. */
  method BuildRegisterCalldata(c: Primitives, chainId: uint64, tokenContract: string, tokenId: uint64)
    returns (r: Result<seq<uint8>, CalldataError>)
    ensures r.Ok? <==> ParseH160(c, tokenContract).Some?
    ensures r.Err? ==> r.error == InvalidTokenContract(tokenContract)
    ensures r.Ok? ==> |r.value| == 100 && r.value[..4] == REGISTER_SELECTOR
    ensures r.Ok? ==> RegisterReadsAs(r.value[4..], chainId, ParseH160(c, tokenContract).value, tokenId)
  {
    var parsed := ParseH160(c, tokenContract);
    if parsed.None? {
      return Err(InvalidTokenContract(tokenContract));
    }
    var address := parsed.value;
    RegisterSelectorDecodes();
    var selector := HexDecode("fca247ac").value;
    var params := EncodeSeq(RegisterArgs(chainId, address, tokenId));
    RegisterLayout(chainId, address, tokenId);
    var calldata := selector;
    calldata := calldata + params;
    assert calldata[4..] == params;
    return Ok(calldata);
  }

  /** `mintAndRegisterIp(address,address,(string,bytes32,string,bytes32))`. */
  const MINT_AND_REGISTER_SELECTOR: seq<uint8> := [0xa3, 0x92, 0xaa, 0x86]

  /** The `IPMetadata` struct as the builder fills it: the NFT metadata
      repeats the IP metadata. */
  function IpMetadata(uri: string, hash: seq<uint8>): Token {
    Tuple([String(uri), FixedBytes(hash), String(uri), FixedBytes(hash)])
  }

  function MintAndRegisterArgs(spg: Address20, recipient: Address20, uri: string, hash: seq<uint8>)
    : seq<Token>
  {
    [Address(spg), Address(recipient), IpMetadata(uri, hash)]
  }

  /** What the bytes of an `IPMetadata` struct say: both URIs and both
      hashes. */
  predicate IpMetadataReadsAs(t: seq<uint8>, ipUri: string, ipHash: seq<uint8>,
                              nftUri: string, nftHash: seq<uint8>) {
    |t| >= 128
    && ReadDynamicBytes(t, ReadWord(t, 0)) == Some(Utf8(ipUri)) && t[32..64] == ipHash
    && ReadDynamicBytes(t, ReadWord(t, 64)) == Some(Utf8(nftUri)) && t[96..128] == nftHash
  }

  /** What the argument bytes of `mintAndRegisterIp` say: the collection,
      the recipient, and at offset 96 the struct. */
  predicate MintAndRegisterReadsAs(e: seq<uint8>, spg: seq<uint8>, recipient: seq<uint8>,
                                   uri: string, hash: seq<uint8>) {
    |e| >= 96 && ReadAddress(e, 0) == spg && ReadAddress(e, 32) == recipient && ReadWord(e, 64) == 96
    && IpMetadataReadsAs(e[96..], uri, hash, uri, hash)
  }

  lemma IpMetadataLayout(uri: string, hash: seq<uint8>)
    requires |hash| == 32 && |Enc(IpMetadata(uri, hash))| < TWO_256
    ensures IpMetadataReadsAs(Enc(IpMetadata(uri, hash)), uri, hash, uri, hash)
  {
    var items := [String(uri), FixedBytes(hash), String(uri), FixedBytes(hash)];
    var t := EncodeSeq(items);
    assert Enc(IpMetadata(uri, hash)) == t;
    assert |PadRight(hash)| == 32;
    assert PadRight(hash) == hash;
    ArgsHeadsLength(items, 1);
    ArgsHeadsLength(items, 2);
    ArgsHeadsLength(items, 3);
    assert Parts(items)[..0] == [];
    StringArgReadBack(items, 0, uri);
    StaticArgAt(items, 1);
    StringArgReadBack(items, 2, uri);
    StaticArgAt(items, 3);
  }

  /** The two addresses sit in the first two words. */
  lemma MintAndRegisterAddresses(spg: Address20, recipient: Address20, uri: string, hash: seq<uint8>)
    ensures var e := EncodeSeq(MintAndRegisterArgs(spg, recipient, uri, hash));
            |e| >= 64 && ReadAddress(e, 0) == spg && ReadAddress(e, 32) == recipient
  {
    var ts := MintAndRegisterArgs(spg, recipient, uri, hash);
    assert Parts(ts)[..0] == [];
    ArgsHeadsLength(ts, 1);
    AddressArgReadBack(ts, 0, spg);
    AddressArgReadBack(ts, 1, recipient);
  }

  /** The third word is the offset 96 of the struct, which fills the rest. */
  lemma MintAndRegisterStruct(spg: Address20, recipient: Address20, uri: string, hash: seq<uint8>)
    requires |EncodeSeq(MintAndRegisterArgs(spg, recipient, uri, hash))| < TWO_256
    ensures var e := EncodeSeq(MintAndRegisterArgs(spg, recipient, uri, hash));
            |e| >= 96 && ReadWord(e, 64) == 96 && e[96..] == Enc(IpMetadata(uri, hash))
  {
    var ts := MintAndRegisterArgs(spg, recipient, uri, hash);
    var tuple := IpMetadata(uri, hash);
    assert IsDynamic(tuple) by {
      assert IsDynamic(tuple.items[0]);
    }
    assert Parts(ts)[..3] == Parts(ts);
    ArgsHeadsLength(ts, 2);
    ArgsHeadsLength(ts, 3);
    DynamicArgAt(ts, 2);
    forall j | 0 <= j < 2 ensures !Parts(ts)[..2][j].dynamic {
      assert Parts(ts)[..2][j] == Part(IsDynamic(ts[j]), Enc(ts[j]));
    }
    StaticTails(Parts(ts)[..2]);
    WordRoundTrip(96);
    LastDynamicArg(ts);
  }

  lemma MintAndRegisterLayout(spg: Address20, recipient: Address20, uri: string, hash: seq<uint8>)
    requires |hash| == 32 && |EncodeSeq(MintAndRegisterArgs(spg, recipient, uri, hash))| < TWO_256
    ensures MintAndRegisterReadsAs(EncodeSeq(MintAndRegisterArgs(spg, recipient, uri, hash)),
                                   spg, recipient, uri, hash)
  {
    MintAndRegisterAddresses(spg, recipient, uri, hash);
    MintAndRegisterStruct(spg, recipient, uri, hash);
    IpMetadataLayout(uri, hash);
  }

  /** `build_mint_and_register_ip_calldata`: the recipient text, after its
      leading "0x" prefixes, must be hex for exactly 20 bytes; the calldata
      is the selector, the SPG collection, the recipient and the metadata
      struct, whose two hashes are the Keccak-256 digest of the URI. */
  method BuildMintAndRegisterCalldata(c: Primitives, metadataUri: string, recipient: string)
    returns (r: Result<seq<uint8>, CalldataError>)
    ensures var d := HexDecode(TrimLeading0x(recipient));
            r.Ok? <==> d.Some? && |d.value| == 20
    ensures HexDecode(TrimLeading0x(recipient)).None? ==> r == Err(RecipientNotHex(recipient))
    ensures var d := HexDecode(TrimLeading0x(recipient));
            d.Some? && |d.value| != 20 ==> r == Err(BadRecipientLength(|d.value|))
    ensures r.Ok? ==> |r.value| >= 4 && r.value[..4] == MINT_AND_REGISTER_SELECTOR
    ensures r.Ok? ==>
              r.value[4..] == EncodeSeq(MintAndRegisterArgs(IcpConfig.SPG_NFT_CONTRACT,
                                                            HexDecode(TrimLeading0x(recipient)).value,
                                                            metadataUri, Keccak256(c, Utf8(metadataUri))))
    ensures r.Ok? && |r.value| < TWO_256 ==>
              MintAndRegisterReadsAs(r.value[4..], IcpConfig.SPG_NFT_CONTRACT,
                                     HexDecode(TrimLeading0x(recipient)).value,
                                     metadataUri, Keccak256(c, Utf8(metadataUri)))
  {
    var recipientHex := TrimLeading0x(recipient);
    var decoded := HexDecode(recipientHex);
    if decoded.None? {
      return Err(RecipientNotHex(recipient));
    }
    var recipientBytes := decoded.value;
    if |recipientBytes| != 20 {
      return Err(BadRecipientLength(|recipientBytes|));
    }
    var spg := IcpConfig.SPG_NFT_CONTRACT;
    var metadataHash := Keccak256(c, Utf8(metadataUri));
    var params := EncodeSeq(MintAndRegisterArgs(spg, recipientBytes, metadataUri, metadataHash));
    var calldata := MINT_AND_REGISTER_SELECTOR;
    calldata := calldata + params;
    assert calldata[4..] == params;
    if |calldata| < TWO_256 {
      MintAndRegisterLayout(spg, recipientBytes, metadataUri, metadataHash);
    }
    return Ok(calldata);
  }
}
