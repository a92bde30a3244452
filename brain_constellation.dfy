/** `src/brain_canister/src/constellation_util.rs`: logging a proof of
    generation on the Constellation DAG, which for now only computes a
    simulated transaction hash; the JSON payload prepared for the future
    submission; and the verification query, which is not implemented. */
module BrainConstellation {
  import opened Wrappers
  import opened Bytes
  import opened Crypto
  import opened Json

  /** `ProofOfGeneration`. */
  datatype ProofOfGeneration = ProofOfGeneration(
    contentHash: string,
    modelName: string,
    timestamp: uint64,
    storyIpId: string,
    nftContract: string,
    nftTokenId: uint64,
    generatorAddress: string)

  /** The text that is hashed: four of the fields joined by ':', the token
      id in decimal. */
  function HashInput(proof: ProofOfGeneration): string {
    proof.contentHash + ":" + proof.storyIpId + ":" + proof.nftContract + ":"
    + DecimalString(proof.nftTokenId)
  }

  const SIMULATED_PREFIX: string := "CONST-"

  /** `generate_simulated_tx_hash`: "CONST-" and the hex of the first 16
      bytes of the SHA-256 digest of the hash input. */
  function SimulatedTxHash(c: Primitives, proof: ProofOfGeneration): (h: string)
    ensures |h| == 38 && h[..6] == "CONST-" && IsLowerHex(h[6..])
    ensures HexDecode(h[6..]) == Some(Sha256(c, Utf8(HashInput(proof)))[..16])
  {
    HexRoundTrip(Sha256(c, Utf8(HashInput(proof)))[..16]);
    assert (SIMULATED_PREFIX + HexEncode(Sha256(c, Utf8(HashInput(proof)))[..16]))[6..]
           == HexEncode(Sha256(c, Utf8(HashInput(proof)))[..16]);
    SIMULATED_PREFIX + HexEncode(Sha256(c, Utf8(HashInput(proof)))[..16])
  }

  /** The model name, the timestamp and the generator address are not part
      of the simulated hash. */
  lemma SimulatedHashIgnores(c: Primitives, p: ProofOfGeneration, q: ProofOfGeneration)
    requires p.contentHash == q.contentHash && p.storyIpId == q.storyIpId
    requires p.nftContract == q.nftContract && p.nftTokenId == q.nftTokenId
    ensures SimulatedTxHash(c, p) == SimulatedTxHash(c, q)
  {
  }

  /** Proofs that differ only in their token id hash different texts. */
  lemma TokenIdChangesHashInput(p: ProofOfGeneration, q: ProofOfGeneration)
    requires p == q.(nftTokenId := p.nftTokenId) && p.nftTokenId != q.nftTokenId
    ensures HashInput(p) != HashInput(q)
  {
    var prefix := p.contentHash + ":" + p.storyIpId + ":" + p.nftContract + ":";
    assert HashInput(p) == prefix + DecimalString(p.nftTokenId);
    assert HashInput(q) == prefix + DecimalString(q.nftTokenId);
    DecimalRoundTrip(p.nftTokenId);
    DecimalRoundTrip(q.nftTokenId);
    assert DecimalString(p.nftTokenId) != DecimalString(q.nftTokenId);
    assert HashInput(p)[|prefix|..] == DecimalString(p.nftTokenId);
    assert HashInput(q)[|prefix|..] == DecimalString(q.nftTokenId);
  }

  /** The ':' separator is not escaped, so moving text across it leaves the
      hash input, and so the simulated hash, the same. */
  lemma SeparatorAmbiguity(c: Primitives, p: ProofOfGeneration)
    requires p.contentHash == "a:b" && p.storyIpId == "c"
    ensures var q := p.(contentHash := "a", storyIpId := "b:c");
            HashInput(q) == HashInput(p) && SimulatedTxHash(c, q) == SimulatedTxHash(c, p)
  {
    var q := p.(contentHash := "a", storyIpId := "b:c");
    assert "a:b" + ":" + "c" == "a" + ":" + "b:c";
    assert HashInput(q) == HashInput(p);
  }

  /** `log_proof_on_constellation`: nothing is sent; every proof is logged
      with its simulated hash, whatever the metagraph URL. */
  function LogProof(c: Primitives, metagraphUrl: string, proof: ProofOfGeneration)
    : (r: Result<string, string>)
    ensures r.Ok? && r.value == SimulatedTxHash(c, proof)
  {
    Ok(SimulatedTxHash(c, proof))
  }

  /** `build_constellation_data_payload`. */
  function DataPayload(proof: ProofOfGeneration): (v: Value)
    ensures v.Object? && v.fields.Keys == {"value", "proofs"}
    ensures Get(v, "proofs") == Some(Array([]))
    ensures var value := Index(v, "value");
            value.Object?
            && value.fields.Keys == {"contentHash", "modelName", "timestamp", "storyIpId",
                                     "nftContract", "nftTokenId", "generatorAddress", "metadata"}
  {
    Object(map[
      "value" := Object(map[
        "contentHash" := Str(proof.contentHash),
        "modelName" := Str(proof.modelName),
        "timestamp" := Number(proof.timestamp),
        "storyIpId" := Str(proof.storyIpId),
        "nftContract" := Str(proof.nftContract),
        "nftTokenId" := Number(proof.nftTokenId),
        "generatorAddress" := Str(proof.generatorAddress),
        "metadata" := Object(map["source" := Str("ProvenanceAI"), "version" := Str("1.0.0")])]),
      "proofs" := Array([])])
  }

  /** Every field of the proof can be read back from the payload. */
  lemma PayloadReadsBack(proof: ProofOfGeneration)
    ensures var value := Index(DataPayload(proof), "value");
            GetStr(value, "contentHash") == Some(proof.contentHash)
            && GetStr(value, "modelName") == Some(proof.modelName)
            && Get(value, "timestamp") == Some(Number(proof.timestamp))
            && GetStr(value, "storyIpId") == Some(proof.storyIpId)
            && GetStr(value, "nftContract") == Some(proof.nftContract)
            && Get(value, "nftTokenId") == Some(Number(proof.nftTokenId))
            && GetStr(value, "generatorAddress") == Some(proof.generatorAddress)
            && GetStr(Index(value, "metadata"), "source") == Some("ProvenanceAI")
            && GetStr(Index(value, "metadata"), "version") == Some("1.0.0")
  {
  }

  /** Payloads of different proofs differ. */
  lemma PayloadInjective(p: ProofOfGeneration, q: ProofOfGeneration)
    ensures DataPayload(p) == DataPayload(q) <==> p == q
  {
    if DataPayload(p) == DataPayload(q) {
      PayloadReadsBack(p);
      PayloadReadsBack(q);
    }
  }

  /** `verify_proof_on_constellation`: not implemented, so every query is
      an error. */
  function VerifyProof(metagraphUrl: string, contentHash: string): (r: Result<bool, string>)
    ensures r.Err? && r.error == "Proof verification will be implemented in Phase 3"
  {
    Err("Proof verification will be implemented in Phase 3")
  }
}
