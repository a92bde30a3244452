/** The state of the ICP canister of `packages/icp/src/lib.rs` and the
    update calls that change it: `init`, the owner-gated `set_owner` and
    `update_config`, the EVM nonce (the deprecated local counter and the
    cache refreshed from the chain), and the address of the NFT contract,
    deployed once or set by hand. The orchestration `generate_and_register_ip`
    is modelled by what it makes of the outcomes of the calls it awaits.

    Each call is specified by a pure operation on a snapshot of the state,
    giving the reply and the new state (a trap keeps the old state, as the
    Internet Computer rolls a trapping message back); the `Canister` class
    updates its fields in place and is proved to follow those operations,
    and the lemmas about runs of calls are stated on the operations. */
module IcpCanister {
  import opened Wrappers
  import opened Bytes
  import opened Abi
  import opened Json
  import opened RadixParse
  import opened IcTypes
  import IcpConfig
  import BrainConstellation

  /** `State` together with the `CONFIG` cell. */
  datatype Snapshot = Snapshot(
    owner: Principal,
    evmNonce: uint256,
    nftContractAddress: Option<string>,
    config: Option<CanisterConfig>)

  /** `State::default()` and an empty `CONFIG`, before `init` runs. */
  const DEFAULT: Snapshot := Snapshot(ANONYMOUS, 0, None, None)

  /** The nonce `init` starts from, the account's nonce when it was last
      deployed. */
  const INITIAL_NONCE: uint256 := 8

  /** The state `init` leaves. */
  function Initialised(caller: Principal, config: CanisterConfig): (s: Snapshot)
    ensures s.owner == caller && s.evmNonce == 8
    ensures s.nftContractAddress == None && s.config == Some(config)
  {
    DEFAULT.(config := Some(config)).(owner := caller, evmNonce := INITIAL_NONCE)
  }

  // ---------------------------------------------------------------------------
  // The update calls, as operations on snapshots
  // ---------------------------------------------------------------------------

  /** `set_owner`: only the current owner may name a new one; nothing else
      changes. */
  function SetOwnerOp(s: Snapshot, caller: Principal, newOwner: Principal)
    : (r: (Result<(), Trap>, Snapshot))
    ensures r.0.Ok? <==> caller == s.owner
    ensures r.0.Err? ==> r.0.error == Unauthorized("Only current owner can change owner") && r.1 == s
    ensures r.0.Ok? ==> r.1 == s.(owner := newOwner)
  {
    if s.owner != caller then (Err(Unauthorized("Only current owner can change owner")), s)
    else (Ok(()), s.(owner := newOwner))
  }

  /** `update_config`: only the owner may replace the configuration;
      nothing else changes. */
  function UpdateConfigOp(s: Snapshot, caller: Principal, newConfig: CanisterConfig)
    : (r: (Result<(), Trap>, Snapshot))
    ensures r.0.Ok? <==> caller == s.owner
    ensures r.0.Err? ==> r.0.error == Unauthorized("Only owner can update config") && r.1 == s
    ensures r.0.Ok? ==> r.1 == s.(config := Some(newConfig))
  {
    if s.owner != caller then (Err(Unauthorized("Only owner can update config")), s)
    else (Ok(()), s.(config := Some(newConfig)))
  }

  /** `get_and_increment_nonce`: hands out the cached nonce and counts it
      up; `U256` addition panics on overflow, so at the largest value the
      call traps. */
  function IncrementNonceOp(s: Snapshot): (r: (Result<uint256, Trap>, Snapshot))
    ensures r.0.Ok? <==> s.evmNonce + 1 < TWO_256
    ensures r.0.Ok? ==> r.0.value == s.evmNonce && r.1 == s.(evmNonce := s.evmNonce + 1)
    ensures r.0.Err? ==> r.0.error == ArithmeticOverflow && r.1 == s
  {
    if s.evmNonce + 1 < TWO_256 then (Ok(s.evmNonce), s.(evmNonce := s.evmNonce + 1))
    else (Err(ArithmeticOverflow), s)
  }

  /** Why `get_nonce_from_blockchain` fails. */
  datatype NonceError =
    | EarlierStepFailed(message: string)
    | RpcError(error: Value)
    | NoResultInResponse
    | BadNonceHex(text: string, kind: IntErrorKind)

  /** The answer to `eth_getTransactionCount`: a string "result" is used
      even when an "error" member is present too; otherwise the error is
      reported if there is one. The nonce is the hex text after its leading
      "0x" prefixes. */
  function NonceFromResponse(response: Value): (r: Result<uint64, NonceError>)
    ensures GetStr(response, "result").Some? ==>
              var text := GetStr(response, "result").value;
              (r.Ok? <==> ParsePrefixedHexU64(text).Ok?)
              && (r.Ok? ==> r.value == ParsePrefixedHexU64(text).value)
              && (r.Err? ==> r.error == BadNonceHex(text, ParsePrefixedHexU64(text).error))
    ensures GetStr(response, "result").None? && Get(response, "error").Some? ==>
              r == Err(RpcError(Get(response, "error").value))
    ensures GetStr(response, "result").None? && Get(response, "error").None? ==>
              r == Err(NoResultInResponse)
  {
    match AsStr(Index(response, "result"))
    case None => (
      match Get(response, "error")
      case Some(e) => Err(RpcError(e))
      case None => Err(NoResultInResponse))
    case Some(text) =>
      match ParsePrefixedHexU64(text)
      case Err(kind) => Err(BadNonceHex(text, kind))
      case Ok(nonce) => Ok(nonce)
  }

  /** The end of `get_nonce_from_blockchain`, once the address, the HTTP
      call and the JSON parsing have given `answer`: a nonce read from the
      answer replaces the cached one; any failure leaves the cache as it
      was. */
  function RefreshNonceOp(s: Snapshot, answer: Result<Value, string>)
    : (r: (Result<uint64, NonceError>, Snapshot))
    ensures answer.Err? ==> r == (Err(EarlierStepFailed(answer.error)), s)
    ensures answer.Ok? ==> r.0 == NonceFromResponse(answer.value)
    ensures r.0.Ok? ==> r.1 == s.(evmNonce := r.0.value)
    ensures r.0.Err? ==> r.1 == s
  {
    match answer
    case Err(message) => (Err(EarlierStepFailed(message)), s)
    case Ok(response) =>
      match NonceFromResponse(response)
      case Err(e) => (Err(e), s)
      case Ok(nonce) => (Ok(nonce), s.(evmNonce := nonce))
  }

  /** Why `deploy_nft_contract` fails. */
  datatype DeployError =
    | AlreadyDeployed
    | DeploymentFailed(message: string)

  /** `deploy_nft_contract`, given what `deploy_simple_nft` returns: with an
      address already stored nothing is deployed; otherwise the address of
      a successful deployment is stored. Anyone may call it. */
  function DeployOp(s: Snapshot, deployment: Result<string, string>)
    : (r: (Result<string, DeployError>, Snapshot))
    ensures s.nftContractAddress.Some? ==> r == (Err(AlreadyDeployed), s)
    ensures s.nftContractAddress.None? && deployment.Err? ==>
              r == (Err(DeploymentFailed(deployment.error)), s)
    ensures s.nftContractAddress.None? && deployment.Ok? ==>
              r == (Ok(deployment.value), s.(nftContractAddress := Some(deployment.value)))
  {
    if s.nftContractAddress.Some? then (Err(AlreadyDeployed), s)
    else
      match deployment
      case Err(message) => (Err(DeploymentFailed(message)), s)
      case Ok(address) => (Ok(address), s.(nftContractAddress := Some(address)))
  }

  /** One update call, with the caller where the source looks at it or
      could have, and the outcomes of the calls it awaits. */
  datatype Call =
    | SetOwner(caller: Principal, newOwner: Principal)
    | UpdateConfig(caller: Principal, newConfig: CanisterConfig)
    | GetAndIncrementNonce
    | RefreshNonce(answer: Result<Value, string>)
    | DeployNftContract(caller: Principal, deployment: Result<string, string>)
    | SetNftContractAddress(caller: Principal, address: string)

  /** The state after one call. `set_nft_contract_address` stores its
      address whoever calls it. */
  function Step(s: Snapshot, call: Call): Snapshot {
    match call
    case SetOwner(caller, newOwner) => SetOwnerOp(s, caller, newOwner).1
    case UpdateConfig(caller, newConfig) => UpdateConfigOp(s, caller, newConfig).1
    case GetAndIncrementNonce => IncrementNonceOp(s).1
    case RefreshNonce(answer) => RefreshNonceOp(s, answer).1
    case DeployNftContract(_, deployment) => DeployOp(s, deployment).1
    case SetNftContractAddress(_, address) => s.(nftContractAddress := Some(address))
  }

  /** The state after a sequence of calls, one after the other. */
  function Run(s: Snapshot, calls: seq<Call>): Snapshot
    decreases |calls|
  {
    if calls == [] then s else Run(Step(s, calls[0]), calls[1..])
  }

  /** A call with which the owner exercises its rights. */
  predicate IsOwnerCall(call: Call, owner: Principal) {
    (call.SetOwner? || call.UpdateConfig?) && call.caller == owner
  }

  /** Only the owner can move ownership or change the configuration: over
      any run in which the owner makes neither call, both stay as they
      were, whoever else calls what. */
  lemma {:induction false} OwnerAndConfigNeedOwner(s: Snapshot, calls: seq<Call>)
    requires forall i :: 0 <= i < |calls| ==> !IsOwnerCall(calls[i], s.owner)
    ensures Run(s, calls).owner == s.owner && Run(s, calls).config == s.config
    decreases |calls|
  {
    if calls != [] {
      var t := Step(s, calls[0]);
      assert !IsOwnerCall(calls[0], s.owner);
      assert t.owner == s.owner && t.config == s.config;
      forall i | 0 <= i < |calls[1..]| ensures !IsOwnerCall(calls[1..][i], t.owner) {
        assert calls[1..][i] == calls[i + 1];
      }
      OwnerAndConfigNeedOwner(t, calls[1..]);
    }
  }

  /** `deploy_nft_contract` is a one-shot: once an address is stored, no
      run without `set_nft_contract_address` changes it, however many
      deployments are attempted. */
  lemma {:induction false} DeployedAddressKept(s: Snapshot, calls: seq<Call>)
    requires s.nftContractAddress.Some?
    requires forall i :: 0 <= i < |calls| ==> !calls[i].SetNftContractAddress?
    ensures Run(s, calls).nftContractAddress == s.nftContractAddress
    decreases |calls|
  {
    if calls != [] {
      var t := Step(s, calls[0]);
      assert !calls[0].SetNftContractAddress?;
      assert t.nftContractAddress == s.nftContractAddress;
      forall i | 0 <= i < |calls[1..]| ensures !calls[1..][i].SetNftContractAddress? {
        assert calls[1..][i] == calls[i + 1];
      }
      DeployedAddressKept(t, calls[1..]);
    }
  }

  /** `set_nft_contract_address` has no owner check: any caller replaces a
      deployed address. */
  lemma OutsiderReplacesAddress(s: Snapshot, caller: Principal, address: string)
    requires caller != s.owner && s.nftContractAddress.Some?
    ensures Step(s, SetNftContractAddress(caller, address)).nftContractAddress == Some(address)
  {
  }

  function Increments(k: nat): (calls: seq<Call>)
    ensures |calls| == k && forall i :: 0 <= i < k ==> calls[i] == GetAndIncrementNonce
  {
    seq(k, _ => GetAndIncrementNonce)
  }

  /** `k` calls of `get_and_increment_nonce` count the nonce up by `k` and
      change nothing else. */
  lemma {:induction false} IncrementsCount(s: Snapshot, k: nat)
    requires s.evmNonce + k < TWO_256
    ensures Run(s, Increments(k)) == s.(evmNonce := s.evmNonce + k)
    decreases k
  {
    if k > 0 {
      var t := Step(s, GetAndIncrementNonce);
      assert t == s.(evmNonce := s.evmNonce + 1);
      assert Increments(k)[1..] == Increments(k - 1);
      IncrementsCount(t, k - 1);
    }
  }

  /** After `init`, a successful deployment is stored and a second one is
      refused. */
  lemma DeployOnceAfterInit(caller: Principal, config: CanisterConfig, first: string,
                            second: Result<string, string>)
    ensures var s := DeployOp(Initialised(caller, config), Ok(first)).1;
            s.nftContractAddress == Some(first) && DeployOp(s, second) == (Err(AlreadyDeployed), s)
  {
  }

  /** The canister's unit tests: the answer {"jsonrpc": "2.0", "id": 1,
      "result": "0x15"} gives the nonce 21, which is then cached. */
  lemma NonceTestResponse(s: Snapshot)
    ensures var response := Object(map["jsonrpc" := Str("2.0"), "id" := Number(1), "result" := Str("0x15")]);
            RefreshNonceOp(s, Ok(response)) == (Ok(21), s.(evmNonce := 21))
  {
    var response := Object(map["jsonrpc" := Str("2.0"), "id" := Number(1), "result" := Str("0x15")]);
    assert response.fields["result"] == Str("0x15");
    assert GetStr(response, "result") == Some("0x15");
    NonceExamples();
    assert NonceFromResponse(response) == Ok(21);
  }

  // ---------------------------------------------------------------------------
  // The canister
  // ---------------------------------------------------------------------------

  class Canister {
    var owner: Principal
    var evmNonce: uint256
    var nftContractAddress: Option<string>
    var config: Option<CanisterConfig>

    function Snap(): Snapshot
      reads this
    {
      Snapshot(owner, evmNonce, nftContractAddress, config)
    }

    /** `init`: the configuration is stored, the caller becomes the owner
        and the nonce starts at 8. */
    constructor Init(caller: Principal, initConfig: CanisterConfig)
      ensures Snap() == Initialised(caller, initConfig)
    {
      owner, evmNonce, nftContractAddress := DEFAULT.owner, DEFAULT.evmNonce, DEFAULT.nftContractAddress;
      config := Some(initConfig);
      owner := caller;
      evmNonce := INITIAL_NONCE;
    }

    method SetOwner(caller: Principal, newOwner: Principal) returns (r: Result<(), Trap>)
      modifies this
      ensures (r, Snap()) == SetOwnerOp(old(Snap()), caller, newOwner)
    {
      var currentOwner := owner;
      if currentOwner != caller {
        return Err(Unauthorized("Only current owner can change owner"));
      }
      owner := newOwner;
      return Ok(());
    }

    /** `is_configured`. */
    function IsConfigured(): (b: bool)
      reads this
      ensures b <==> config.Some?
    {
      config.Some?
    }

    method UpdateConfig(caller: Principal, newConfig: CanisterConfig) returns (r: Result<(), Trap>)
      modifies this
      ensures (r, Snap()) == UpdateConfigOp(old(Snap()), caller, newConfig)
    {
      if owner != caller {
        return Err(Unauthorized("Only owner can update config"));
      }
      config := Some(newConfig);
      return Ok(());
    }

    /** `get_config`: traps when no configuration is stored. */
    function Config(): (r: Result<CanisterConfig, Trap>)
      reads this
      ensures r.Ok? <==> config.Some?
      ensures r.Ok? ==> r.value == config.value
      ensures r.Err? ==> r.error == NotConfigured
    {
      match config
      case None => Err(NotConfigured)
      case Some(c) => Ok(c)
    }

    /** `get_constellation_url`. */
    function ConstellationUrl(): (r: Result<string, Trap>)
      reads this
      ensures r.Ok? <==> config.Some?
      ensures r.Ok? ==> r.value == config.value.constellationMetagraphUrl
      ensures r.Err? ==> r.error == NotConfigured
    {
      match config
      case None => Err(NotConfigured)
      case Some(c) => Ok(c.constellationMetagraphUrl)
    }

    /** `get_deepseek_api_key`. */
    function DeepseekApiKey(): (r: Result<string, Trap>)
      reads this
      ensures r.Ok? <==> config.Some?
      ensures r.Ok? ==> r.value == config.value.deepseekApiKey
      ensures r.Err? ==> r.error == NotConfigured
    {
      match config
      case None => Err(NotConfigured)
      case Some(c) => Ok(c.deepseekApiKey)
    }

    method GetAndIncrementNonce() returns (r: Result<uint256, Trap>)
      modifies this
      ensures (r, Snap()) == IncrementNonceOp(old(Snap()))
    {
      var currentNonce := evmNonce;
      if currentNonce + 1 >= TWO_256 {
        return Err(ArithmeticOverflow);
      }
      evmNonce := currentNonce + 1;
      return Ok(currentNonce);
    }

    method RefreshNonce(answer: Result<Value, string>) returns (r: Result<uint64, NonceError>)
      modifies this
      ensures (r, Snap()) == RefreshNonceOp(old(Snap()), answer)
    {
      if answer.Err? {
        return Err(EarlierStepFailed(answer.error));
      }
      r := NonceFromResponse(answer.value);
      if r.Ok? {
        evmNonce := r.value;
      }
    }

    method DeployNftContract(deployment: Result<string, string>) returns (r: Result<string, DeployError>)
      modifies this
      ensures (r, Snap()) == DeployOp(old(Snap()), deployment)
    {
      var alreadyDeployed := nftContractAddress.Some?;
      if alreadyDeployed {
        return Err(AlreadyDeployed);
      }
      if deployment.Err? {
        return Err(DeploymentFailed(deployment.error));
      }
      var contractAddress := deployment.value;
      nftContractAddress := Some(contractAddress);
      return Ok(contractAddress);
    }

    /** `set_nft_contract_address`: no check at all. */
    method SetNftContractAddress(address: string)
      modifies this
      ensures Snap() == old(Snap()).(nftContractAddress := Some(address))
    {
      nftContractAddress := Some(address);
    }
  }

  // ---------------------------------------------------------------------------
  // generate_and_register_ip
  // ---------------------------------------------------------------------------

  /** The metadata URI passed to the registration: a placeholder path
      around the content hash. */
  function MetadataUri(contentHash: string): (u: string)
    ensures |u| == 33 + |contentHash| && u[..19] == "ipfs://placeholder/"
    ensures u[19..19 + |contentHash|] == contentHash && u[19 + |contentHash|..] == "/metadata.json"
  {
    "ipfs://placeholder/" + contentHash + "/metadata.json"
  }

  /** The IP id and token id of the output: those parsed from the receipt,
      or else the transaction hash and token 0. */
  function IpIdAndTokenId(storyTxHash: string, parsed: Option<(string, uint64)>): (r: (string, uint64))
    ensures parsed.Some? ==> r == parsed.value
    ensures parsed.None? ==> r == (storyTxHash, 0)
  {
    match parsed
    case Some(values) => values
    case None => (storyTxHash, 0)
  }

  /** The SPG collection as text: "0x" and the lower-case hex of its bytes. */
  function SpgNftContractText(): (t: string)
    ensures |t| == 42 && t[..2] == "0x" && IsLowerHex(t[2..])
    ensures HexDecode(t[2..]) == Some(IcpConfig.SPG_NFT_CONTRACT)
  {
    HexRoundTrip(IcpConfig.SPG_NFT_CONTRACT);
    assert ("0x" + HexEncode(IcpConfig.SPG_NFT_CONTRACT))[2..] == HexEncode(IcpConfig.SPG_NFT_CONTRACT);
    "0x" + HexEncode(IcpConfig.SPG_NFT_CONTRACT)
  }

  /** The Constellation hash of the output: the logged hash, or when
      logging fails "CONST-ERROR-" and the time in decimal. */
  function ConstellationTxHash(logged: Result<string, string>, now: uint64): (h: string)
    ensures logged.Ok? ==> h == logged.value
    ensures logged.Err? ==>
              |h| > 12 && h[..12] == "CONST-ERROR-"
              && (forall i :: 12 <= i < |h| ==> IsDecimalDigit(h[i]))
              && DecimalValue(h[12..]) == now
  {
    match logged
    case Ok(hash) => hash
    case Err(_) =>
      DecimalRoundTrip(now);
      assert ("CONST-ERROR-" + DecimalString(now))[12..] == DecimalString(now);
      "CONST-ERROR-" + DecimalString(now)
  }

  /** The proof `generate_and_register_ip` logs. */
  function GenerationProof(contentHash: string, now: uint64, ids: (string, uint64))
    : BrainConstellation.ProofOfGeneration
  {
    BrainConstellation.ProofOfGeneration(contentHash, "deepseek-chat", now, ids.0,
                                         SpgNftContractText(), ids.1, "ICP-Canister")
  }

  /** `GenerationOutput` of the ICP canister. */
  datatype GenerationOutput = GenerationOutput(
    imageUrl: string,
    contentHash: string,
    storyIpId: string,
    storyTxHash: string,
    storyNftContract: string,
    storyTokenId: uint64,
    constellationTxHash: string,
    aiModelId: string)

  /** Why `generate_and_register_ip` fails. */
  datatype GenerationError =
    | AiGenerationFailed(message: string)
    | RegistrationFailed(message: string)
    | ConfigTrap(trap: Trap)

  /** `generate_and_register_ip`, given the outcome of the content
      generation, the registration on Story Protocol (a transaction hash
      and maybe the IP id and token id parsed from its receipt), the
      Constellation logger and the times it reads. A failed generation or
      registration is an error; a failed Constellation log is not; a
      missing configuration traps after the registration. */
  function GenerateAndRegisterIp(
    config: Option<CanisterConfig>,
    generated: Result<(string, string), string>,
    register: (string, string) -> Result<(string, Option<(string, uint64)>), string>,
    logProof: (string, BrainConstellation.ProofOfGeneration) -> Result<string, string>,
    proofTime: uint64, fallbackTime: uint64)
    : (r: Result<GenerationOutput, GenerationError>)
    ensures generated.Err? ==> r == Err(AiGenerationFailed(generated.error))
    ensures generated.Ok? ==>
              var registered := register(generated.value.1, MetadataUri(generated.value.1));
              (registered.Err? ==> r == Err(RegistrationFailed(registered.error)))
              && (registered.Ok? && config.None? ==> r == Err(ConfigTrap(NotConfigured)))
              && (r.Ok? <==> registered.Ok? && config.Some?)
              && (r.Ok? ==>
                    var ids := IpIdAndTokenId(registered.value.0, registered.value.1);
                    r.value.imageUrl == generated.value.0 && r.value.contentHash == generated.value.1
                    && r.value.storyTxHash == registered.value.0
                    && r.value.storyIpId == ids.0 && r.value.storyTokenId == ids.1
                    && r.value.storyNftContract == SpgNftContractText()
                    && r.value.aiModelId == "deepseek-chat"
                    && r.value.constellationTxHash ==
                         ConstellationTxHash(logProof(config.value.constellationMetagraphUrl,
                                                      GenerationProof(generated.value.1, proofTime, ids)),
                                             fallbackTime))
  {
    match generated
    case Err(message) => Err(AiGenerationFailed(message))
    case Ok(content) =>
      var imageUrl := content.0;
      var contentHash := content.1;
      match register(contentHash, MetadataUri(contentHash))
      case Err(message) => Err(RegistrationFailed(message))
      case Ok(registered) =>
        var storyTxHash := registered.0;
        var ids := IpIdAndTokenId(storyTxHash, registered.1);
        match config
        case None => Err(ConfigTrap(NotConfigured))
        case Some(cfg) =>
          var logged := logProof(cfg.constellationMetagraphUrl, GenerationProof(contentHash, proofTime, ids));
          Ok(GenerationOutput(imageUrl, contentHash, ids.0, storyTxHash, SpgNftContractText(), ids.1,
                              ConstellationTxHash(logged, fallbackTime), "deepseek-chat"))
  }

  /** Without parsed receipt values the output names the transaction hash
      as the IP id and token 0, and the logged proof carries the same
      placeholders; a failing logger still gives an output. */
  lemma PlaceholdersWithoutReceipt(
    config: CanisterConfig, imageUrl: string, contentHash: string, txHash: string,
    logProof: (string, BrainConstellation.ProofOfGeneration) -> Result<string, string>,
    proofTime: uint64, fallbackTime: uint64)
    requires logProof(config.constellationMetagraphUrl,
                      GenerationProof(contentHash, proofTime, (txHash, 0))).Err?
    ensures var r := GenerateAndRegisterIp(Some(config), Ok((imageUrl, contentHash)),
                                           (_, _) => Ok((txHash, None)), logProof, proofTime, fallbackTime);
            r.Ok? && r.value.storyIpId == txHash && r.value.storyTokenId == 0
            && r.value.constellationTxHash[..12] == "CONST-ERROR-"
  {
  }
}
