/** The byte-level and JSON-level steps of `src/brain_canister/src/nft_deployment.rs`:
    the deployment data of the SimpleNFT contract (its bytecode followed by
    the constructor arguments), the calldata of `mint(address,string,string)`,
    the status checks on the receipts of both transactions, and the token
    id read from the `NFTMinted` event of a mint receipt. Signing,
    transaction building and the RPC round trips are not modelled. */
module BrainNftDeployment {
  import opened Wrappers
  import opened Bytes
  import opened Crypto
  import opened Abi
  import opened Json
  import opened RadixParse

  // ---------------------------------------------------------------------------
  // Deployment data
  // ---------------------------------------------------------------------------

  /** Why the bytecode cannot be taken from the compiled contract. */
  datatype BytecodeError =
    | BytecodeNotFound
    | BytecodeNotHex(text: string)

  /** The bytecode of `deploy_simple_nft`: `bytecode.object` of the
      compiled contract must be a string, and after its leading "0x"
      prefixes it must be hex. */
  function ContractBytecode(compiled: Value): (r: Result<seq<uint8>, BytecodeError>)
    ensures AsStr(Index(Index(compiled, "bytecode"), "object")).None? ==> r == Err(BytecodeNotFound)
    ensures var t := AsStr(Index(Index(compiled, "bytecode"), "object"));
            t.Some? ==> (r.Ok? <==> HexDecode(TrimLeading0x(t.value)).Some?)
    ensures r.Ok? ==>
              HexDecode(TrimLeading0x(AsStr(Index(Index(compiled, "bytecode"), "object")).value))
              == Some(r.value)
  {
    match AsStr(Index(Index(compiled, "bytecode"), "object"))
    case None => Err(BytecodeNotFound)
    case Some(text) =>
      match HexDecode(TrimLeading0x(text))
      case None => Err(BytecodeNotHex(text))
      case Some(code) => Ok(code)
  }

  /** The compiled-contract layout the build tool writes: bytecode hex with
      a "0x" under `bytecode.object`. Its bytes are recovered exactly. */
  lemma BytecodeRoundTrip(code: seq<uint8>)
    ensures var compiled := Object(map["bytecode" := Object(map["object" := Str("0x" + HexEncode(code))])]);
            ContractBytecode(compiled) == Ok(code)
  {
    var t := "0x" + HexEncode(code);
    assert t[2..] == HexEncode(code);
    if |code| > 0 {
      HexEncodeDigits(code);
      assert HexEncode(code)[1] == LowerHexDigit(code[0] % 16);
      assert !StartsWith0x(HexEncode(code));
    } else {
      assert HexEncode(code) == [];
    }
    assert TrimLeading0x(t) == HexEncode(code);
    HexRoundTrip(code);
  }

  function ConstructorArgs(name: string, symbol: string): seq<Token> {
    [String(name), String(symbol)]
  }

  /** What the constructor arguments say: the name and the symbol. */
  predicate ConstructorArgsReadAs(e: seq<uint8>, name: string, symbol: string) {
    |e| >= 64
    && ReadDynamicBytes(e, ReadWord(e, 0)) == Some(Utf8(name))
    && ReadDynamicBytes(e, ReadWord(e, 32)) == Some(Utf8(symbol))
  }

  lemma ConstructorLayout(name: string, symbol: string)
    requires |EncodeSeq(ConstructorArgs(name, symbol))| < TWO_256
    ensures ConstructorArgsReadAs(EncodeSeq(ConstructorArgs(name, symbol)), name, symbol)
  {
    var ts := ConstructorArgs(name, symbol);
    assert Parts(ts)[..0] == [];
    ArgsHeadsLength(ts, 1);
    StringArgReadBack(ts, 0, name);
    StringArgReadBack(ts, 1, symbol);
  }

  /** The deployment data of `deploy_simple_nft`: the bytecode, unchanged,
      extended in place by the ABI encoding of the name and the symbol. */
  method BuildDeploymentData(bytecode: seq<uint8>, name: string, symbol: string)
    returns (data: seq<uint8>)
    ensures |data| >= |bytecode| && data[..|bytecode|] == bytecode
    ensures data[|bytecode|..] == EncodeSeq(ConstructorArgs(name, symbol))
    ensures |data| < TWO_256 ==> ConstructorArgsReadAs(data[|bytecode|..], name, symbol)
  {
    var constructorParams := EncodeSeq(ConstructorArgs(name, symbol));
    data := bytecode;
    data := data + constructorParams;
    assert data[|bytecode|..] == constructorParams;
    if |data| < TWO_256 {
      ConstructorLayout(name, symbol);
    }
  }

  // ---------------------------------------------------------------------------
  // mint(address,string,string)
  // ---------------------------------------------------------------------------

  datatype MintCalldataError = InvalidRecipient(text: string)

  /** `mint(address,string,string)`. */
  const MINT_SELECTOR: seq<uint8> := [0x99, 0x07, 0x11, 0x90]

  /** The selector text `build_mint_calldata` decodes; it always decodes. */
  lemma MintSelectorDecodes()
    ensures HexDecode("99071190") == Some(MINT_SELECTOR)
  {
    var d := "99071190";
    assert AllHexDigits(d) by {
      forall i | 0 <= i < |d| ensures IsHexDigit(d[i]) {}
    }
    var v := HexDecode(d).value;
    assert v[0] == 0x99 && v[1] == 0x07 && v[2] == 0x11 && v[3] == 0x90;
    assert v == MINT_SELECTOR;
  }

  function MintArgs(to: Address20, contentHash: string, metadataUri: string): seq<Token> {
    [Address(to), String(contentHash), String(metadataUri)]
  }

  /** What the argument bytes of `mint` say: the recipient, the content
      hash and the metadata URI. */
  predicate MintReadsAs(e: seq<uint8>, to: seq<uint8>, contentHash: string, metadataUri: string) {
    |e| >= 96 && ReadAddress(e, 0) == to
    && ReadDynamicBytes(e, ReadWord(e, 32)) == Some(Utf8(contentHash))
    && ReadDynamicBytes(e, ReadWord(e, 64)) == Some(Utf8(metadataUri))
  }

  lemma MintLayout(to: Address20, contentHash: string, metadataUri: string)
    requires |EncodeSeq(MintArgs(to, contentHash, metadataUri))| < TWO_256
    ensures MintReadsAs(EncodeSeq(MintArgs(to, contentHash, metadataUri)), to, contentHash, metadataUri)
  {
    var ts := MintArgs(to, contentHash, metadataUri);
    assert Parts(ts)[..0] == [];
    ArgsHeadsLength(ts, 1);
    ArgsHeadsLength(ts, 2);
    AddressArgReadBack(ts, 0, to);
    StringArgReadBack(ts, 1, contentHash);
    StringArgReadBack(ts, 2, metadataUri);
  }

  /** `build_mint_calldata`: the recipient text must parse as an address;
      the calldata is the selector extended in place by the ABI encoding of
      the recipient and the two strings. */
  method BuildMintCalldata(c: Primitives, to: string, contentHash: string, metadataUri: string)
    returns (r: Result<seq<uint8>, MintCalldataError>)
    ensures r.Ok? <==> ParseH160(c, to).Some?
    ensures r.Err? ==> r.error == InvalidRecipient(to)
    ensures r.Ok? ==> |r.value| >= 4 && r.value[..4] == MINT_SELECTOR
    ensures r.Ok? ==> r.value[4..] == EncodeSeq(MintArgs(ParseH160(c, to).value, contentHash, metadataUri))
    ensures r.Ok? && |r.value| < TWO_256 ==>
              MintReadsAs(r.value[4..], ParseH160(c, to).value, contentHash, metadataUri)
  {
    var parsed := ParseH160(c, to);
    if parsed.None? {
      return Err(InvalidRecipient(to));
    }
    var toAddress := parsed.value;
    MintSelectorDecodes();
    var functionSelector := HexDecode("99071190").value;
    var params := EncodeSeq(MintArgs(toAddress, contentHash, metadataUri));
    var calldata := functionSelector;
    calldata := calldata + params;
    assert calldata[4..] == params;
    if |calldata| < TWO_256 {
      MintLayout(toAddress, contentHash, metadataUri);
    }
    return Ok(calldata);
  }

  // ---------------------------------------------------------------------------
  // Receipts
  // ---------------------------------------------------------------------------

  /** Why a receipt is refused. */
  datatype ReceiptError =
    | MissingStatus
    | DeploymentFailed
    | MintingFailed
    | NoContractAddress
    | NoLogs
    | EmptyLogs
    | NoTopics
    | NotEnoughTopics(count: nat)
    | TokenIdNotString
    | BadTokenId(text: string, kind: IntErrorKind)

  /** A receipt whose status is the string "0x1", and nothing else. */
  predicate Succeeded(receipt: Value) {
    GetStr(receipt, "status") == Some("0x1")
  }

  /** The end of `deploy_simple_nft`: the status must be a string, it must
      be exactly "0x1", and then `contractAddress` must be a string, which
      is the result. */
  function DeployedContractAddress(receipt: Value): (r: Result<string, ReceiptError>)
    ensures GetStr(receipt, "status").None? ==> r == Err(MissingStatus)
    ensures GetStr(receipt, "status").Some? && !Succeeded(receipt) ==> r == Err(DeploymentFailed)
    ensures Succeeded(receipt) && GetStr(receipt, "contractAddress").None? ==> r == Err(NoContractAddress)
    ensures r.Ok? <==> Succeeded(receipt) && GetStr(receipt, "contractAddress").Some?
    ensures r.Ok? ==> Get(receipt, "contractAddress") == Some(Str(r.value))
  {
    match GetStr(receipt, "status")
    case None => Err(MissingStatus)
    case Some(status) =>
      if status != "0x1" then Err(DeploymentFailed)
      else
        match GetStr(receipt, "contractAddress")
        case None => Err(NoContractAddress)
        case Some(address) => Ok(address)
  }

  /** The `topics` of the first log entry, when `logs` is a non-empty
      array and that entry has a `topics` array. */
  predicate FirstLogTopics(receipt: Value, topics: seq<Value>) {
    GetArray(receipt, "logs").Some? && |GetArray(receipt, "logs").value| > 0
    && GetArray(GetArray(receipt, "logs").value[0], "topics") == Some(topics)
  }

  /** `extract_token_id_from_receipt`: `logs` must be a non-empty array;
      only its first entry is looked at, whose `topics` must be an array of
      at least three entries; the third, the indexed token id, must be a
      string holding a hex `u64` after its leading "0x" prefixes. Each
      guard has its own error, and a first log that passes them all gives
      exactly what the hex parse gives. */
  function ExtractTokenId(receipt: Value): (r: Result<uint64, ReceiptError>)
    ensures GetArray(receipt, "logs").None? ==> r == Err(NoLogs)
    ensures GetArray(receipt, "logs") == Some([]) ==> r == Err(EmptyLogs)
    ensures var logs := GetArray(receipt, "logs");
            logs.Some? && |logs.value| > 0 && GetArray(logs.value[0], "topics").None? ==>
              r == Err(NoTopics)
    ensures forall topics: seq<Value> ::
              FirstLogTopics(receipt, topics) ==>
                (|topics| < 3 ==> r == Err(NotEnoughTopics(|topics|)))
                && (|topics| >= 3 && AsStr(topics[2]).None? ==> r == Err(TokenIdNotString))
                && (|topics| >= 3 && AsStr(topics[2]).Some? ==>
                      var text := AsStr(topics[2]).value;
                      (r.Ok? <==> ParsePrefixedHexU64(text).Ok?)
                      && (r.Ok? ==> r.value == ParsePrefixedHexU64(text).value)
                      && (r.Err? ==> r.error == BadTokenId(text, ParsePrefixedHexU64(text).error)))
    ensures r.Ok? ==>
              var logs := GetArray(receipt, "logs");
              logs.Some? && |logs.value| > 0 && GetArray(logs.value[0], "topics").Some?
              && |GetArray(logs.value[0], "topics").value| >= 3
              && AsStr(GetArray(logs.value[0], "topics").value[2]).Some?
              && ParsePrefixedHexU64(AsStr(GetArray(logs.value[0], "topics").value[2]).value) == Ok(r.value)
  {
    match GetArray(receipt, "logs")
    case None => Err(NoLogs)
    case Some(logs) =>
      if |logs| == 0 then Err(EmptyLogs)
      else
        match GetArray(logs[0], "topics")
        case None => Err(NoTopics)
        case Some(topics) =>
          if |topics| < 3 then Err(NotEnoughTopics(|topics|))
          else
            match AsStr(topics[2])
            case None => Err(TokenIdNotString)
            case Some(text) =>
              match ParsePrefixedHexU64(text)
              case Err(kind) => Err(BadTokenId(text, kind))
              case Ok(tokenId) => Ok(tokenId)
  }

  /** The end of `mint_nft`: the status checks of the deployment, then the
      token id of the event. */
  function MintedTokenId(receipt: Value): (r: Result<uint64, ReceiptError>)
    ensures GetStr(receipt, "status").None? ==> r == Err(MissingStatus)
    ensures GetStr(receipt, "status").Some? && !Succeeded(receipt) ==> r == Err(MintingFailed)
    ensures Succeeded(receipt) ==> r == ExtractTokenId(receipt)
    ensures r.Ok? ==> Succeeded(receipt)
  {
    match GetStr(receipt, "status")
    case None => Err(MissingStatus)
    case Some(status) =>
      if status != "0x1" then Err(MintingFailed)
      else ExtractTokenId(receipt)
  }

  /** A successful receipt whose first log entry has a string third topic,
      whatever else that entry, the other entries and the receipt hold,
      gives the hex parse of that topic. */
  lemma ThirdTopicIsParsed(receipt: Value, topics: seq<Value>, text: string)
    requires Succeeded(receipt) && FirstLogTopics(receipt, topics)
    requires |topics| >= 3 && topics[2] == Str(text)
    ensures MintedTokenId(receipt) ==
              match ParsePrefixedHexU64(text)
              case Ok(t) => Ok(t)
              case Err(kind) => Err(BadTokenId(text, kind))
  {
    assert AsStr(topics[2]) == Some(text);
  }

  /** A topic in the word form a node sends (`0x` and 64 hex digits) gives
      the token id when it fits in a `u64` and `PosOverflow` otherwise. */
  lemma TokenIdFromTopicWord(receipt: Value, topics: seq<Value>, tokenId: nat)
    requires tokenId < TWO_256
    requires Succeeded(receipt) && FirstLogTopics(receipt, topics) && |topics| >= 3
    requires topics[2] == Str("0x" + HexEncode(BigEndian(tokenId, 32)))
    ensures MintedTokenId(receipt) ==
              if tokenId < TWO_64 then Ok(tokenId)
              else Err(BadTokenId("0x" + HexEncode(BigEndian(tokenId, 32)), PosOverflow))
  {
    ThirdTopicIsParsed(receipt, topics, "0x" + HexEncode(BigEndian(tokenId, 32)));
    WordTextParses(tokenId);
  }

  /** Fewer than three topics are not enough, even when the second holds a
      number. */
  lemma FewTopicsRefused(receipt: Value, topics: seq<Value>)
    requires Succeeded(receipt) && FirstLogTopics(receipt, topics) && |topics| < 3
    ensures MintedTokenId(receipt) == Err(NotEnoughTopics(|topics|))
  {
  }

  /** A receipt as a node sends it: besides the status it carries the
      transaction hash, and its log entry the emitting address and the
      event's data. The `NFTMinted` topic holding token 7 gives token 7. */
  lemma NodeReceiptExample(address: string, data: string, txHash: string)
    ensures var tokenWord := "0x" + HexEncode(BigEndian(7, 32));
            var log := Object(map["address" := Str(address),
                                  "topics" := Array([Str("0xevent"), Str("0xowner"), Str(tokenWord)]),
                                  "data" := Str(data)]);
            var receipt := Object(map["status" := Str("0x1"), "transactionHash" := Str(txHash),
                                      "logs" := Array([log])]);
            MintedTokenId(receipt) == Ok(7)
  {
    var tokenWord := "0x" + HexEncode(BigEndian(7, 32));
    var topics := [Str("0xevent"), Str("0xowner"), Str(tokenWord)];
    var log := Object(map["address" := Str(address), "topics" := Array(topics), "data" := Str(data)]);
    var receipt := Object(map["status" := Str("0x1"), "transactionHash" := Str(txHash),
                              "logs" := Array([log])]);
    assert GetStr(receipt, "status") == Some("0x1");
    assert GetArray(receipt, "logs") == Some([log]);
    assert GetArray(log, "topics") == Some(topics);
    TokenIdFromTopicWord(receipt, topics, 7);
  }

  /** The status is compared as text: "0x01" and "0x2", whatever they mean
      to the node, fail both checks, and "0x0" is a failed transaction. */
  lemma StatusIsExact(receipt: Value, status: string)
    requires status in ["0x01", "0x0", "0x2", "1"]
    requires receipt.Object? && receipt.fields == map["status" := Str(status)]
    ensures DeployedContractAddress(receipt) == Err(DeploymentFailed)
    ensures MintedTokenId(receipt) == Err(MintingFailed)
  {
    assert GetStr(receipt, "status") == Some(status);
  }

  /** A receipt that is `null`, as for a transaction not yet mined, has no
      status. */
  lemma PendingReceiptHasNoStatus()
    ensures DeployedContractAddress(Null) == Err(MissingStatus)
    ensures MintedTokenId(Null) == Err(MissingStatus)
  {
  }
}
