/** How the canisters read the JSON-RPC answers of the Story Protocol node
    (`broadcast_transaction` in both crates, `get_transaction_receipt` in
    the brain canister). The HTTP round trip, the UTF-8 check of the body
    and the parsing of the JSON text happen before this and are not
    modelled: interpretation starts from the parsed response. */
module JsonRpc {
  import opened Wrappers
  import opened Json

  /** Why an answer is refused: the node put an "error" member in it, or
      it has no usable "result". */
  datatype RpcError =
    | RpcErrorMember(error: Value)
    | NoResult

  /** `v[key].as_str()` is `v.get(key).and_then(as_str)`: indexing gives
      `Null` where `get` has nothing, and `Null` is not a string. */
  lemma IndexAsStr(v: Value, key: string)
    ensures AsStr(Index(v, key)) == GetStr(v, key)
  {
  }

  /** The answer to `eth_sendRawTransaction`: an "error" member wins,
      whatever else the answer holds; otherwise "result" must be a string,
      the transaction hash. */
  function SendRawTransactionResult(response: Value): (r: Result<string, RpcError>)
    ensures Get(response, "error").Some? ==> r == Err(RpcErrorMember(Get(response, "error").value))
    ensures Get(response, "error").None? ==> (r.Ok? <==> GetStr(response, "result").Some?)
    ensures r.Ok? ==> Get(response, "result") == Some(Str(r.value))
    ensures Get(response, "error").None? && r.Err? ==> r.error == NoResult
  {
    match Get(response, "error")
    case Some(e) => Err(RpcErrorMember(e))
    case None =>
      match AsStr(Index(response, "result"))
      case Some(h) => Ok(h)
      case None => Err(NoResult)
  }

  /** The answer to `eth_getTransactionReceipt`: an "error" member wins;
      otherwise the "result" member, whatever its kind, is the receipt. A
      transaction that is not mined yet has a `null` receipt, which is
      passed on. */
  function ReceiptResult(response: Value): (r: Result<Value, RpcError>)
    ensures Get(response, "error").Some? ==> r == Err(RpcErrorMember(Get(response, "error").value))
    ensures Get(response, "error").None? ==> (r.Ok? <==> Get(response, "result").Some?)
    ensures r.Ok? ==> Get(response, "result") == Some(r.value)
    ensures Get(response, "error").None? && r.Err? ==> r.error == NoResult
  {
    match Get(response, "error")
    case Some(e) => Err(RpcErrorMember(e))
    case None =>
      match Get(response, "result")
      case Some(receipt) => Ok(receipt)
      case None => Err(NoResult)
  }

  /** An answer that is not a JSON object has neither member. */
  lemma NonObjectHasNoResult(response: Value)
    requires !response.Object?
    ensures SendRawTransactionResult(response) == Err(NoResult)
    ensures ReceiptResult(response) == Err(NoResult)
  {
  }

  /** A `null` result is refused as a transaction hash but accepted as a
      receipt. */
  lemma NullResult(response: Value)
    requires response.Object? && "error" !in response.fields
    requires "result" in response.fields && response.fields["result"] == Null
    ensures SendRawTransactionResult(response) == Err(NoResult)
    ensures ReceiptResult(response) == Ok(Null)
  {
  }
}
