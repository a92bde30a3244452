/** What both canisters' `http_util.rs` share: the management canister's
    HTTP response record, the `http_transform` query that sanitises
    responses for consensus, the classification of a response by status in
    `make_http_request`, and the two header builders. The two crates hold
    the same code for all of these; only the cycle cost differs (see
    IcpHttpUtil and BrainHttpUtil). */
module HttpOutcall {
  import opened Wrappers
  import opened Bytes

  datatype HttpHeader = HttpHeader(name: string, value: string)

  /** `HttpResponse`: the status is a candid `Nat`, so it is unbounded. */
  datatype HttpResponse = HttpResponse(status: nat, headers: seq<HttpHeader>, body: seq<uint8>)

  /** The reject that `http_request` returns when the outcall itself fails. */
  datatype Reject = Reject(code: nat, message: string)

  /** Why `make_http_request` returns an error. */
  datatype HttpError =
    | OutcallFailed(reject: Reject)
    | HttpStatusError(status: nat, body: seq<uint8>)

  /** The body size above which `http_transform` traps: 1 MiB. */
  const MAX_TRANSFORMED_BODY: nat := 1024 * 1024

  /** The trap of `http_transform`. */
  datatype TransformTrap = BodyTooLarge(size: nat)

  /** `http_transform`: the headers are dropped; a body larger than 1 MiB
      traps; otherwise status and body are kept as they are. */
  function Transformed(response: HttpResponse): (r: Result<HttpResponse, TransformTrap>)
    ensures r.Ok? <==> |response.body| <= 1048576
    ensures r.Err? ==> r.error == BodyTooLarge(|response.body|)
    ensures r.Ok? ==> r.value.headers == [] && r.value.status == response.status
                      && r.value.body == response.body
  {
    if |response.body| > MAX_TRANSFORMED_BODY then Err(BodyTooLarge(|response.body|))
    else Ok(response.(headers := []))
  }

  /** `http_transform` as written: it takes the response, clears its
      headers in place and then checks the body size. */
  method HttpTransform(response: HttpResponse) returns (r: Result<HttpResponse, TransformTrap>)
    ensures r == Transformed(response)
  {
    var res := response;
    res := res.(headers := []);
    if |res.body| > MAX_TRANSFORMED_BODY {
      return Err(BodyTooLarge(|res.body|));
    }
    return Ok(res);
  }

  /** Applying the transform to a transformed response changes nothing, so
      every replica that runs it again reaches the same response. */
  lemma TransformIdempotent(response: HttpResponse)
    requires Transformed(response).Ok?
    ensures Transformed(Transformed(response).value) == Transformed(response)
  {
  }

  /** Two responses that differ only in their headers transform alike: the
      headers cannot cause a disagreement between replicas. */
  lemma TransformIgnoresHeaders(a: HttpResponse, b: HttpResponse)
    requires a.status == b.status && a.body == b.body
    ensures Transformed(a) == Transformed(b)
  {
  }

  const TWO_32: nat := 0x1_0000_0000

  /** `response.status.0.try_into().unwrap_or(500)` into a `u32`. */
  function StatusCode(status: nat): (code: nat)
    ensures code < TWO_32
    ensures status < TWO_32 ==> code == status
    ensures status >= TWO_32 ==> code == 500
  {
    if status < TWO_32 then status else 500
  }

  predicate IsSuccess(code: nat) {
    200 <= code < 300
  }

  /** The reply of `make_http_request` once the outcall has returned: the
      body for a 2xx status, an error carrying the status and the body
      otherwise, and the reject when the outcall failed. */
  function ClassifyResponse(outcome: Result<HttpResponse, Reject>): (r: Result<seq<uint8>, HttpError>)
    ensures outcome.Err? ==> r == Err(OutcallFailed(outcome.error))
    ensures outcome.Ok? ==>
              (r.Ok? <==> IsSuccess(StatusCode(outcome.value.status)))
    ensures r.Ok? ==> outcome.Ok? && r.value == outcome.value.body
    ensures outcome.Ok? && r.Err? ==>
              r.error == HttpStatusError(StatusCode(outcome.value.status), outcome.value.body)
  {
    match outcome
    case Err(reject) => Err(OutcallFailed(reject))
    case Ok(response) =>
      var code := StatusCode(response.status);
      if code >= 200 && code < 300 then Ok(response.body)
      else Err(HttpStatusError(code, response.body))
  }

  /** A status that does not fit in 32 bits is reported as 500 and so is
      never a success, whatever the server sent. */
  lemma HugeStatusIsError(response: HttpResponse)
    requires response.status >= TWO_32
    ensures ClassifyResponse(Ok(response)) == Err(HttpStatusError(500, response.body))
  {
  }

  /** `json_header()`. */
  function JsonHeader(): (h: HttpHeader)
    ensures h.name == "Content-Type" && h.value == "application/json"
  {
    HttpHeader("Content-Type", "application/json")
  }

  /** `auth_header(token)`: a bearer token. */
  function AuthHeader(token: string): (h: HttpHeader)
    ensures h.name == "Authorization"
    ensures |h.value| == 7 + |token| && h.value[..7] == "Bearer " && h.value[7..] == token
  {
    HttpHeader("Authorization", "Bearer " + token)
  }

  /** The token can be read back from the header. */
  lemma AuthHeaderInjective(a: string, b: string)
    ensures AuthHeader(a) == AuthHeader(b) <==> a == b
  {
    if AuthHeader(a) == AuthHeader(b) {
      assert a == AuthHeader(a).value[7..];
    }
  }

  /** `body.as_ref().map_or(0, |b| b.len())`. */
  function RequestSize(body: Option<seq<uint8>>): nat {
    match body
    case Some(b) => |b|
    case None => 0
  }

  datatype HttpMethod = GET | POST | HEAD

  /** `CanisterHttpRequestArgument`; the transform context always names
      the canister's own `http_transform` query. */
  datatype RequestArgument = RequestArgument(
    url: string,
    httpMethod: HttpMethod,
    body: Option<seq<uint8>>,
    maxResponseBytes: Option<nat>,
    headers: seq<HttpHeader>,
    transformMethod: string)
}
