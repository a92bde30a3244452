/** The parts of `packages/icp/src/http_util.rs` that differ from the
    brain canister: the cycle budget of `make_http_request`, with per-byte
    costs scaled by the subnet size and a 20% margin, and `http_post`,
    which hands back every HTTP response whatever its status. */
module IcpHttpUtil {
  import opened Wrappers
  import opened Bytes
  import opened HttpOutcall

  /** Replicas of the subnet that each perform the outcall. */
  const NODES: nat := 13

  /** The response size budgeted for by `make_http_request`. */
  const MAX_RESPONSE_BYTES: nat := 1024 * 1024

  /** The request `make_http_request` hands to the management canister. */
  function MakeRequestArgument(url: string, httpMethod: HttpMethod, headers: seq<HttpHeader>,
                               body: Option<seq<uint8>>): (a: RequestArgument)
    ensures a.maxResponseBytes == Some(1048576) && a.transformMethod == "http_transform"
    ensures a.url == url && a.httpMethod == httpMethod && a.headers == headers && a.body == body
  {
    RequestArgument(url, httpMethod, body, Some(MAX_RESPONSE_BYTES), headers, "http_transform")
  }

  /** The cycles `make_http_request` attaches, computed in the source's
      steps: a base cost per node, 400 per request byte and 800 per
      budgeted response byte, each times the node count, plus 20% with
      integer division. The contract gives the closed form. */
  function RequestCycles(body: Option<seq<uint8>>): (c: nat)
    ensures c == 13_145_196_480 + 6_240 * RequestSize(body)
  {
    var size := RequestSize(body);
    var base := (3_000_000 + 60_000 * NODES) * NODES;
    var request := 400 * size * NODES;
    var response := 800 * MAX_RESPONSE_BYTES * NODES;
    var total := base + request + response;
    BufferArith(size);
    (total * 12) / 10
  }

  lemma BufferArith(size: nat)
    ensures ((3_000_000 + 60_000 * 13) * 13 + 400 * size * 13 + 800 * (1024 * 1024) * 13) * 12 / 10
            == 13_145_196_480 + 6_240 * size
  {
    var total := (3_000_000 + 60_000 * 13) * 13 + 400 * size * 13 + 800 * (1024 * 1024) * 13;
    assert total == 10_954_330_400 + 5_200 * size;
    assert total * 12 == 10 * (13_145_196_480 + 6_240 * size) + 0;
    DivUnique(total * 12, 10, 13_145_196_480 + 6_240 * size, 0);
  }

  /** A larger request body never costs fewer cycles. */
  lemma RequestCyclesMonotone(a: Option<seq<uint8>>, b: Option<seq<uint8>>)
    requires RequestSize(a) <= RequestSize(b)
    ensures RequestCycles(a) <= RequestCycles(b)
  {
  }

  /** No body costs the same as an empty body. */
  lemma NoBodyIsEmptyBody()
    ensures RequestCycles(None) == RequestCycles(Some([])) == 13_145_196_480
  {
  }

  /** The response budget of `http_post`: 10 000 bytes. */
  const POST_MAX_RESPONSE_BYTES: nat := 10_000

  /** The request `http_post` hands to the management canister: a POST of
      the JSON text with the JSON content-type header. */
  function PostRequestArgument(url: string, jsonBody: string): (a: RequestArgument)
    ensures a.httpMethod == POST && a.body == Some(Utf8(jsonBody)) && a.maxResponseBytes == Some(10000)
    ensures a.headers == [JsonHeader()] && a.url == url
  {
    RequestArgument(url, POST, Some(Utf8(jsonBody)), Some(POST_MAX_RESPONSE_BYTES),
                    [JsonHeader()], "http_transform")
  }

  /** `HttpOutcallResponse`: the status as a `u32` and the body. The body is
      kept as the bytes received; `from_utf8_lossy` is not modelled. */
  datatype OutcallResponse = OutcallResponse(status: nat, body: seq<uint8>)

  /** The reply of `http_post` once the outcall has returned: every HTTP
      response, 4xx and 5xx included, is `Ok`; only a failed outcall is an
      error. */
  function PostResult(outcome: Result<HttpResponse, Reject>): (r: Result<OutcallResponse, HttpError>)
    ensures r.Ok? <==> outcome.Ok?
    ensures r.Ok? ==> r.value.status == StatusCode(outcome.value.status)
                      && r.value.body == outcome.value.body
    ensures r.Err? ==> r.error == OutcallFailed(outcome.error)
  {
    match outcome
    case Ok(response) => Ok(OutcallResponse(StatusCode(response.status), response.body))
    case Err(reject) => Err(OutcallFailed(reject))
  }

  /** Where `make_http_request` rejects a response for its status,
      `http_post` passes the same response on. */
  lemma PostKeepsErrorStatuses(response: HttpResponse)
    requires !IsSuccess(StatusCode(response.status))
    ensures ClassifyResponse(Ok(response)).Err?
    ensures PostResult(Ok(response)) == Ok(OutcallResponse(StatusCode(response.status), response.body))
  {
  }
}
