/** The cycle budget of `make_http_request` in
    `src/brain_canister/src/http_util.rs`. Unlike the shared package's
    version, only the base cost is scaled by the node count, and there is
    no margin. */
module BrainHttpUtil {
  import opened Wrappers
  import opened HttpOutcall
  import IcpHttpUtil

  /** The cycles attached to an outcall with the given body, computed in the
      source's steps; the contract gives the closed form. */
  function RequestCycles(body: Option<seq<Bytes.uint8>>): (c: nat)
    ensures c == 888_000_800 + 400 * RequestSize(body)
  {
    var size := RequestSize(body);
    var base := 3_000_000 + 60_000 * 13;
    var perRequest := base * 13;
    var perByte := 400 * size + 800 * 1024 * 1024;
    perRequest + perByte
  }

  /** A larger request body never costs fewer cycles. */
  lemma RequestCyclesMonotone(a: Option<seq<Bytes.uint8>>, b: Option<seq<Bytes.uint8>>)
    requires RequestSize(a) <= RequestSize(b)
    ensures RequestCycles(a) <= RequestCycles(b)
  {
  }

  /** For every body the brain canister attaches fewer cycles than the
      shared package would, by more than twelve billion. */
  lemma BudgetBelowIcp(body: Option<seq<Bytes.uint8>>)
    ensures RequestCycles(body) + 12_000_000_000 < IcpHttpUtil.RequestCycles(body)
  {
  }
}
