/** What both canisters' `lib.rs` files declare alike: the principal that
    identifies a caller, the configuration record passed to `init`, and the
    traps of their update calls. A trap rolls the call's state changes
    back. */
module IcTypes {
  import opened Wrappers
  import opened Bytes

  /** A candid `Principal`, by its bytes. */
  datatype Principal = Principal(bytes: seq<uint8>)

  /** `Principal::anonymous()`: the single byte 0x04. */
  const ANONYMOUS: Principal := Principal([4])

  /** `CanisterConfig`. */
  datatype CanisterConfig = CanisterConfig(
    deepseekApiKey: string,
    replicateApiKey: Option<string>,
    constellationMetagraphUrl: string)

  /** Why a call traps. */
  datatype Trap =
    | Unauthorized(message: string)
    | NotConfigured
    | ArithmeticOverflow
}
