# ProvenanceAI canisters in Dafny

ProvenanceAI registers AI-generated content as intellectual property on
Story Protocol. Two Internet Computer canisters do the work:

- the **ICP canister** (`packages/icp`) keeps an owner, a configuration, the
  EVM nonce of its chain-key ECDSA account and the address of an NFT
  contract, and orchestrates "generate, register on Story Protocol, log a
  proof of generation on Constellation";
- the **brain canister** (`src/brain_canister`) keeps an owner and a
  configuration and derives its Ethereum address from its threshold-ECDSA
  public key. Its source tree also holds `nft_deployment.rs` (deploying
  and minting a simple NFT contract) and `constellation_util.rs`
  (Constellation proofs). Both are modelled as written, but the crate
  does not declare them as modules, so nothing in the brain canister
  reaches them; its own `generate_and_register_ip` uses fixed stub texts
  instead.

The model covers what these canisters compute, not the I/O around it:

- the ABI calldata they build (the head/tail rule of `ethabi::encode`,
  function selectors, the `mintAndRegisterIp` and `register` calls, the
  NFT constructor and `mint` call);
- how they read the answers of the Story node (`eth_getTransactionCount`,
  `eth_sendRawTransaction`, `eth_getTransactionReceipt`), including the
  `u64::from_str_radix(trim_start_matches("0x"), 16)` parse of hex numbers;
- the recovery-id search that matches a threshold signature against the
  canister's public key, and the fallback to id 0 around it;
- the address derivation from the public key;
- the HTTPS outcall helpers: the transform function, the cycle budgets and
  the classification of responses;
- the state of both canisters and their owner-gated update calls, as
  classes proved to follow pure operations on state snapshots, with lemmas
  about arbitrary runs of calls;
- the Constellation proof: the simulated transaction hash and the JSON
  payload.

The hash functions and the `k256` ECDSA routines are parameters. They live
in one `Crypto.Primitives` value, and results of the wrong shape are
normalised away.

Where the repository disagrees with itself, the model follows the code:

- `src/brain_canister/src/lib.rs:28-32` declares only the modules
  `config`, `http_util`, `ai_util`, `evm_util` and `story_util`.
  `nft_deployment.rs` and `constellation_util.rs` are therefore not
  compiled into the brain canister, and its `generate_and_register_ip`
  uses the stub texts of lines 198-206 in their place. The model still
  gives both files as they are written.
- The brain canister's `nft_deployment.rs` calls
  `crate::get_nonce_from_blockchain` (lines 73 and 213), which the brain
  canister's `lib.rs` does not define. Only the ICP package defines it
  (`packages/icp/src/lib.rs:217`). The nonce only feeds the transaction
  encoding, which is left out, so the model needs no value for it.

- The brain canister's `nft_deployment.rs` calls
  `crate::story_util::determine_recovery_id_with_pubkey` (lines 114 and
  252). Its own `story_util.rs` defines no such function. The model uses
  the ICP package's resolver (`IcpStoryUtil.SigningRecoveryId`) at those
  call sites.
- `get_nonce_from_blockchain` takes a string `result` even when an `error`
  member is present too. `broadcast_transaction` looks at `error` first.
  Both orders are modelled as written.
- The payload test in `packages/icp/tests/integration_test.rs:61-84` nests the proof under `value.ProofOfGeneration`. `build_constellation_data_payload` puts the fields directly under `value` and adds a `metadata` object. The model follows the function.
- `get_and_increment_nonce` adds with `U256` `+=`, which panics at the
  largest value. The model makes that a trap that keeps the old state.

## Model

| member | source | states |
|---|---|---|
| Bytes.LowerHexDigit | src/brain_canister/src/evm_util.rs:70 | a value below 16 becomes a lower-case hex digit whose value it is |
| Bytes.HexEncode | src/brain_canister/src/evm_util.rs:70 | `hex::encode` gives two lower-case hex digits per byte |
| Bytes.HexEncodeDigits | src/brain_canister/src/evm_util.rs:70 | digit 2k is the high nibble of byte k and digit 2k+1 its low nibble |
| Bytes.HexDecode | packages/icp/src/story_util.rs:329-330 | `hex::decode` succeeds exactly on even-length all-hex text; byte k is the value of digits 2k and 2k+1 |
| Bytes.HexRoundTrip | packages/icp/src/story_util.rs:329-330 | decoding the encoding of any bytes gives those bytes back |
| Bytes.HexEncodeInjective | src/brain_canister/src/evm_util.rs:70 | different bytes have different hex encodings |
| Bytes.HexEncodeAppend | src/brain_canister/src/evm_util.rs:70 | the encoding of a concatenation is the concatenation of the encodings |
| Bytes.LowerHexIsHex | packages/icp/src/story_util.rs:329-330 | lower-case hex text is accepted by the decoder's digit test |
| Bytes.TrimLeading0x | packages/icp/src/story_util.rs:328 | `trim_start_matches("0x")`: the result is a suffix that does not start with "0x", and what was removed is a repetition of "0x" |
| Bytes.BigEndian | packages/icp/src/story_util.rs:594-598 | a number written in `n` big-endian bytes takes `n` bytes |
| Bytes.BigEndianInit | packages/icp/src/story_util.rs:594-598 | the first `n-1` bytes hold the number divided by 256, the last byte its remainder |
| Bytes.BigEndianRoundTrip | packages/icp/src/story_util.rs:594-598 | a number below 256^n reads back from its `n` big-endian bytes |
| Bytes.Utf8Char | packages/icp/src/story_util.rs:346 | a character takes 1 to 4 UTF-8 bytes, and exactly 1 when it is ASCII, which is then its own code |
| Bytes.Utf8 | packages/icp/src/http_util.rs:185 | `as_bytes`: the UTF-8 encoding, character by character; its properties are `Utf8Char` and `Utf8OfAscii` |
| Bytes.Utf8OfAscii | packages/icp/src/story_util.rs:346 | ASCII text is its own UTF-8 encoding, byte for character |
| Bytes.DigitChar | src/brain_canister/src/constellation_util.rs:95-101 | a value below 10 becomes the decimal digit of that value |
| Bytes.DecimalString | src/brain_canister/src/constellation_util.rs:95-101 | `u64` formatting gives only decimal digits, at least one, with no leading zero unless the number is 0 |
| Bytes.DecimalRoundTrip | src/brain_canister/src/constellation_util.rs:95-101 | the decimal text reads back as the number |
| Crypto.RecoveryIdFromByte | packages/icp/src/story_util.rs:240-246 | `RecoveryId::try_from` accepts exactly the bytes below 4, as themselves |
| Crypto.Keccak256 | packages/icp/src/story_util.rs:346 | a Keccak-256 digest is 32 bytes |
| Crypto.Sha256 | src/brain_canister/src/constellation_util.rs:91-109 | a SHA-256 digest is 32 bytes |
| Crypto.Recover | packages/icp/src/story_util.rs:240-294 | a recovered key is an uncompressed SEC1 point (65 bytes with the 0x04 marker) |
| Crypto.ParseH160 | packages/icp/src/story_util.rs:585-586 | a parsed address is 20 bytes |
| RadixParse.AccumulateHexMeaning | packages/icp/src/lib.rs:261-262 | the digit loop of `from_str_radix` succeeds exactly when every character is a hex digit and the value stays below 2^64, and it then computes the numeral's value; otherwise it names the first failure (invalid digit or overflow) |
| RadixParse.HexValue | packages/icp/src/lib.rs:261-262 | the value of a hex numeral, the reference the digit loop is proved against in `AccumulateHexMeaning` |
| RadixParse.AccumulateHex | packages/icp/src/lib.rs:261-262 | the digit loop of `from_str_radix` with checked multiply and add; its meaning is `AccumulateHexMeaning` |
| RadixParse.FromStrRadix16 | packages/icp/src/lib.rs:261-262 | `u64::from_str_radix(_, 16)`: empty text is `Empty` and a lone "+" is `InvalidDigit`; otherwise the result is `Ok` exactly when the digits after an optional '+' are hex with a value below 2^64, and then it is that value |
| RadixParse.ParsePrefixedHexU64 | packages/icp/src/lib.rs:261-262 | the nonce and token-id parse is `from_str_radix` of the text with all its leading "0x" removed |
| RadixParse.NonceExamples | packages/icp/tests/integration_test.rs:26-53 | "0xa" parses to 10, "0x15" to 21 and "0x0" to 0 |
| RadixParse.TrimExample | packages/icp/tests/integration_test.rs:26-32 | trimming "0xa" leaves "a" |
| RadixParse.BarePrefixIsEmpty | src/brain_canister/src/nft_deployment.rs:377-379 | a topic "0x" fails with `Empty` |
| RadixParse.RepeatedPrefixStripped | src/brain_canister/src/nft_deployment.rs:377-379 | "0x0xff" parses to 255: every leading "0x" is removed, not just one |
| RadixParse.RejectExample | packages/icp/src/lib.rs:261-262 | "0xg" fails with `InvalidDigit` |
| RadixParse.HexDigitsNeverInvalid | packages/icp/src/lib.rs:261-262 | all-hex numerals never fail with `InvalidDigit` |
| RadixParse.Overflow | packages/icp/src/lib.rs:261-262 | hex digits whose value reaches 2^64 fail with `PosOverflow`, and so does any numeral of more than sixteen digits that does not start with '0' |
| RadixParse.HexValueAppend | packages/icp/src/lib.rs:261-262 | the value of a concatenation is the first numeral's value shifted past the second's digits |
| RadixParse.AllHexDigitsAppend | packages/icp/src/lib.rs:261-262 | a concatenation of hex numerals is a hex numeral |
| RadixParse.HexValueOfEncoding | src/brain_canister/src/nft_deployment.rs:377-379 | the hex text of big-endian bytes has the value those bytes encode |
| RadixParse.HexValueOfByte | src/brain_canister/src/nft_deployment.rs:377-379 | the two hex digits of a byte have the byte's value |
| RadixParse.WordTextParses | src/brain_canister/src/nft_deployment.rs:377-379 | a 32-byte topic word written as "0x" and 64 hex digits parses to its value when that fits in 64 bits, and fails with `PosOverflow` otherwise |
| Abi.PadRight | packages/icp/src/story_util.rs:374-378 | padding keeps the bytes, adds fewer than 32 zero bytes and ends on a word boundary |
| Abi.Parts | packages/icp/src/story_util.rs:374-378 | an argument list has one encoded part per value |
| Abi.Enc | src/brain_canister/src/nft_deployment.rs:332-336 | `ethabi` encoding of one value: an address left-padded to a word, a `uint256` as a word, fixed bytes right-padded, a string as its length word and padded bytes, a tuple as its own argument list; proved whole words by `EncWords` and read back by the `*RoundTrip` lemmas |
| Abi.EncodeSeq | packages/icp/src/story_util.rs:374 | `ethabi::encode`: the head/tail layout of the values' encodings; located by `StaticArgAt` and `DynamicArgAt` and read back by the `*ArgReadBack` lemmas |
| Abi.Heads | packages/icp/src/story_util.rs:594-598 | the head part: static values in place, an offset word for each dynamic value; described by `HeadsAppend` and `HeadTailOffset` |
| Abi.Tails | src/brain_canister/src/nft_deployment.rs:61-64 | the tail part: the dynamic values' encodings in order; described by `TailsAppend` and `HeadTailDynamic` |
| Abi.Layout | packages/icp/src/story_util.rs:374 | heads followed by tails, the first tail right after the heads; split by `LayoutSplit` |
| Abi.HeadsWords | packages/icp/src/story_util.rs:374-378 | heads of whole-word parts are whole words |
| Abi.TailsWords | packages/icp/src/story_util.rs:374-378 | tails of whole-word parts are whole words |
| Abi.LayoutWords | packages/icp/src/story_util.rs:374-378 | the layout of whole-word parts is whole words |
| Abi.HeadsCons | packages/icp/src/story_util.rs:374-378 | the heads of a list start with the first value's head |
| Abi.TailsCons | packages/icp/src/story_util.rs:374-378 | the tails of a list start with the first value's tail |
| Abi.TailsAppend | packages/icp/src/story_util.rs:374-378 | the tails of two lists are the two tails, one after the other |
| Abi.HeadsAppend | packages/icp/src/story_util.rs:374-378 | the heads of two lists are the two heads, the second starting at the offset moved past the first list's tails |
| Abi.HeadsLengthIsLength | packages/icp/src/story_util.rs:374-378 | the head size counted per value is the length of the heads |
| Abi.LayoutSplit | packages/icp/src/story_util.rs:374-378 | at any index the encoding splits into the heads and tails before it and the heads and tails from it |
| Abi.HeadTailStatic | packages/icp/src/story_util.rs:374-378 | a static value sits in place, right after the heads of the values before it |
| Abi.HeadTailOffset | packages/icp/src/story_util.rs:374-378 | the head slot of a dynamic value holds the size of all heads plus the tails before it |
| Abi.HeadTailDynamic | packages/icp/src/story_util.rs:374-378 | a dynamic value's own encoding starts at the offset its head slot holds |
| Abi.EncWords | packages/icp/src/story_util.rs:374-378 | every value encodes to a whole number of 32-byte words |
| Abi.EncodeSeqWords | packages/icp/src/story_util.rs:374-378 | every argument list encodes to a whole number of 32-byte words |
| Abi.WordRoundTrip | packages/icp/src/story_util.rs:594-598 | a 256-bit number reads back from its word |
| Abi.StringRoundTrip | packages/icp/src/story_util.rs:374-378 | a `string` reads back from its encoding as its UTF-8 bytes |
| Abi.AddressRoundTrip | packages/icp/src/story_util.rs:594-598 | an address reads back from the low 20 bytes of its word |
| Abi.UintRoundTrip | packages/icp/src/story_util.rs:594-598 | a `uint256` reads back from its word |
| Abi.ReadWord | packages/icp/src/story_util.rs:594-598 | the reader of a 32-byte word, the decoder the `uint256` read-backs are stated with |
| Abi.ReadAddress | packages/icp/src/story_util.rs:594-598 | the reader of an address from the low 20 bytes of its word, the decoder of `AddressArgReadBack` |
| Abi.ReadDynamicBytes | packages/icp/src/story_util.rs:374 | the reader of a length-prefixed `string` at an offset, the decoder of `StringRoundTrip` and `StringArgReadBack` |
| Abi.StaticArgAt | packages/icp/src/story_util.rs:594-598 | a static argument's encoding sits after the heads of the arguments before it |
| Abi.DynamicArgAt | packages/icp/src/story_util.rs:374-378 | a dynamic argument's head slot holds the offset of its encoding, and the encoding is at that offset |
| Abi.ArgsHeadsLength | packages/icp/src/story_util.rs:594-598 | the heads before argument `i` take `32 * i` bytes when each is one word |
| Abi.StaticTails | packages/icp/src/story_util.rs:594-598 | static arguments leave no tail |
| Abi.StringArgReadBack | packages/icp/src/story_util.rs:374-378 | a `string` argument reads back through the offset in its head slot |
| Abi.AddressArgReadBack | packages/icp/src/story_util.rs:594-598 | an `address` argument reads back from its head slot |
| Abi.UintArgReadBack | packages/icp/src/story_util.rs:594-598 | a `uint256` argument reads back from its head slot |
| Abi.StaticArgsLength | packages/icp/tests/integration_test.rs:100-110 | a list of one-word static values, such as an address and a `uint256`, encodes to 32 bytes per value (64 for two) |
| Abi.LastDynamicArg | packages/icp/src/story_util.rs:374-378 | when only the last argument is dynamic, everything after the heads is its encoding |
| Abi.LastDynamicLayout | packages/icp/src/story_util.rs:374-378 | the same on encoded parts: the whole tail is the last value's encoding |
| JsonRpc.IndexAsStr | packages/icp/src/story_util.rs:428-436 | `v[key].as_str()` is the string under `key`, if any |
| Json.Get | src/brain_canister/src/nft_deployment.rs:151 | `value.get(key)`: the member of an object, nothing otherwise |
| Json.Index | packages/icp/src/lib.rs:250 | `value[key]`: as `get`, with `Null` for nothing; related to `get` by `JsonRpc.IndexAsStr` |
| Json.AsStr | packages/icp/src/story_util.rs:433-436 | `as_str()`: the text of a string value |
| Json.AsArray | src/brain_canister/src/nft_deployment.rs:350-352 | `as_array()`: the items of an array value |
| Json.GetStr | src/brain_canister/src/nft_deployment.rs:151-153 | `get(key).and_then(as_str)` |
| Json.GetArray | src/brain_canister/src/nft_deployment.rs:350-352 | `get(key).and_then(as_array)` |
| JsonRpc.SendRawTransactionResult | packages/icp/src/story_util.rs:428-436 | an "error" member is reported whatever else the answer holds; otherwise the answer is accepted exactly when "result" is a string, which is the hash |
| JsonRpc.ReceiptResult | src/brain_canister/src/nft_deployment.rs:455-464 | an "error" member is reported; otherwise the "result" member, of whatever kind, is the receipt, and it must be present |
| JsonRpc.NonObjectHasNoResult | packages/icp/src/story_util.rs:428-436 | an answer that is not an object yields neither a hash nor a receipt |
| JsonRpc.NullResult | src/brain_canister/src/nft_deployment.rs:455-464 | a `null` result is refused as a hash but passed on as a receipt |
| HttpOutcall.Transformed | packages/icp/src/http_util.rs:16-28 | the transform accepts exactly the responses of at most 1 MiB, drops all headers, and keeps status and body |
| HttpOutcall.HttpTransform | src/brain_canister/src/http_util.rs:16-28 | the transform method computes `Transformed` |
| HttpOutcall.TransformIdempotent | packages/icp/src/http_util.rs:16-28 | transforming a transformed response changes nothing, so all replicas agree |
| HttpOutcall.TransformIgnoresHeaders | packages/icp/src/http_util.rs:16-28 | responses that differ only in their headers transform alike |
| HttpOutcall.StatusCode | packages/icp/src/http_util.rs:92-113 | the status fits 32 bits: it is kept when it does, and becomes 500 otherwise |
| HttpOutcall.ClassifyResponse | packages/icp/src/http_util.rs:92-113 | a rejected call stays an error; a response is accepted exactly when its status is 2xx, with its body; any other status is an error carrying the status and body |
| HttpOutcall.HugeStatusIsError | src/brain_canister/src/http_util.rs:83-104 | a status beyond 32 bits is reported as a 500 error |
| HttpOutcall.JsonHeader | packages/icp/src/http_util.rs:129-134 | the JSON content-type header |
| HttpOutcall.AuthHeader | packages/icp/src/http_util.rs:137-142 | the authorization header is "Bearer " followed by the token |
| HttpOutcall.AuthHeaderInjective | src/brain_canister/src/http_util.rs:128-133 | different tokens give different authorization headers |
| IcpHttpUtil.MakeRequestArgument | packages/icp/src/http_util.rs:62-69 | a request keeps its url, method, headers and body, caps the response at 1 MiB and names the `http_transform` transform |
| IcpHttpUtil.RequestCycles | packages/icp/src/http_util.rs:77-87 | the ICP canister attaches 13,145,196,480 cycles plus 6,240 per request byte |
| HttpOutcall.RequestSize | packages/icp/src/http_util.rs:78 | `body.map_or(0, len)`: the request size both cycle formulas use |
| IcpHttpUtil.BufferArith | packages/icp/src/http_util.rs:77-87 | the 13-node formula with its 20 % margin reduces to that closed form |
| IcpHttpUtil.RequestCyclesMonotone | packages/icp/src/http_util.rs:77-87 | a larger request never gets fewer cycles |
| IcpHttpUtil.NoBodyIsEmptyBody | packages/icp/src/http_util.rs:77-87 | no body costs the same as an empty body |
| IcpHttpUtil.PostRequestArgument | packages/icp/src/http_util.rs:182-189 | `http_post` sends a POST with the UTF-8 JSON body, a 10,000-byte response cap and the JSON header |
| IcpHttpUtil.PostResult | packages/icp/src/http_util.rs:194-212 | `http_post` succeeds exactly when the call returns, passing status and body on unchecked |
| IcpHttpUtil.PostKeepsErrorStatuses | packages/icp/src/http_util.rs:194-212 | a 404 is an error for the classifier but an ordinary reply for `http_post` |
| BrainHttpUtil.RequestCycles | src/brain_canister/src/http_util.rs:74-78 | the brain canister attaches 888,000,800 cycles plus 400 per request byte |
| BrainHttpUtil.RequestCyclesMonotone | src/brain_canister/src/http_util.rs:74-78 | a larger request never gets fewer cycles |
| BrainHttpUtil.BudgetBelowIcp | src/brain_canister/src/http_util.rs:74-78 | for every request the brain canister attaches more than 12 billion cycles fewer than the ICP canister |
| IcpStoryUtil.VerifySignature | packages/icp/src/story_util.rs:159-192 | the checks come in the source's order (hash, signature and key lengths, key parse, signature parse), each with its error; the answer is `Ok` exactly when all pass, and is then what the verifier says |
| IcpStoryUtil.AsciiLowercase | packages/icp/src/story_util.rs:233-235 | lower-casing keeps the length, turns each of 'A' to 'Z' into its lower-case letter and leaves every other character; it is ASCII-only where Rust's `to_lowercase` is Unicode-wide, which makes no difference here because its input is always `hex::encode` output (`LowercaseOfLowerHex`) |
| IcpStoryUtil.LowercaseOfLowerHex | packages/icp/src/story_util.rs:233-235 | lower-casing lower-case hex changes nothing |
| IcpStoryUtil.KeyAddressHex | packages/icp/src/story_util.rs:233-235 | the address of a key is 40 lower-case hex digits for bytes 12 to 32 of the Keccak-256 of the key without its marker byte |
| IcpStoryUtil.Candidate | packages/icp/src/story_util.rs:240-294 | a candidate key exists exactly when the id is below 4, the signature parses and the recovery succeeds, and it is an uncompressed key |
| IcpStoryUtil.Matches | packages/icp/src/story_util.rs:283-293 | an id matches when its recovered key equals the canister's key or has the same address text; used by `ResolveRecoveryId`, with `ExactKeyMatches` |
| IcpStoryUtil.ResolveRecoveryId | packages/icp/src/story_util.rs:207-300 | the guards of the source in order (lengths, then the 0x04 marker); a returned id is 0 or 1, recovers a key with the same address, and is 0 whenever 0 matches; with the guards passed, the only error names the expected address |
| IcpStoryUtil.DetermineRecoveryId | packages/icp/src/story_util.rs:207-300 | the loop over ids 0 and 1 returns the first that matches, and computes `ResolveRecoveryId` |
| IcpStoryUtil.SkipsFailedCandidate | packages/icp/src/story_util.rs:240-294 | an id whose recovery fails is skipped, not fatal |
| IcpStoryUtil.UnparsableSignatureNeverMatches | packages/icp/src/story_util.rs:240-294 | a signature the library refuses matches no id |
| IcpStoryUtil.ExactKeyMatches | packages/icp/src/story_util.rs:240-294 | an id that recovers exactly the key matches |
| IcpStoryUtil.GuardsAgree | packages/icp/src/story_util.rs:212-230 | on bad lengths, verification and recovery-id search fail with the same error |
| IcpStoryUtil.SigningRecoveryId | packages/icp/src/story_util.rs:108-119 | a signature that is not 64 bytes stops the signing path; otherwise the id found is used, or 0 when the search fails |
| IcpStoryUtil.FallbackIgnoresBadKey | packages/icp/src/story_util.rs:108-119 | with a 64-byte signature, a key of the wrong length still yields id 0 |
| IcpStoryUtil.FallbackWithoutMatch | packages/icp/src/story_util.rs:538-547 | when neither id recovers the key, id 0 is still used |
| IcpStoryUtil.RegisterSelectorDecodes | packages/icp/src/story_util.rs:590-591 | the selector text "fca247ac" decodes to the four selector bytes |
| IcpStoryUtil.RegisterArgs | packages/icp/src/story_util.rs:594-598 | the `register` arguments: chain id, token contract and token id; read back by `RegisterLayout` |
| IcpStoryUtil.RegisterLayout | packages/icp/src/story_util.rs:594-598 | the `register` arguments read back from three words: chain id, token contract and token id |
| IcpStoryUtil.BuildRegisterCalldata | packages/icp/src/story_util.rs:577-605 | the token contract must parse as an address; the calldata is 100 bytes, the selector followed by the three arguments, which read back |
| IcpStoryUtil.IpMetadataLayout | packages/icp/src/story_util.rs:360-372 | the `IPMetadata` tuple reads back: both URIs through their offsets, both 32-byte hashes in place |
| IcpStoryUtil.IpMetadata | packages/icp/src/story_util.rs:360-365 | the `IPMetadata` tuple with the NFT metadata repeating the IP metadata; read back by `IpMetadataLayout` |
| IcpStoryUtil.MintAndRegisterArgs | packages/icp/src/story_util.rs:368-372 | the collection, the recipient and the metadata tuple; read back by `MintAndRegisterLayout` |
| IcpStoryUtil.MintAndRegisterAddresses | packages/icp/src/story_util.rs:360-372 | the collection and recipient addresses read back from the first two head slots |
| IcpStoryUtil.MintAndRegisterStruct | packages/icp/src/story_util.rs:360-372 | the third head slot points at the metadata tuple's encoding |
| IcpStoryUtil.MintAndRegisterLayout | packages/icp/src/story_util.rs:360-378 | the whole `mintAndRegisterIp` argument list reads back |
| IcpStoryUtil.BuildMintAndRegisterCalldata | packages/icp/src/story_util.rs:326-386 | the recipient, after its leading "0x" prefixes, must be hex for exactly 20 bytes (each failure has its own error); the calldata is the selector 0xa392aa86, then the SPG collection, the recipient and the metadata struct whose two hashes are the Keccak-256 of the URI: exactly the ABI encoding of those arguments, which read back |
| BrainEvmUtil.KeyId | src/brain_canister/src/evm_util.rs:13-18 | the secp256k1 key named "test_key_1" |
| BrainEvmUtil.AddressKeyRequest | src/brain_canister/src/evm_util.rs:40-44 | the canister's own key, with an empty derivation path |
| BrainEvmUtil.DeriveEvmAddress | src/brain_canister/src/evm_util.rs:56-77 | a key is accepted exactly when it is 65 bytes; the address is "0x" and 40 lower-case hex digits decoding to bytes 12 to 32 of the Keccak-256 of the key without its first byte |
| BrainEvmUtil.CanisterEvmAddress | src/brain_canister/src/evm_util.rs:31-77 | a failed key fetch is reported; a fetched key goes through the derivation |
| BrainEvmUtil.PrefixNotInspected | src/brain_canister/src/evm_util.rs:56-70 | the marker byte is never looked at: keys that differ only there have the same address |
| BrainEvmUtil.AgreesWithResolver | src/brain_canister/src/evm_util.rs:64-70 | the brain canister's address is "0x" and the address text the ICP resolver compares |
| BrainEvmUtil.AddressDecodesAsRecipient | src/brain_canister/src/evm_util.rs:64-70 | the derived address, with its "0x" trimmed, decodes to the twenty digest bytes |
| BrainEvmUtil.AddressesEqualIffDigestTails | src/brain_canister/src/evm_util.rs:64-70 | two keys have the same address exactly when their digests agree on bytes 12 to 32 |
| BrainEvmUtil.SignEvmTransaction | src/brain_canister/src/evm_util.rs:87-90 | signing is not implemented: every hash is refused |
| BrainNftDeployment.ContractBytecode | src/brain_canister/src/nft_deployment.rs:44-56 | the bytecode is the hex under `bytecode.object` with its "0x" trimmed; missing text and bad hex are errors |
| BrainNftDeployment.BytecodeRoundTrip | src/brain_canister/src/nft_deployment.rs:44-56 | compiled output holding "0x" and the hex of some code yields that code |
| BrainNftDeployment.ConstructorLayout | src/brain_canister/src/nft_deployment.rs:61-68 | the constructor arguments read back: name and symbol through their offsets |
| BrainNftDeployment.ConstructorArgs | src/brain_canister/src/nft_deployment.rs:61-64 | the constructor arguments: name and symbol; read back by `ConstructorLayout` |
| BrainNftDeployment.BuildDeploymentData | src/brain_canister/src/nft_deployment.rs:61-68 | deployment data is the bytecode followed by the encoded constructor arguments, which read back |
| BrainNftDeployment.MintSelectorDecodes | src/brain_canister/src/nft_deployment.rs:317-343 | the selector text "99071190" decodes to the four selector bytes |
| BrainNftDeployment.MintLayout | src/brain_canister/src/nft_deployment.rs:317-343 | the `mint` arguments read back: recipient, content hash and metadata URI |
| BrainNftDeployment.MintArgs | src/brain_canister/src/nft_deployment.rs:332-336 | the `mint` arguments: recipient, content hash and metadata URI; read back by `MintLayout` |
| BrainNftDeployment.BuildMintCalldata | src/brain_canister/src/nft_deployment.rs:317-343 | the recipient must parse as an address; the calldata is the selector and the encoded arguments, which read back |
| BrainNftDeployment.DeployedContractAddress | src/brain_canister/src/nft_deployment.rs:151-163 | a receipt without a status, with a status other than "0x1", or without a contract address is refused; otherwise the address is returned |
| BrainNftDeployment.Succeeded | src/brain_canister/src/nft_deployment.rs:151-158 | a receipt succeeded when its status is the string "0x1", compared as text (`StatusIsExact`) |
| BrainNftDeployment.ExtractTokenId | src/brain_canister/src/nft_deployment.rs:349-383 | each guard has its own error: no `logs` array, an empty one, no `topics` array in the first entry, fewer than three topics, a third topic that is not a string; a first entry that passes them is accepted exactly when its third topic parses as hex, with that value, and otherwise fails with the parse error |
| BrainNftDeployment.FirstLogTopics | src/brain_canister/src/nft_deployment.rs:350-364 | the `topics` array of the first entry of a non-empty `logs` array |
| BrainNftDeployment.MintedTokenId | src/brain_canister/src/nft_deployment.rs:290-296 | a mint receipt must carry status "0x1", and then gives the extracted token id |
| BrainNftDeployment.ThirdTopicIsParsed | src/brain_canister/src/nft_deployment.rs:349-383 | for any successful receipt whose first log entry has at least three topics, the third a string, the minted token id is the hex parse of that string, whatever else the receipt and its entries hold |
| BrainNftDeployment.TokenIdFromTopicWord | src/brain_canister/src/nft_deployment.rs:349-383 | for any such receipt, a third topic holding a token id as a 32-byte word gives that id below 2^64, and fails with overflow above |
| BrainNftDeployment.FewTopicsRefused | src/brain_canister/src/nft_deployment.rs:366-368 | a successful receipt whose first log entry has fewer than three topics is refused with their count |
| BrainNftDeployment.NodeReceiptExample | src/brain_canister/src/nft_deployment.rs:349-383 | a receipt with a transaction hash, and a log entry with an address and data besides its topics, gives the token 7 its third topic holds |
| BrainNftDeployment.StatusIsExact | src/brain_canister/src/nft_deployment.rs:151-163 | statuses "0x01", "0x0", "0x2" and "1" all count as failure: the comparison is textual |
| BrainNftDeployment.PendingReceiptHasNoStatus | src/brain_canister/src/nft_deployment.rs:455-464 | a `null` receipt (unmined transaction) has no status |
| BrainConstellation.SimulatedTxHash | src/brain_canister/src/constellation_util.rs:91-109 | the simulated hash is "CONST-" and 32 lower-case hex digits decoding to the first 16 bytes of the SHA-256 of the hash input |
| BrainConstellation.HashInput | src/brain_canister/src/constellation_util.rs:95-101 | the hashed text: content hash, IP id, NFT contract and the decimal token id, joined by ':'; its properties are `SimulatedHashIgnores`, `TokenIdChangesHashInput` and `SeparatorAmbiguity` |
| BrainConstellation.SimulatedHashIgnores | src/brain_canister/src/constellation_util.rs:91-109 | model name, timestamp and generator address do not enter the hash |
| BrainConstellation.TokenIdChangesHashInput | src/brain_canister/src/constellation_util.rs:91-109 | proofs differing only in their token id hash different texts |
| BrainConstellation.SeparatorAmbiguity | src/brain_canister/src/constellation_util.rs:91-109 | the ':'-joined input is ambiguous: different content hashes and IP ids can give the same text |
| BrainConstellation.LogProof | src/brain_canister/src/constellation_util.rs:39-87 | logging always succeeds, with the simulated hash, whatever the metagraph URL |
| BrainConstellation.DataPayload | src/brain_canister/src/constellation_util.rs:113-131 | the payload is an object with exactly "value" and "proofs"; "proofs" is the empty array, and "value" holds exactly the seven proof fields and "metadata" |
| BrainConstellation.PayloadReadsBack | src/brain_canister/src/constellation_util.rs:113-131 | every field of the proof reads back from the payload, numbers as numbers, together with the fixed metadata source and version |
| BrainConstellation.PayloadInjective | src/brain_canister/src/constellation_util.rs:113-131 | different proofs give different payloads |
| BrainConstellation.VerifyProof | src/brain_canister/src/constellation_util.rs:137-150 | verification is not implemented: every query is an error |
| BrainCanister.Canister.Init | src/brain_canister/src/lib.rs:98-117 | `init` stores the configuration, makes the caller the owner and starts the nonce at 0 |
| BrainCanister.Canister.IsConfigured | src/brain_canister/src/lib.rs:123-126 | configured exactly when a configuration is stored |
| BrainCanister.Canister.UpdateConfig | src/brain_canister/src/lib.rs:128-144 | only the owner may replace the configuration; nothing else changes |
| BrainCanister.Canister.ConstellationUrl | src/brain_canister/src/lib.rs:146-155 | the stored Constellation URL, or a trap when unconfigured |
| BrainCanister.Canister.DeepseekApiKey | src/brain_canister/src/lib.rs:161-169 | the stored DeepSeek key, or a trap when unconfigured |
| BrainCanister.Canister.Config | src/brain_canister/src/lib.rs:171-178 | the stored configuration, or a trap when unconfigured |
| BrainCanister.ConfigLifecycle | src/brain_canister/src/lib.rs:98-144 | after `init`, an outsider's update is refused and the owner's update is what the getters then return |
| IcpCanister.Initialised | packages/icp/src/lib.rs:102-124 | `init` makes the caller the owner, starts the nonce at 8, stores the configuration and no NFT address |
| IcpCanister.SetOwnerOp | packages/icp/src/lib.rs:130-146 | only the current owner may name a new one; a refused call changes nothing |
| IcpCanister.UpdateConfigOp | packages/icp/src/lib.rs:158-174 | only the owner may replace the configuration; a refused call changes nothing |
| IcpCanister.IncrementNonceOp | packages/icp/src/lib.rs:281-288 | the cached nonce is handed out and counted up; at the largest `U256` the call traps and changes nothing |
| IcpCanister.NonceFromResponse | packages/icp/src/lib.rs:250-262 | a string "result" is parsed as the nonce even when "error" is present; otherwise an "error" is reported, and an answer with neither is an error of its own |
| IcpCanister.RefreshNonceOp | packages/icp/src/lib.rs:217-273 | a nonce read from the chain replaces the cached one; every failure leaves the cache as it was |
| IcpCanister.DeployOp | packages/icp/src/lib.rs:440-466 | with an address stored nothing is deployed; otherwise a successful deployment's address is stored |
| IcpCanister.Step | packages/icp/src/lib.rs:130-482 | the state after one update call, each by its operation; `set_nft_contract_address` stores its address for any caller |
| IcpCanister.Run | packages/icp/src/lib.rs:130-482 | the state after a sequence of update calls, the subject of `OwnerAndConfigNeedOwner`, `DeployedAddressKept` and `IncrementsCount` |
| IcpCanister.OwnerAndConfigNeedOwner | packages/icp/src/lib.rs:130-174 | over any run of calls in which the owner neither renames the owner nor updates the configuration, both stay as they were |
| IcpCanister.DeployedAddressKept | packages/icp/src/lib.rs:440-466 | once an address is stored, no run without `set_nft_contract_address` changes it |
| IcpCanister.OutsiderReplacesAddress | packages/icp/src/lib.rs:475-482 | `set_nft_contract_address` has no owner check: any caller replaces the address |
| IcpCanister.Increments | packages/icp/src/lib.rs:281-288 | a run of `k` nonce increments |
| IcpCanister.IncrementsCount | packages/icp/src/lib.rs:281-288 | `k` increments count the nonce up by `k` and change nothing else |
| IcpCanister.DeployOnceAfterInit | packages/icp/src/lib.rs:440-466 | after `init` a deployment is stored and a second one is refused |
| IcpCanister.NonceTestResponse | packages/icp/tests/integration_test.rs:34-46 | the answer with "result": "0x15" caches the nonce 21 |
| IcpCanister.Canister.Init | packages/icp/src/lib.rs:102-124 | the constructor leaves the state `Initialised` describes |
| IcpCanister.Canister.SetOwner | packages/icp/src/lib.rs:130-146 | the method follows `SetOwnerOp` |
| IcpCanister.Canister.IsConfigured | packages/icp/src/lib.rs:153-156 | configured exactly when a configuration is stored |
| IcpCanister.Canister.UpdateConfig | packages/icp/src/lib.rs:158-174 | the method follows `UpdateConfigOp` |
| IcpCanister.Canister.Config | packages/icp/src/lib.rs:201-208 | the stored configuration, or a trap when unconfigured |
| IcpCanister.Canister.ConstellationUrl | packages/icp/src/lib.rs:176-185 | the stored Constellation URL, or a trap when unconfigured |
| IcpCanister.Canister.DeepseekApiKey | packages/icp/src/lib.rs:191-199 | the stored DeepSeek key, or a trap when unconfigured |
| IcpCanister.Canister.GetAndIncrementNonce | packages/icp/src/lib.rs:281-288 | the method follows `IncrementNonceOp` |
| IcpCanister.Canister.RefreshNonce | packages/icp/src/lib.rs:217-273 | the method follows `RefreshNonceOp` |
| IcpCanister.Canister.DeployNftContract | packages/icp/src/lib.rs:440-466 | the method follows `DeployOp` |
| IcpCanister.Canister.SetNftContractAddress | packages/icp/src/lib.rs:475-482 | any caller's address is stored; nothing else changes |
| IcpCanister.MetadataUri | packages/icp/src/lib.rs:312-315 | the URI is "ipfs://placeholder/", the content hash and "/metadata.json" |
| IcpCanister.IpIdAndTokenId | packages/icp/src/lib.rs:338-347 | the ids parsed from the receipt, or else the transaction hash and token 0 |
| IcpCanister.SpgNftContractText | packages/icp/src/config.rs:53-56 | the collection as "0x" and 40 lower-case hex digits that decode to its address |
| IcpCanister.ConstellationTxHash | packages/icp/src/lib.rs:364-377 | the logged hash, or "CONST-ERROR-" and the current time in decimal when logging fails |
| IcpCanister.GenerationProof | packages/icp/src/lib.rs:352-360 | the proof logged: content hash, model "deepseek-chat", the time, the IP id, the SPG collection text, the token id and generator "ICP-Canister" |
| IcpCanister.GenerateAndRegisterIp | packages/icp/src/lib.rs:295-393 | failed generation or registration is an error; a missing configuration traps after registering; a failed log is not an error; the output carries the generated content, the registration and the logged hash |
| IcpCanister.PlaceholdersWithoutReceipt | packages/icp/src/lib.rs:338-377 | without parsed receipt values the output names the transaction hash and token 0, and a failed logger still gives an output |

The arithmetic lemmas `Bytes.Pow256ThirtyTwo`, `RadixParse.Pow16Monotone`, `RadixParse.Pow16Add`, `RadixParse.Pow16Sixteen` and `Abi.WordHeadsLength`, and the slicing and division lemmas of `Abi` and `Bytes`, are helpers of the proofs above and model no source line of their own.

## Left out

- The RLP and EIP-155 transaction encoding, the signing call to the management canister, `get_canister_public_key` and the key decompression are left out. They are library code or I/O; the calldata they carry is modelled.
- Keccak-256, SHA-256, `k256` key parsing, verification and recovery, and `H160::from_str` are abstract parameters. Only the shape of their results is assumed.
- JSON text parsing and serialisation are left out. The answers are modelled from the parsed value on.
- The `from_utf8` and `from_utf8_lossy` checks of response bodies are left out, because the model starts from decoded text.
- HTTPS outcalls, `ic_cdk` calls, the clock (`ic_cdk::api::time`) and the interleaving of `await` points are left out. Their outcomes are parameters: `generated`, `register`, `logProof`, `proofTime` and `fallbackTime` of `IcpCanister.GenerateAndRegisterIp`, the `answer` of `RefreshNonceOp`, the `deployment` of `DeployOp`.
- `ai_util.rs` is left out (prompt building and the DeepSeek and Replicate HTTP calls). Its result enters `GenerateAndRegisterIp` as `generated`.
- All logging (`ic_cdk::println!`) is left out, because it does not affect results.
- The registration stubs of the brain canister's `story_util.rs` are left out, because they compute nothing.
- The ICP package's `nft_deployment.rs`, which `deploy_nft_contract` calls, is not part of this model. Its result is the `deployment` parameter of `IcpCanister.DeployOp`.
- `register_ip` in `packages/icp/src/lib.rs` is left out. It only forwards to `register_nft_as_ip`, whose transaction signing and broadcast are I/O; its calldata is `IcpStoryUtil.BuildRegisterCalldata`.
- The `custom_getrandom` hook is left out: it does no computation.
- Error messages are structured datatypes rather than formatted strings. The model keeps what each error carries, not its wording.
- The brain canister's `config.rs` is not part of this model. The ECDSA key name comes from `packages/icp/src/config.rs:97`.
- The nonce, gas and chain-id constants feed only the transaction encoding, which is left out.
- The registration result in `packages/icp/src/lib.rs:317-321` is taken as the pair of transaction hash and parsed ids. The types written there do not line up, so the model takes the evident meaning.
- The query calls `get_owner` and `get_nft_contract_address` are left out, because each only returns a field.
- `raise_dispute` is left out: it is a stub that always fails.
- The `get_canister_evm_address` wrapper in `packages/icp/src/lib.rs` is left out. It turns an error into a fixed text; the ICP package's `evm_util.rs` is not part of this model, and the brain canister's derivation is `BrainEvmUtil.DeriveEvmAddress`.
- IcpStoryUtil.BuildMintAndRegisterCalldata: the arguments are proved to read back only when the calldata is shorter than 2^256 bytes, because offsets are 256-bit words.
- BrainNftDeployment.BuildMintCalldata: the same 2^256-byte bound applies to the read-back.
- BrainNftDeployment.BuildDeploymentData: the same 2^256-byte bound applies to the read-back of the constructor arguments.
- The three builders' read-back bound follows from how offsets and lengths are written. ethabi writes them through `pad_u32`, while the model writes them as full 256-bit words. The two agree because a wasm32 canister cannot hold 2^32 bytes, so every real offset and length fits in 32 bits.
