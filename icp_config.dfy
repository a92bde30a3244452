/** The constants of `packages/icp/src/config.rs` that the modelled code
    uses. */
module IcpConfig {
  import opened Bytes
  import Abi

  /** The Story Protocol Aeneid testnet chain id. */
  const STORY_CHAIN_ID: uint64 := 1315

  const GAS_LIMIT: uint64 := 3_000_000

  /** 20 gwei. */
  const GAS_PRICE: uint64 := 20_000_000_000

  /** The threshold-ECDSA key both canisters sign with. */
  const ECDSA_KEY_NAME: string := "test_key_1"

  /** The public SPG NFT collection 0xc32A8a0FF3beDDDa58393d022aF433e78739FAbc,
      as the 20 bytes `spg_nft_contract_address().to_fixed_bytes()` yields. */
  const SPG_NFT_CONTRACT: Abi.Address20 :=
    [0xc3, 0x2a, 0x8a, 0x0f, 0xf3, 0xbe, 0xdd, 0xda, 0x58, 0x39,
     0x3d, 0x02, 0x2a, 0xf4, 0x33, 0xe7, 0x87, 0x39, 0xfa, 0xbc]
}
