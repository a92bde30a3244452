/** The state of the brain canister of `src/brain_canister/src/lib.rs`:
    an owner and an EVM nonce fixed by `init`, and the configuration, which
    only the owner may replace and which the getters need. Nothing but
    `init` sets the owner, so it never changes afterwards. */
module BrainCanister {
  import opened Wrappers
  import opened Bytes
  import opened Abi
  import opened IcTypes

  class Canister {
    var owner: Principal
    var evmNonce: uint256
    var config: Option<CanisterConfig>

    /** `init`: the configuration is stored, the caller becomes the owner
        and the nonce is zero. */
    constructor Init(caller: Principal, initConfig: CanisterConfig)
      ensures owner == caller && evmNonce == 0 && config == Some(initConfig)
    {
      owner, evmNonce := ANONYMOUS, 0;
      config := Some(initConfig);
      owner := caller;
      evmNonce := 0;
    }

    /** `is_configured`. */
    function IsConfigured(): (b: bool)
      reads this
      ensures b <==> config.Some?
    {
      config.Some?
    }

    /** `update_config`: a caller other than the owner traps and nothing
        changes; the owner's configuration replaces the stored one. Owner
        and nonce are never changed. */
    method UpdateConfig(caller: Principal, newConfig: CanisterConfig) returns (r: Result<(), Trap>)
      modifies this
      ensures r.Ok? <==> caller == old(owner)
      ensures r.Err? ==> r.error == Unauthorized("Only owner can update config") && config == old(config)
      ensures r.Ok? ==> config == Some(newConfig)
      ensures owner == old(owner) && evmNonce == old(evmNonce)
    {
      if owner != caller {
        return Err(Unauthorized("Only owner can update config"));
      }
      config := Some(newConfig);
      return Ok(());
    }

    /** `get_constellation_url`: traps when no configuration is stored. */
    function ConstellationUrl(): (r: Result<string, Trap>)
      reads this
      ensures r.Ok? <==> config.Some?
      ensures r.Ok? ==> r.value == config.value.constellationMetagraphUrl
      ensures r.Err? ==> r.error == NotConfigured
    {
      match config
      case None => Err(NotConfigured)
      case Some(c) => Ok(c.constellationMetagraphUrl)
    }

    /** `get_deepseek_api_key`: traps when no configuration is stored. */
    function DeepseekApiKey(): (r: Result<string, Trap>)
      reads this
      ensures r.Ok? <==> config.Some?
      ensures r.Ok? ==> r.value == config.value.deepseekApiKey
      ensures r.Err? ==> r.error == NotConfigured
    {
      match config
      case None => Err(NotConfigured)
      case Some(c) => Ok(c.deepseekApiKey)
    }

    /** `get_config`: traps when no configuration is stored. */
    function Config(): (r: Result<CanisterConfig, Trap>)
      reads this
      ensures r.Ok? <==> config.Some?
      ensures r.Ok? ==> r.value == config.value
      ensures r.Err? ==> r.error == NotConfigured
    {
      match config
      case None => Err(NotConfigured)
      case Some(c) => Ok(c)
    }
  }

  /** After `init` the canister is configured, so the getters answer with
      the configuration's fields; an update by the owner is what they
      answer next, and an update by anyone else leaves them as they were. */
  method ConfigLifecycle(owner: Principal, other: Principal, initial: CanisterConfig,
                         next: CanisterConfig, rejected: CanisterConfig)
    returns (urls: seq<string>)
    requires other != owner
    ensures urls == [initial.constellationMetagraphUrl, next.constellationMetagraphUrl,
                     next.constellationMetagraphUrl]
  {
    var canister := new Canister.Init(owner, initial);
    var first := canister.ConstellationUrl();
    var r1 := canister.UpdateConfig(owner, next);
    var second := canister.ConstellationUrl();
    var r2 := canister.UpdateConfig(other, rejected);
    var third := canister.ConstellationUrl();
    urls := [first.value, second.value, third.value];
  }
}
