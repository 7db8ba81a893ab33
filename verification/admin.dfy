/**
 Construction of the overseer and its owner-restricted record updates
 (contracts/overseer/src/lib.rs and contracts/overseer/src/owner.rs).
 */
module Admin {
  import opened Types
  import opened FixedPoint
  import opened OverseerState

  /** An optional override: `Some(v)` replaces the field, `None` keeps it. */
  function Override<T>(current: T, o: Option<T>): T {
    match o
    case Some(v) => v
    case None => current
  }

  /** The settlement state of a freshly constructed overseer. */
  function InitialState(env: Env): (s: State)
    ensures s.depositRate == Zero()
    ensures s.prevStableCoinTotalSupply == 0 && s.lastExecutedHeight == 0
    ensures s.prevExchangeRate == One() && s.prevInterestBuffer == 0
    ensures s.lastPriceResponse == PriceResponse(One(), env.blockTimestamp)
  {
    State(Zero(), 0, 0, One(), 0, PriceResponse(One(), env.blockTimestamp))
  }

  /** `Contract::new`: the arguments are exactly the configuration's fields.
      Whether the account already holds state and which account ids are valid
      are facts of the runtime, passed in. */
  function New(env: Env, stateExists: bool, isValidAccountId: AccountId -> bool, config: Config): (r: Result<Step>)
    ensures stateExists ==> r == Fail(AlreadyInitialized)
    ensures !stateExists && !isValidAccountId(config.ownerId) ==> r == Fail(InvalidOwnerId)
    ensures r.Ok? <==> !stateExists && isValidAccountId(config.ownerId)
    ensures r.Ok? ==>
      && r.value.contract.config == config
      && r.value.contract.state == InitialState(env)
      && r.value.contract.whitelist == EmptyWhitelist()
      && r.value.contract.collaterals == map[]
      && r.value.effects == [RefreshPrice(config, env)]
  {
    if stateExists then Fail(AlreadyInitialized)
    else if !isValidAccountId(config.ownerId) then Fail(InvalidOwnerId)
    else Ok(Step(Contract(config, InitialState(env), EmptyWhitelist(), map[]), [RefreshPrice(config, env)]))
  }

  /** `register_whitelist`: one yocto, then the owner, then the entry for
      `token` becomes exactly the given descriptor. */
  function RegisterWhitelist(c: Contract, env: Env, name: string, symbol: string, token: AccountId,
                             custody: AccountId, maxLtv: D128): (r: Result<Step>)
    requires c.whitelist.Valid()
    ensures !OneYocto(env) ==> r == Fail(RequiresOneYocto)
    ensures OneYocto(env) && !IsOwner(c.config, env) ==> r == Fail(NotOwner)
    ensures r.Ok? <==> OneYocto(env) && IsOwner(c.config, env)
    ensures r.Ok? ==>
      && r.value.contract.whitelist.Valid()
      && r.value.contract.whitelist.elems == c.whitelist.elems[token := WhitelistElem(name, symbol, custody, maxLtv)]
      && r.value.contract == c.(whitelist := r.value.contract.whitelist)
      && r.value.effects == [RefreshPrice(c.config, env)]
  {
    if !OneYocto(env) then Fail(RequiresOneYocto)
    else if !IsOwner(c.config, env) then Fail(NotOwner)
    else
      var wl := c.whitelist.Insert(token, WhitelistElem(name, symbol, custody, maxLtv));
      Ok(Step(c.(whitelist := wl), [RefreshPrice(c.config, env)]))
  }

  /** The descriptor `update_whitelist` writes back: only the custody
      contract and the maximum loan-to-value can change. */
  function UpdatedElem(e: WhitelistElem, custody: Option<AccountId>, maxLtv: Option<D128>): (e': WhitelistElem)
    ensures e'.name == e.name && e'.symbol == e.symbol
    ensures custody.Some? ==> e'.custodyContract == custody.value
    ensures custody.None? ==> e'.custodyContract == e.custodyContract
    ensures maxLtv.Some? ==> e'.maxLtv == maxLtv.value
    ensures maxLtv.None? ==> e'.maxLtv == e.maxLtv
  {
    e.(custodyContract := Override(e.custodyContract, custody), maxLtv := Override(e.maxLtv, maxLtv))
  }

  /** `update_whitelist`: one yocto, the owner, an existing entry; the entry is
      rewritten in place with the given overrides. */
  function UpdateWhitelist(c: Contract, env: Env, token: AccountId,
                           custody: Option<AccountId>, maxLtv: Option<D128>): (r: Result<Step>)
    requires c.whitelist.Valid()
    ensures !OneYocto(env) ==> r == Fail(RequiresOneYocto)
    ensures OneYocto(env) && !IsOwner(c.config, env) ==> r == Fail(NotOwner)
    ensures OneYocto(env) && IsOwner(c.config, env) && token !in c.whitelist.elems ==> r == Fail(UnknownCollateral)
    ensures r.Ok? <==> OneYocto(env) && IsOwner(c.config, env) && token in c.whitelist.elems
    ensures r.Ok? ==>
      && r.value.contract.whitelist.order == c.whitelist.order
      && r.value.contract.whitelist.elems == c.whitelist.elems[token := UpdatedElem(c.whitelist.elems[token], custody, maxLtv)]
      && r.value.contract == c.(whitelist := r.value.contract.whitelist)
      && r.value.effects == [RefreshPrice(c.config, env)]
  {
    if !OneYocto(env) then Fail(RequiresOneYocto)
    else if !IsOwner(c.config, env) then Fail(NotOwner)
    else if token !in c.whitelist.elems then Fail(UnknownCollateral)
    else
      var e' := UpdatedElem(c.whitelist.elems[token], custody, maxLtv);
      Ok(Step(c.(whitelist := c.whitelist.Insert(token, e')), [RefreshPrice(c.config, env)]))
  }

  /** With both overrides absent the entry is rewritten unchanged. */
  lemma UpdateWhitelistNoOverrides(c: Contract, env: Env, token: AccountId)
    requires c.whitelist.Valid()
    requires OneYocto(env) && IsOwner(c.config, env) && token in c.whitelist.elems
    ensures UpdateWhitelist(c, env, token, None, None) == Ok(Step(c, [RefreshPrice(c.config, env)]))
  {
    var e := c.whitelist.elems[token];
    assert UpdatedElem(e, None, None) == e;
    assert c.whitelist.elems[token := e] == c.whitelist.elems;
  }

  /** Applying the same whitelist update twice leaves the same entry as once. */
  lemma UpdateWhitelistIdempotent(c: Contract, env: Env, token: AccountId,
                                  custody: Option<AccountId>, maxLtv: Option<D128>)
    requires c.whitelist.Valid()
    requires UpdateWhitelist(c, env, token, custody, maxLtv).Ok?
    ensures var once := UpdateWhitelist(c, env, token, custody, maxLtv).value.contract;
      && once.whitelist.Valid()
      && UpdateWhitelist(once, env, token, custody, maxLtv).Ok?
      && UpdateWhitelist(once, env, token, custody, maxLtv).value.contract == once
  {
    var once := UpdateWhitelist(c, env, token, custody, maxLtv).value.contract;
    var e1 := once.whitelist.elems[token];
    assert UpdatedElem(e1, custody, maxLtv) == e1;
    assert once.whitelist.elems[token := e1] == once.whitelist.elems;
  }

  /** The fields `update_config` may override; every other field is fixed at
      construction. */
  datatype ConfigUpdate = ConfigUpdate(
    oracleContract: Option<AccountId>,
    marketContract: Option<AccountId>,
    liquidationContract: Option<AccountId>,
    collectorContract: Option<AccountId>,
    epochPeriod: Option<nat>,
    targetDepositRate: Option<D128>,
    oraclePaymentToken: Option<AccountId>,
    requesterContract: Option<AccountId>)

  function ApplyConfigUpdate(cfg: Config, u: ConfigUpdate): Config {
    cfg.(
      oracleContract := Override(cfg.oracleContract, u.oracleContract),
      marketContract := Override(cfg.marketContract, u.marketContract),
      liquidationContract := Override(cfg.liquidationContract, u.liquidationContract),
      collectorContract := Override(cfg.collectorContract, u.collectorContract),
      epochPeriod := Override(cfg.epochPeriod, u.epochPeriod),
      targetDepositRate := Override(cfg.targetDepositRate, u.targetDepositRate),
      oraclePaymentToken := Override(cfg.oraclePaymentToken, u.oraclePaymentToken),
      requesterContract := Override(cfg.requesterContract, u.requesterContract))
  }

  /** `update_config`: the owner check comes before the deposit check; each
      `Some` field is replaced, each `None` field kept; the owner, stable coin,
      threshold rate and both factors never change; no promise is created. */
  function UpdateConfig(c: Contract, env: Env, u: ConfigUpdate): (r: Result<Step>)
    ensures !IsOwner(c.config, env) ==> r == Fail(NotOwner)
    ensures IsOwner(c.config, env) && !OneYocto(env) ==> r == Fail(RequiresOneYocto)
    ensures r.Ok? <==> IsOwner(c.config, env) && OneYocto(env)
    ensures r.Ok? ==>
      var cfg := r.value.contract.config;
      && r.value.contract == c.(config := cfg)
      && r.value.effects == []
      && cfg.ownerId == c.config.ownerId
      && cfg.stableCoinContract == c.config.stableCoinContract
      && cfg.thresholdDepositRate == c.config.thresholdDepositRate
      && cfg.bufferDistributionFactor == c.config.bufferDistributionFactor
      && cfg.ancPurchaseFactor == c.config.ancPurchaseFactor
      && (u.oracleContract.Some? ==> cfg.oracleContract == u.oracleContract.value)
      && (u.oracleContract.None? ==> cfg.oracleContract == c.config.oracleContract)
      && (u.marketContract.Some? ==> cfg.marketContract == u.marketContract.value)
      && (u.marketContract.None? ==> cfg.marketContract == c.config.marketContract)
      && (u.liquidationContract.Some? ==> cfg.liquidationContract == u.liquidationContract.value)
      && (u.liquidationContract.None? ==> cfg.liquidationContract == c.config.liquidationContract)
      && (u.collectorContract.Some? ==> cfg.collectorContract == u.collectorContract.value)
      && (u.collectorContract.None? ==> cfg.collectorContract == c.config.collectorContract)
      && (u.epochPeriod.Some? ==> cfg.epochPeriod == u.epochPeriod.value)
      && (u.epochPeriod.None? ==> cfg.epochPeriod == c.config.epochPeriod)
      && (u.targetDepositRate.Some? ==> cfg.targetDepositRate == u.targetDepositRate.value)
      && (u.targetDepositRate.None? ==> cfg.targetDepositRate == c.config.targetDepositRate)
      && (u.oraclePaymentToken.Some? ==> cfg.oraclePaymentToken == u.oraclePaymentToken.value)
      && (u.oraclePaymentToken.None? ==> cfg.oraclePaymentToken == c.config.oraclePaymentToken)
      && (u.requesterContract.Some? ==> cfg.requesterContract == u.requesterContract.value)
      && (u.requesterContract.None? ==> cfg.requesterContract == c.config.requesterContract)
  {
    if !IsOwner(c.config, env) then Fail(NotOwner)
    else if !OneYocto(env) then Fail(RequiresOneYocto)
    else Ok(Step(c.(config := ApplyConfigUpdate(c.config, u)), []))
  }

  /** Applying the same configuration update twice gives the same contract as
      applying it once. */
  lemma UpdateConfigIdempotent(c: Contract, env: Env, u: ConfigUpdate)
    requires UpdateConfig(c, env, u).Ok?
    ensures var once := UpdateConfig(c, env, u).value.contract;
      UpdateConfig(once, env, u) == Ok(Step(once, []))
  {
  }

  /** An update with every field absent leaves the configuration as it was. */
  lemma UpdateConfigEmpty(c: Contract, env: Env)
    requires IsOwner(c.config, env) && OneYocto(env)
    ensures UpdateConfig(c, env, ConfigUpdate(None, None, None, None, None, None, None, None)) == Ok(Step(c, []))
  {
  }
}
