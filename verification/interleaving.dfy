/**
 Properties that relate the overseer's workflows to each other: the price
 refresh and the settlement commit write disjoint parts of the state, and a
 freshly constructed overseer settles its first epoch once the epoch period
 has elapsed.
 */
module Interleaving {
  import opened Types
  import opened FixedPoint
  import opened OverseerState
  import opened PriceFeed
  import opened Admin
  import opened Epoch

  /** Whichever of the price callback and the settlement commit runs first,
      both succeed and leave the same contract. */
  lemma PriceRefreshCommutesWithCommit(c: Contract, env: Env, details: DataRequestDetails,
                                       interestBuffer: nat, distributed: nat, blockHeight: nat,
                                       blocks: nat, reply: EpochReply)
    requires CallbackUpdateEpochState(c, interestBuffer, distributed, blockHeight, blocks, Successful(reply)).Ok?
    ensures var priced := CallbackGetPriceResponse(c, env, Successful(Some(details))).value.contract;
      var committed := CallbackUpdateEpochState(c, interestBuffer, distributed, blockHeight, blocks, Successful(reply)).value.contract;
      && CallbackUpdateEpochState(priced, interestBuffer, distributed, blockHeight, blocks, Successful(reply)).Ok?
      && CallbackGetPriceResponse(committed, env, Successful(Some(details))).Ok?
      && CallbackUpdateEpochState(priced, interestBuffer, distributed, blockHeight, blocks, Successful(reply)).value.contract
         == CallbackGetPriceResponse(committed, env, Successful(Some(details))).value.contract
  {
    var priced := CallbackGetPriceResponse(c, env, Successful(Some(details))).value.contract;
    var committed := CallbackUpdateEpochState(c, interestBuffer, distributed, blockHeight, blocks, Successful(reply)).value.contract;
    assert priced.state.prevExchangeRate == c.state.prevExchangeRate;
    assert priced.config == c.config;
    var left := CallbackUpdateEpochState(priced, interestBuffer, distributed, blockHeight, blocks, Successful(reply)).value.contract;
    var right := CallbackGetPriceResponse(committed, env, Successful(Some(details))).value.contract;
    assert left.state.lastPriceResponse == priced.state.lastPriceResponse;
    assert right.state.lastPriceResponse == priced.state.lastPriceResponse;
    assert left.state == right.state;
  }

  /** A freshly constructed overseer has settled at height zero: its first
      settlement passes the gate exactly when the block height has reached one
      epoch period, and then covers every block since genesis. */
  lemma FirstEpochGate(env0: Env, isValidAccountId: AccountId -> bool, config: Config, env: Env)
    requires New(env0, false, isValidAccountId, config).Ok?
    requires OneYocto(env)
    ensures var c := New(env0, false, isValidAccountId, config).value.contract;
      && (ExecuteEpochOperations(c, env).Ok? <==> env.blockIndex >= config.epochPeriod)
      && (ExecuteEpochOperations(c, env).Ok? ==>
            ExecuteEpochOperations(c, env).value.effects[1].callback.blocks == env.blockIndex)
  {
  }

  /** The first settlement of a fresh overseer measures the exchange rate
      against 1.0 and its accrued buffer against zero. */
  lemma FirstSettlementBaseline(env0: Env, isValidAccountId: AccountId -> bool, config: Config,
                                blocks: nat, interestBuffer: nat, reply: EpochReply)
    requires New(env0, false, isValidAccountId, config).Ok?
    requires blocks > 0
    ensures var c := New(env0, false, isValidAccountId, config).value.contract;
      var r := Settle(c, blocks, interestBuffer, reply);
      && DepositRate(c.state.prevExchangeRate, reply.exchangeRate, blocks).Ok?
      && (r.Ok? ==> r.value.purchaseAmount == MulInt(config.ancPurchaseFactor, interestBuffer))
      && (reply.exchangeRate == One() ==> DepositRate(c.state.prevExchangeRate, reply.exchangeRate, blocks) == Ok(Zero()))
  {
    var c := New(env0, false, isValidAccountId, config).value.contract;
    if reply.exchangeRate == One() {
      DepositRateSign(c.state.prevExchangeRate, reply.exchangeRate, blocks);
    }
  }
}
