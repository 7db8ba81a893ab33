/**
 The overseer's epoch settlement: the elapsed-epoch gate, the arithmetic of
 the first callback (deposit rate, buy-back amount, deposit subsidy, reward
 fan-out), the second leg that re-reads the market, and the commit of the
 settlement state (contracts/overseer/src/lib.rs, contracts/overseer/src/utils.rs).
 */
module Epoch {
  import opened Types
  import opened FixedPoint
  import opened OverseerState

  // ---------------------------------------------------------------------------
  // Deposit rate

  /** `(exchange_rate / prev_exchange_rate - 1) / blocks`; either division by
      zero panics. */
  function DepositRate(prevExchangeRate: D128, exchangeRate: D128, blocks: nat): (r: Result<D128>)
    ensures r.Ok? <==> prevExchangeRate.m != 0 && blocks != 0
    ensures r.Fail? ==> r.error == ArithmeticFault
  {
    var effective :- Div(exchangeRate, prevExchangeRate);
    DivInt(Sub(effective, One()), blocks)
  }

  /** The per-block rate has the sign of the exchange-rate drift (truncation
      may round a small drift to zero) and is zero when the rate is unchanged. */
  lemma DepositRateSign(prevExchangeRate: D128, exchangeRate: D128, blocks: nat)
    requires prevExchangeRate.m > 0 && exchangeRate.m >= 0 && blocks > 0
    ensures var rate := DepositRate(prevExchangeRate, exchangeRate, blocks).value;
      && (exchangeRate.m >= prevExchangeRate.m ==> rate.m >= 0)
      && (exchangeRate.m <= prevExchangeRate.m ==> rate.m <= 0)
      && (exchangeRate == prevExchangeRate ==> rate.m == 0)
  {
    var eff := Quot(exchangeRate.m * SCALE, prevExchangeRate.m);
    EffectiveRateVsOne(prevExchangeRate.m, exchangeRate.m);
    QuotSign(eff - SCALE, blocks);
  }

  /** `exchange_rate / prev_exchange_rate` compared with one. */
  lemma EffectiveRateVsOne(p: int, x: int)
    requires p > 0 && x >= 0
    ensures x >= p ==> Quot(x * SCALE, p) >= SCALE
    ensures x <= p ==> Quot(x * SCALE, p) <= SCALE
    ensures x == p ==> Quot(x * SCALE, p) == SCALE
  {
    assert Quot(x * SCALE, p) == (x * SCALE) / p;
    MulDivCancel(SCALE, p);
    assert p * SCALE == SCALE * p;
    if x >= p {
      assert p * SCALE <= x * SCALE by { assert (x - p) * SCALE >= 0; }
      DivMonotone(p * SCALE, x * SCALE, p);
    }
    if x <= p {
      assert x * SCALE <= p * SCALE by { assert (p - x) * SCALE >= 0; }
      DivMonotone(x * SCALE, p * SCALE, p);
    }
  }

  // ---------------------------------------------------------------------------
  // First leg: settlement arithmetic

  /** A stable-coin transfer issued only for a nonzero amount. */
  function TransferIf(token: AccountId, receiver: AccountId, amount: nat): (r: seq<Effect>)
    ensures amount == 0 <==> r == []
  {
    if amount != 0 then [Send(FtTransfer(token, receiver, amount))] else []
  }

  /** One `distribute_rewards` call per whitelist entry, in iteration order. */
  function DistributeCalls(keys: seq<AccountId>, elems: map<AccountId, WhitelistElem>): (r: seq<Effect>)
    requires forall k :: k in keys ==> k in elems
    ensures |r| == |keys|
    ensures forall i :: 0 <= i < |keys| ==> r[i] == Send(DistributeRewards(elems[keys[i]].custodyContract))
  {
    if keys == [] then []
    else [Send(DistributeRewards(elems[keys[0]].custodyContract))] + DistributeCalls(keys[1..], elems)
  }

  function FanOut(wl: Whitelist): (r: seq<Effect>)
    requires wl.Valid()
    ensures |r| == |wl.order|
    ensures forall i :: 0 <= i < |r| ==> r[i] == Send(DistributeRewards(wl.elems[wl.order[i]].custodyContract))
  {
    DistributeCalls(wl.order, wl.elems)
  }

  /** `(prev_supply * prev_exchange_rate * (threshold - rate)).mul_int(blocks)`,
      truncating twice: the decimal product, then the product with `blocks`.
      It is a valid balance whenever the rate is at most the threshold, and
      nothing is missing when no block elapsed or the rate meets the
      threshold exactly. */
  function MissingDeposits(c: Contract, rate: D128, blocks: nat): (r: Result<nat>)
    ensures c.state.prevExchangeRate.m >= 0 && rate.m <= c.config.thresholdDepositRate.m ==> r.Ok?
    ensures blocks == 0 ==> r == Ok(0)
    ensures rate == c.config.thresholdDepositRate ==> r == Ok(0)
  {
    var missingRate := Sub(c.config.thresholdDepositRate, rate);
    var prevDeposits := FromIntTimes(c.state.prevStableCoinTotalSupply, c.state.prevExchangeRate);
    MulNonneg(prevDeposits, missingRate);
    MulIntNonneg(Mul(prevDeposits, missingRate), blocks);
    ToBalance(MulInt(Mul(prevDeposits, missingRate), blocks))
  }

  datatype Settlement = Settlement(
    depositRate: D128,
    purchaseAmount: nat,
    distributedInterest: nat,
    interestBuffer: nat,
    effects: seq<Effect>)

  /** The body of `callback_execute_epoch_operations` up to the point where it
      hands the remaining buffer to the second leg. */
  function Settle(c: Contract, blocks: nat, interestBuffer: nat, reply: EpochReply): (r: Result<Settlement>)
    requires c.whitelist.Valid()
    ensures c.state.prevExchangeRate.m == 0 || blocks == 0 ==> r == Fail(ArithmeticFault)
    ensures interestBuffer < c.state.prevInterestBuffer ==> r == Fail(ArithmeticFault)
    ensures r.Ok? ==>
      var s := r.value;
      && Ok(s.depositRate) == DepositRate(c.state.prevExchangeRate, reply.exchangeRate, blocks)
      && c.state.prevInterestBuffer <= interestBuffer
      && s.purchaseAmount == MulInt(c.config.ancPurchaseFactor, interestBuffer - c.state.prevInterestBuffer)
      && s.purchaseAmount <= interestBuffer
      && (s.depositRate.m >= c.config.thresholdDepositRate.m ==> s.distributedInterest == 0)
      && (s.depositRate.m < c.config.thresholdDepositRate.m ==>
            && MissingDeposits(c, s.depositRate, blocks).Ok?
            && s.distributedInterest == Min(MissingDeposits(c, s.depositRate, blocks).value,
                                            MulInt(c.config.bufferDistributionFactor, interestBuffer - s.purchaseAmount)))
      && s.distributedInterest <= interestBuffer - s.purchaseAmount
      && s.interestBuffer == interestBuffer - s.purchaseAmount - s.distributedInterest
      && s.effects == TransferIf(c.config.stableCoinContract, c.config.collectorContract, s.purchaseAmount)
                    + TransferIf(c.config.stableCoinContract, c.config.marketContract, s.distributedInterest)
                    + FanOut(c.whitelist)
  {
    var rate :- DepositRate(c.state.prevExchangeRate, reply.exchangeRate, blocks);
    var accrued :- CheckedSub(interestBuffer, c.state.prevInterestBuffer);
    var purchase :- ToBalance(MulInt(c.config.ancPurchaseFactor, accrued));
    var buffer :- CheckedSub(interestBuffer, purchase);
    var toCollector := TransferIf(c.config.stableCoinContract, c.config.collectorContract, purchase);
    if rate.m < c.config.thresholdDepositRate.m then
      var missing :- MissingDeposits(c, rate, blocks);
      var cap :- ToBalance(MulInt(c.config.bufferDistributionFactor, buffer));
      var distributed: nat := Min(missing, cap);
      var rest :- CheckedSub(buffer, distributed);
      var toMarket := TransferIf(c.config.stableCoinContract, c.config.marketContract, distributed);
      Ok(Settlement(rate, purchase, distributed, rest, toCollector + toMarket + FanOut(c.whitelist)))
    else
      Ok(Settlement(rate, purchase, 0, buffer, toCollector + [] + FanOut(c.whitelist)))
  }

  /** Stable coins the promises send out of the overseer's own balance. */
  function Outflow(effects: seq<Effect>, token: AccountId): nat {
    if effects == [] then 0
    else
      (match effects[0]
       case Send(FtTransfer(t, _, amount)) => if t == token then amount else 0
       case _ => 0)
      + Outflow(effects[1..], token)
  }

  lemma {:induction false} OutflowAppend(a: seq<Effect>, b: seq<Effect>, token: AccountId)
    ensures Outflow(a + b, token) == Outflow(a, token) + Outflow(b, token)
  {
    if a == [] {
      assert a + b == b;
    } else {
      assert (a + b)[1..] == a[1..] + b;
      OutflowAppend(a[1..], b, token);
    }
  }

  lemma {:induction false} DistributeCallsMoveNoFunds(keys: seq<AccountId>, elems: map<AccountId, WhitelistElem>, token: AccountId)
    requires forall k :: k in keys ==> k in elems
    ensures Outflow(DistributeCalls(keys, elems), token) == 0
  {
    if keys != [] {
      var r := DistributeCalls(keys, elems);
      assert r[1..] == DistributeCalls(keys[1..], elems);
      DistributeCallsMoveNoFunds(keys[1..], elems, token);
    }
  }

  /** The two gated transfers followed by calls that move no stable coins send
      out exactly the two amounts. */
  lemma TransfersOutflow(token: AccountId, collector: AccountId, market: AccountId,
                         purchase: nat, distributed: nat, rest: seq<Effect>)
    requires Outflow(rest, token) == 0
    ensures Outflow(TransferIf(token, collector, purchase) + TransferIf(token, market, distributed) + rest, token)
            == purchase + distributed
  {
    var a := TransferIf(token, collector, purchase);
    var b := TransferIf(token, market, distributed);
    OutflowAppend(a + b, rest, token);
    OutflowAppend(a, b, token);
    assert Outflow(a, token) == purchase by {
      if a != [] { assert a[1..] == []; }
    }
    assert Outflow(b, token) == distributed by {
      if b != [] { assert b[1..] == []; }
    }
  }

  /** Conservation of the interest buffer: what the settlement forwards plus
      what its transfers send out equals the balance it started from. */
  lemma SettleConservesBuffer(c: Contract, blocks: nat, interestBuffer: nat, reply: EpochReply)
    requires c.whitelist.Valid()
    ensures var r := Settle(c, blocks, interestBuffer, reply);
      r.Ok? ==> Outflow(r.value.effects, c.config.stableCoinContract) + r.value.interestBuffer == interestBuffer
  {
    var r := Settle(c, blocks, interestBuffer, reply);
    if r.Ok? {
      var token := c.config.stableCoinContract;
      DistributeCallsMoveNoFunds(c.whitelist.order, c.whitelist.elems, token);
      TransfersOutflow(token, c.config.collectorContract, c.config.marketContract,
                       r.value.purchaseAmount, r.value.distributedInterest, FanOut(c.whitelist));
    }
  }

  /** With a positive previous exchange rate, an elapsed block count, a buffer
      that did not shrink and both factors within [0, 1], the settlement
      arithmetic cannot fault. */
  lemma SettleTotalOnSaneInputs(c: Contract, blocks: nat, interestBuffer: nat, reply: EpochReply)
    requires c.whitelist.Valid()
    requires c.state.prevExchangeRate.m > 0 && blocks > 0
    requires c.state.prevInterestBuffer <= interestBuffer
    requires 0 <= c.config.ancPurchaseFactor.m <= SCALE
    requires 0 <= c.config.bufferDistributionFactor.m <= SCALE
    ensures Settle(c, blocks, interestBuffer, reply).Ok?
  {
    var rate := DepositRate(c.state.prevExchangeRate, reply.exchangeRate, blocks).value;
    var accrued := interestBuffer - c.state.prevInterestBuffer;
    MulIntFraction(c.config.ancPurchaseFactor, accrued);
    var purchase := MulInt(c.config.ancPurchaseFactor, accrued);
    var buffer := interestBuffer - purchase;
    MulIntFraction(c.config.bufferDistributionFactor, buffer);
  }

  // ---------------------------------------------------------------------------
  // Entry point and second leg

  /** `execute_epoch_operations`: one yocto, then the epoch gate; anyone may
      call it. It changes no state and chains the market's epoch state into
      the settlement callback with the elapsed blocks and the account balance. */
  function ExecuteEpochOperations(c: Contract, env: Env): (r: Result<Step>)
    ensures !OneYocto(env) ==> r == Fail(RequiresOneYocto)
    ensures OneYocto(env) ==>
      (r.Fail? <==> env.blockIndex < c.state.lastExecutedHeight + c.config.epochPeriod)
    ensures OneYocto(env) && r.Fail? ==> r.error == EpochNotPassed
    ensures r.Ok? ==>
      && env.blockIndex - c.state.lastExecutedHeight >= c.config.epochPeriod
      && r.value.contract == c
      && r.value.effects == [
           RefreshPrice(c.config, env),
           Chain(GetEpochState(c.config.marketContract, Some(env.blockIndex), None),
                 OnExecuteEpochOperations(env.blockIndex - c.state.lastExecutedHeight, env.accountBalance))]
  {
    if !OneYocto(env) then Fail(RequiresOneYocto)
    else if env.blockIndex < c.state.lastExecutedHeight + c.config.epochPeriod then Fail(EpochNotPassed)
    else
      var blocks := env.blockIndex - c.state.lastExecutedHeight;
      Ok(Step(c, [
        RefreshPrice(c.config, env),
        Chain(GetEpochState(c.config.marketContract, Some(env.blockIndex), None),
              OnExecuteEpochOperations(blocks, env.accountBalance))]))
  }

  /** The gate has no owner check: who calls it does not change the outcome. */
  lemma EpochGateIgnoresCaller(c: Contract, env: Env, caller: AccountId)
    ensures ExecuteEpochOperations(c, env.(predecessor := caller))
         == ExecuteEpochOperations(c, env)
  {
  }

  /** When the gate lets a round through with a nonzero epoch period and a
      nonzero previous exchange rate, the callback's deposit rate is defined. */
  lemma GateGuaranteesRate(c: Contract, env: Env, exchangeRate: D128)
    requires ExecuteEpochOperations(c, env).Ok?
    requires c.config.epochPeriod > 0 && c.state.prevExchangeRate.m != 0
    ensures DepositRate(c.state.prevExchangeRate, exchangeRate,
                        env.blockIndex - c.state.lastExecutedHeight).Ok?
  {
  }

  /** The second leg without its guards: re-read the market's epoch state at
      the current height and resume in the commit callback. The block count
      is a checked `u64` subtraction. */
  function InternalUpdateEpochState(c: Contract, env: Env, interestBuffer: nat, distributed: nat): (r: Result<Step>)
    ensures r.Ok? <==> c.state.lastExecutedHeight <= env.blockIndex
    ensures r.Fail? ==> r.error == ArithmeticFault
    ensures r.Ok? ==>
      && r.value.contract == c
      && r.value.effects == [
           RefreshPrice(c.config, env),
           Chain(GetEpochState(c.config.marketContract, Some(env.blockIndex), Some(distributed)),
                 OnUpdateEpochState(interestBuffer, distributed, env.blockIndex,
                                    env.blockIndex - c.state.lastExecutedHeight))]
  {
    var blocks :- CheckedSub(env.blockIndex, c.state.lastExecutedHeight);
    Ok(Step(c, [
      RefreshPrice(c.config, env),
      Chain(GetEpochState(c.config.marketContract, Some(env.blockIndex), Some(distributed)),
            OnUpdateEpochState(interestBuffer, distributed, env.blockIndex, blocks))]))
  }

  /** `update_epoch_state`: one yocto and the owner, then the second leg. */
  function UpdateEpochState(c: Contract, env: Env, interestBuffer: nat, distributed: nat): (r: Result<Step>)
    ensures !OneYocto(env) ==> r == Fail(RequiresOneYocto)
    ensures OneYocto(env) && !IsOwner(c.config, env) ==> r == Fail(NotOwner)
    ensures OneYocto(env) && IsOwner(c.config, env) ==> r == InternalUpdateEpochState(c, env, interestBuffer, distributed)
  {
    if !OneYocto(env) then Fail(RequiresOneYocto)
    else if !IsOwner(c.config, env) then Fail(NotOwner)
    else InternalUpdateEpochState(c, env, interestBuffer, distributed)
  }

  function SettleReply(c: Contract, blocks: nat, interestBuffer: nat, reply: PromiseResult<EpochReply>): (r: Result<Settlement>)
    requires c.whitelist.Valid()
    ensures !reply.Successful? ==> r == Fail(PromiseFailed)
    ensures reply.Successful? ==> r == Settle(c, blocks, interestBuffer, reply.value)
  {
    if !reply.Successful? then Fail(PromiseFailed) else Settle(c, blocks, interestBuffer, reply.value)
  }

  /** `callback_execute_epoch_operations` as written: it ends by calling the
      public `update_epoch_state`, whose one-yocto and owner assertions see the
      callback's own receipt (no deposit, the contract as predecessor). */
  function CallbackExecuteEpochOperationsAsWritten(c: Contract, env: Env, blocks: nat, interestBuffer: nat,
                                                   reply: PromiseResult<EpochReply>): (r: Result<Step>)
    requires c.whitelist.Valid()
    ensures r.Ok? ==> OneYocto(env) && IsOwner(c.config, env)
  {
    var s :- SettleReply(c, blocks, interestBuffer, reply);
    var next :- UpdateEpochState(c, env, s.interestBuffer, s.distributedInterest);
    Ok(Step(next.contract, s.effects + next.effects))
  }

  /** The callback is dispatched with no attached deposit (`NO_DEPOSIT`), so
      as written every settlement round aborts: after a successful market reply
      and settlement, with `RequiresOneYocto`. */
  lemma EpochCallbackAlwaysAbortsAsWritten(c: Contract, env: Env, blocks: nat, interestBuffer: nat,
                                           reply: PromiseResult<EpochReply>)
    requires c.whitelist.Valid()
    requires env.attachedDeposit == 0
    ensures CallbackExecuteEpochOperationsAsWritten(c, env, blocks, interestBuffer, reply).Fail?
    ensures SettleReply(c, blocks, interestBuffer, reply).Ok? ==>
      CallbackExecuteEpochOperationsAsWritten(c, env, blocks, interestBuffer, reply) == Fail(RequiresOneYocto)
  {
  }

  /** `callback_execute_epoch_operations` with the evidently intended second
      leg: the settlement's promises, then the second leg started directly. */
  function CallbackExecuteEpochOperations(c: Contract, env: Env, blocks: nat, interestBuffer: nat,
                                          reply: PromiseResult<EpochReply>): (r: Result<Step>)
    requires c.whitelist.Valid()
    ensures !reply.Successful? ==> r == Fail(PromiseFailed)
    ensures r.Ok? <==> SettleReply(c, blocks, interestBuffer, reply).Ok? && c.state.lastExecutedHeight <= env.blockIndex
    ensures r.Ok? ==>
      var s := SettleReply(c, blocks, interestBuffer, reply).value;
      && r.value.contract == c
      && r.value.effects == s.effects + [
           RefreshPrice(c.config, env),
           Chain(GetEpochState(c.config.marketContract, Some(env.blockIndex), Some(s.distributedInterest)),
                 OnUpdateEpochState(s.interestBuffer, s.distributedInterest, env.blockIndex,
                                    env.blockIndex - c.state.lastExecutedHeight))]
  {
    var s :- SettleReply(c, blocks, interestBuffer, reply);
    var next :- InternalUpdateEpochState(c, env, s.interestBuffer, s.distributedInterest);
    Ok(Step(next.contract, s.effects + next.effects))
  }

  // ---------------------------------------------------------------------------
  // Commit

  /** `callback_update_epoch_state`: a failed reply aborts before any change;
      otherwise the five settlement fields are committed from the arguments and
      the market's reply, the recorded price is kept, and the market is told
      the new rate with the configured target and threshold rates. */
  function CallbackUpdateEpochState(c: Contract, interestBuffer: nat, distributed: nat, blockHeight: nat,
                                    blocks: nat, reply: PromiseResult<EpochReply>): (r: Result<Step>)
    ensures !reply.Successful? ==> r == Fail(PromiseFailed)
    ensures reply.Successful? ==>
      (r.Ok? <==> c.state.prevExchangeRate.m != 0 && blocks != 0)
    ensures r.Ok? ==>
      var s := r.value.contract.state;
      && Ok(s.depositRate) == DepositRate(c.state.prevExchangeRate, reply.value.exchangeRate, blocks)
      && s.lastExecutedHeight == blockHeight
      && s.prevStableCoinTotalSupply == reply.value.stableCoinTotalSupply
      && s.prevExchangeRate == reply.value.exchangeRate
      && s.prevInterestBuffer == interestBuffer
      && s.lastPriceResponse == c.state.lastPriceResponse
      && r.value.contract == c.(state := s)
      && r.value.effects == [Send(MarketExecuteEpochOperations(c.config.marketContract, s.depositRate,
                                                         c.config.targetDepositRate,
                                                         c.config.thresholdDepositRate, distributed))]
  {
    if !reply.Successful? then Fail(PromiseFailed)
    else
      var rate :- DepositRate(c.state.prevExchangeRate, reply.value.exchangeRate, blocks);
      var s := c.state.(
        lastExecutedHeight := blockHeight,
        prevStableCoinTotalSupply := reply.value.stableCoinTotalSupply,
        prevExchangeRate := reply.value.exchangeRate,
        prevInterestBuffer := interestBuffer,
        depositRate := rate);
      Ok(Step(c.(state := s), [Send(MarketExecuteEpochOperations(c.config.marketContract, rate,
                                                           c.config.targetDepositRate,
                                                           c.config.thresholdDepositRate, distributed))]))
  }

  /** The committed exchange rate is the baseline of the next round: if the
      market reports the same rate again the next deposit rate is zero. */
  lemma CommitSetsNextBaseline(c: Contract, interestBuffer: nat, distributed: nat, blockHeight: nat,
                               blocks: nat, reply: EpochReply, nextBlocks: nat)
    requires reply.exchangeRate.m > 0 && nextBlocks > 0
    requires CallbackUpdateEpochState(c, interestBuffer, distributed, blockHeight, blocks, Successful(reply)).Ok?
    ensures var c' := CallbackUpdateEpochState(c, interestBuffer, distributed, blockHeight, blocks, Successful(reply)).value.contract;
      DepositRate(c'.state.prevExchangeRate, reply.exchangeRate, nextBlocks) == Ok(Zero())
  {
    DepositRateSign(reply.exchangeRate, reply.exchangeRate, nextBlocks);
  }

  /** A whole round with the corrected first callback: the gate's chained
      callback, then the commit of the second leg's chained callback. The
      committed height is the second leg's height, strictly above the
      previous one because the gate let the round through, and the committed
      buffer is what the settlement left. */
  lemma SettlementRoundCommits(c: Contract, env1: Env, env2: Env, reply1: EpochReply, reply2: EpochReply)
    requires c.whitelist.Valid()
    requires ExecuteEpochOperations(c, env1).Ok?
    requires c.config.epochPeriod > 0 && c.state.prevExchangeRate.m != 0
    requires env1.blockIndex <= env2.blockIndex
    ensures var r := Settle(c, env1.blockIndex - c.state.lastExecutedHeight, env1.accountBalance, reply1);
      r.Ok? ==>
      var s := r.value;
      var leg := CallbackExecuteEpochOperations(c, env2, env1.blockIndex - c.state.lastExecutedHeight,
                                                env1.accountBalance, Successful(reply1));
      && leg.Ok?
      && leg.value.effects[|leg.value.effects| - 1].Chain?
      && var cb := leg.value.effects[|leg.value.effects| - 1].callback;
      && cb.OnUpdateEpochState?
      && var commit := CallbackUpdateEpochState(c, cb.interestBuffer, cb.distributedInterest, cb.blockHeight,
                                                cb.blocks, Successful(reply2));
      && commit.Ok?
      && commit.value.contract.state.lastExecutedHeight == env2.blockIndex
      && commit.value.contract.state.lastExecutedHeight > c.state.lastExecutedHeight
      && commit.value.contract.state.prevInterestBuffer == s.interestBuffer
      && commit.value.effects[0].call.distributedInterest == s.distributedInterest
  {
  }
}
