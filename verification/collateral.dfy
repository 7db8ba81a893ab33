/**
 The overseer's borrower-facing collateral callbacks: unlock after the
 market confirms the loan stays within the borrow limit, and the two-step
 liquidation of a loan above it (contracts/overseer/src/utils.rs).
 */
module Collateral {
  import opened Types
  import opened OverseerState

  /** One `unlock_collateral(borrower, amount)` per snapshot entry, in order,
      to that token's custody contract; a token without a whitelist entry
      panics. */
  function UnlockCalls(wl: Whitelist, borrower: AccountId, tokens: Tokens): (r: Result<seq<Effect>>)
    ensures r.Ok? <==> forall i :: 0 <= i < |tokens| ==> tokens[i].denom in wl.elems
    ensures r.Fail? ==> r.error == UnknownCollateral
    ensures r.Ok? ==>
      && |r.value| == |tokens|
      && forall i :: 0 <= i < |tokens| ==>
           r.value[i] == Send(UnlockCollateral(wl.elems[tokens[i].denom].custodyContract, borrower, tokens[i].amount))
  {
    if tokens == [] then Ok([])
    else if tokens[0].denom !in wl.elems then Fail(UnknownCollateral)
    else
      var rest :- UnlockCalls(wl, borrower, tokens[1..]);
      Ok([Send(UnlockCollateral(wl.elems[tokens[0].denom].custodyContract, borrower, tokens[0].amount))] + rest)
  }

  /** `callback_unlock_collateral`: a failed market reply or a loan above the
      borrow limit aborts with the collateral map untouched; otherwise the
      borrower's snapshot becomes `collaterals` and one unlock per entry is
      issued. */
  function CallbackUnlockCollateral(c: Contract, borrower: AccountId, collaterals: Tokens, borrowLimit: nat,
                                    blockHeight: nat, info: PromiseResult<BorrowerInfo>): (r: Result<Step>)
    ensures !info.Successful? ==> r == Fail(PromiseFailed)
    ensures info.Successful? && borrowLimit < info.value.loanAmount ==> r == Fail(UnlockTooLarge)
    ensures r.Ok? <==>
      && info.Successful? && info.value.loanAmount <= borrowLimit
      && forall i :: 0 <= i < |collaterals| ==> collaterals[i].denom in c.whitelist.elems
    ensures r.Ok? ==>
      && r.value.contract == c.(collaterals := c.collaterals[borrower := collaterals])
      && Ok(r.value.effects) == UnlockCalls(c.whitelist, borrower, collaterals)
  {
    if !info.Successful? then Fail(PromiseFailed)
    else if borrowLimit < info.value.loanAmount then Fail(UnlockTooLarge)
    else
      var calls :- UnlockCalls(c.whitelist, borrower, collaterals);
      Ok(Step(c.(collaterals := c.collaterals[borrower := collaterals]), calls))
  }

  function TotalAmount(tokens: Tokens): nat {
    if tokens == [] then 0 else tokens[0].amount + TotalAmount(tokens[1..])
  }

  function UnlockedTotal(effects: seq<Effect>): nat {
    if effects == [] then 0
    else (if effects[0].Send? && effects[0].call.UnlockCollateral? then effects[0].call.amount else 0)
         + UnlockedTotal(effects[1..])
  }

  /** The unlock instructions carry, in total, exactly the amounts of the
      committed snapshot. The same `collaterals` is both stored as the
      borrower's remaining snapshot and sent as the amounts to release, so
      either custody releases what the borrower keeps or the registry records
      what was released; which one the caller means is decided in code that is
      not part of this model. */
  lemma {:induction false} UnlockCallsCarrySnapshot(wl: Whitelist, borrower: AccountId, tokens: Tokens)
    requires UnlockCalls(wl, borrower, tokens).Ok?
    ensures UnlockedTotal(UnlockCalls(wl, borrower, tokens).value) == TotalAmount(tokens)
  {
    if tokens != [] {
      var r := UnlockCalls(wl, borrower, tokens).value;
      assert UnlockCalls(wl, borrower, tokens[1..]).Ok?;
      assert r[1..] == UnlockCalls(wl, borrower, tokens[1..]).value;
      UnlockCallsCarrySnapshot(wl, borrower, tokens[1..]);
    }
  }

  /** `callback_liquidate_collateral`: both awaited results (the market's
      borrower info, then the caller's balance) must have succeeded; a loan
      within its borrow limit cannot be liquidated; otherwise nothing changes
      and exactly one `get_liquidation_amount` is chained into the second
      callback, carrying the predecessor as its `sender`. This callback is
      itself resumed by a promise, so that predecessor is the account that
      scheduled it (the overseer itself when it chains its own callback), not
      the liquidator who started the liquidation. */
  function CallbackLiquidateCollateral(c: Contract, env: Env, borrower: AccountId, collaterals: Tokens,
                                       borrowLimit: nat, blockHeight: nat, info: PromiseResult<BorrowerInfo>,
                                       prevBalance: PromiseResult<nat>): (r: Result<Step>)
    ensures !info.Successful? || !prevBalance.Successful? ==> r == Fail(PromiseFailed)
    ensures info.Successful? && prevBalance.Successful? ==>
      (r.Fail? <==> borrowLimit >= info.value.loanAmount)
    ensures info.Successful? && prevBalance.Successful? && r.Fail? ==> r.error == CannotLiquidationSafeLoan
    ensures r.Ok? ==>
      && r.value.contract == c
      && r.value.effects == [Chain(GetLiquidationAmount(c.config.liquidationContract),
                                   OnLiquidateCollateral2(env.predecessor, borrower, collaterals, prevBalance.value))]
  {
    if !info.Successful? then Fail(PromiseFailed)
    else if !prevBalance.Successful? then Fail(PromiseFailed)
    else if borrowLimit >= info.value.loanAmount then Fail(CannotLiquidationSafeLoan)
    else
      Ok(Step(c, [Chain(GetLiquidationAmount(c.config.liquidationContract),
                        OnLiquidateCollateral2(env.predecessor, borrower, collaterals, prevBalance.value))]))
  }

  /** The seizure amounts the second callback uses: a hard-coded placeholder
      in place of the liquidation contract's reply. */
  const LIQUIDATION_AMOUNT_PLACEHOLDER: Tokens := [Token("", 0)]

  /** What the second callback does once its result checks pass: store the
      snapshot reduced by the placeholder and ask the market to repay from the
      liquidation. `TokensMath::sub` is not part of this model: it is the
      parameter `sub`, and a failure it reports aborts the callback. The
      per-token `liquidate_collateral` calls are built by a lazy iterator that
      is never consumed, so none is issued. */
  function Liquidate2Commit(c: Contract, borrower: AccountId, collaterals: Tokens, prevBalance: nat,
                            sub: (Tokens, Tokens) -> Result<Tokens>): Result<Step>
  {
    var rest :- sub(collaterals, LIQUIDATION_AMOUNT_PLACEHOLDER);
    Ok(Step(c.(collaterals := c.collaterals[borrower := rest]),
            [Send(RepayStableFromLiquidation(c.config.marketContract, borrower, prevBalance))]))
  }

  /** `callback_liquidate_collateral2` as written: it asserts two promise
      results although it is chained behind a single call. */
  function CallbackLiquidateCollateral2AsWritten(c: Contract, sender: AccountId, borrower: AccountId,
                                                 collaterals: Tokens, prevBalance: nat,
                                                 results: seq<PromiseResult<Tokens>>,
                                                 sub: (Tokens, Tokens) -> Result<Tokens>): (r: Result<Step>)
    ensures |results| != 2 ==> r == Fail(NotACallback)
    ensures r.Ok? ==> |results| == 2 && results[0].Successful?
  {
    if |results| != 2 then Fail(NotACallback)
    else if !results[0].Successful? then Fail(PromiseFailed)
    else Liquidate2Commit(c, borrower, collaterals, prevBalance, sub)
  }

  /** `callback_liquidate_collateral2` expecting the single result its chain
      delivers. It commits exactly when that result succeeded and the
      subtraction of the placeholder succeeded. On success the borrower's
      snapshot is the placeholder-reduced one, every other borrower's is
      unchanged, and the only promise is the market repayment with the
      balance captured before liquidation; no custody `liquidate_collateral`
      call is issued. */
  function CallbackLiquidateCollateral2(c: Contract, sender: AccountId, borrower: AccountId,
                                        collaterals: Tokens, prevBalance: nat,
                                        results: seq<PromiseResult<Tokens>>,
                                        sub: (Tokens, Tokens) -> Result<Tokens>): (r: Result<Step>)
    ensures |results| != 1 ==> r == Fail(NotACallback)
    ensures |results| == 1 ==>
      (r.Ok? <==> results[0].Successful? && sub(collaterals, LIQUIDATION_AMOUNT_PLACEHOLDER).Ok?)
    ensures |results| == 1 && !results[0].Successful? ==> r == Fail(PromiseFailed)
    ensures |results| == 1 && results[0].Successful? && sub(collaterals, LIQUIDATION_AMOUNT_PLACEHOLDER).Fail? ==>
      r == Fail(sub(collaterals, LIQUIDATION_AMOUNT_PLACEHOLDER).error)
    ensures r.Ok? ==>
      && r.value.contract.config == c.config
      && r.value.contract.state == c.state
      && r.value.contract.whitelist == c.whitelist
      && r.value.contract.collaterals.Keys == c.collaterals.Keys + {borrower}
      && r.value.contract.collaterals[borrower] == sub(collaterals, LIQUIDATION_AMOUNT_PLACEHOLDER).value
      && (forall b :: b in c.collaterals && b != borrower ==> r.value.contract.collaterals[b] == c.collaterals[b])
      && r.value.effects == [Send(RepayStableFromLiquidation(c.config.marketContract, borrower, prevBalance))]
      && (forall i :: 0 <= i < |r.value.effects| ==> !r.value.effects[i].call.LiquidateCollateral?)
  {
    if |results| != 1 then Fail(NotACallback)
    else if !results[0].Successful? then Fail(PromiseFailed)
    else Liquidate2Commit(c, borrower, collaterals, prevBalance, sub)
  }

  /** The liquidation chain can never complete as written: whatever the
      liquidation contract answers, the second callback receives the one result
      of its chain and aborts, while the corrected callback commits once that
      result succeeded. */
  lemma LiquidationChainAbortsAsWritten(c: Contract, env: Env, borrower: AccountId, collaterals: Tokens,
                                        borrowLimit: nat, blockHeight: nat, info: PromiseResult<BorrowerInfo>,
                                        prevBalance: PromiseResult<nat>, results: seq<PromiseResult<Tokens>>,
                                        sub: (Tokens, Tokens) -> Result<Tokens>)
    requires CallbackLiquidateCollateral(c, env, borrower, collaterals, borrowLimit, blockHeight, info, prevBalance).Ok?
    requires var e := CallbackLiquidateCollateral(c, env, borrower, collaterals, borrowLimit, blockHeight, info, prevBalance).value.effects[0];
      |results| == ResultCount(e)
    ensures var cb := CallbackLiquidateCollateral(c, env, borrower, collaterals, borrowLimit, blockHeight, info, prevBalance).value.effects[0].callback;
      && CallbackLiquidateCollateral2AsWritten(c, cb.sender, cb.borrower, cb.collaterals, cb.prevBalance, results, sub)
           == Fail(NotACallback)
      && (results[0].Successful? && sub(cb.collaterals, LIQUIDATION_AMOUNT_PLACEHOLDER).Ok? ==>
            CallbackLiquidateCollateral2(c, cb.sender, cb.borrower, cb.collaterals, cb.prevBalance, results, sub).Ok?)
  {
  }
}
