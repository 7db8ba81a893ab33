/**
 Bid execution in the liquidation contract (contracts/liquidation/src/lib.rs):
 a liquidator's standing bid pays for seized collateral at the oracle price
 less its premium, capped by the contract's maximum premium.
 */
module Liquidation {
  import opened Types
  import opened FixedPoint

  datatype Bid = Bid(amount: nat, premiumRate: D128)

  datatype PriceResponse = PriceResponse(rate: D128, lastUpdatedBase: nat, lastUpdatedQuote: nat)

  datatype Contract = Contract(
    owner: AccountId,
    oracleContract: AccountId,
    safeRatio: D128,
    bidFee: D128,
    maxPremiumRate: D128,
    liquidationThreshold: nat,
    priceTimeframe: nat,
    bids: map<AccountId, Bid>)

  /** The bids after execution and the amounts the execution computes. */
  datatype BidExecution = BidExecution(
    bids: map<AccountId, Bid>,
    collateralValue: nat,
    requiredStable: nat,
    bidFee: nat,
    repayAmount: nat)

  /** The premium a bid actually receives. */
  function EffectivePremium(c: Contract, bid: Bid): (p: D128)
    ensures p.m <= c.maxPremiumRate.m && p.m <= bid.premiumRate.m
    ensures p == bid.premiumRate || p == c.maxPremiumRate
  {
    MinD(bid.premiumRate, c.maxPremiumRate)
  }

  /** The stable coins a bid must pay for `amount` of collateral at `price`:
      the collateral value less the effective premium. With a nonnegative
      price and an effective premium in [0, 1] it is defined and never exceeds
      the collateral value. */
  function RequiredStable(c: Contract, bid: Bid, price: PriceResponse, amount: nat): (r: Result<nat>)
    ensures r.Ok? ==> MulInt(price.rate, amount) >= 0
    ensures price.rate.m >= 0 && 0 <= EffectivePremium(c, bid).m <= SCALE ==>
      r.Ok? && r.value <= MulInt(price.rate, amount)
  {
    MulIntNonneg(price.rate, amount);
    var collateralValue :- ToBalance(MulInt(price.rate, amount));
    MulIntFraction(Sub(One(), EffectivePremium(c, bid)), collateralValue);
    ToBalance(MulInt(Sub(One(), EffectivePremium(c, bid)), collateralValue))
  }

  /** What is left of the liquidator's bid: zero once it is removed. */
  function Remaining(bids: map<AccountId, Bid>, liquidator: AccountId): nat {
    if liquidator in bids then bids[liquidator].amount else 0
  }

  /** `execute_bid`. The price is the oracle's already validated answer. A
      missing bid, a bid too small for the collateral, or a negative balance
      aborts; a bid paying exactly its balance is removed, a larger one is
      reduced keeping its premium; the payment splits into fee and repayment. */
  function ExecuteBid(c: Contract, liquidator: AccountId, repayAddress: AccountId, feeAddress: AccountId,
                      amount: nat, price: PriceResponse): (r: Result<BidExecution>)
    ensures liquidator !in c.bids ==> r == Fail(BidNotFound)
    ensures liquidator in c.bids && RequiredStable(c, c.bids[liquidator], price, amount).Ok?
            && RequiredStable(c, c.bids[liquidator], price, amount).value > c.bids[liquidator].amount
            ==> r == Fail(InsufficientBidBalance)
    ensures r.Ok? ==>
      var bid := c.bids[liquidator];
      var e := r.value;
      && liquidator in c.bids
      && e.collateralValue == MulInt(price.rate, amount)
      && Ok(e.requiredStable) == RequiredStable(c, bid, price, amount)
      && e.requiredStable <= bid.amount
      && (bid.amount == e.requiredStable ==> e.bids == c.bids - {liquidator})
      && (bid.amount != e.requiredStable ==>
            e.bids == c.bids[liquidator := Bid(bid.amount - e.requiredStable, bid.premiumRate)])
      && e.bidFee == MulInt(c.bidFee, e.requiredStable)
      && e.bidFee + e.repayAmount == e.requiredStable
      && e.repayAmount <= e.requiredStable
  {
    if liquidator !in c.bids then Fail(BidNotFound)
    else
      var bid := c.bids[liquidator];
      var collateralValue :- ToBalance(MulInt(price.rate, amount));
      var required :- RequiredStable(c, bid, price, amount);
      if required > bid.amount then Fail(InsufficientBidBalance)
      else
        var bids' := if bid.amount == required then c.bids - {liquidator}
                     else c.bids[liquidator := bid.(amount := bid.amount - required)];
        var fee :- ToBalance(MulInt(c.bidFee, required));
        var repay :- CheckedSub(required, fee);
        Ok(BidExecution(bids', collateralValue, required, fee, repay))
  }

  /** Bid conservation: what remains of the liquidator's bid plus what the
      execution takes from it is the bid's previous amount, and every other
      bid is untouched. */
  lemma ExecuteBidConservesBid(c: Contract, liquidator: AccountId, repayAddress: AccountId,
                               feeAddress: AccountId, amount: nat, price: PriceResponse)
    requires ExecuteBid(c, liquidator, repayAddress, feeAddress, amount, price).Ok?
    ensures var e := ExecuteBid(c, liquidator, repayAddress, feeAddress, amount, price).value;
      && Remaining(e.bids, liquidator) + e.requiredStable == c.bids[liquidator].amount
      && (forall l :: l != liquidator ==> (l in e.bids <==> l in c.bids))
      && (forall l :: l != liquidator && l in c.bids ==> e.bids[l] == c.bids[l])
  {
  }

  /** A bid fee and a premium within [0, 1] never make the execution fault on
      arithmetic: only a missing bid or an insufficient balance can abort. */
  lemma ExecuteBidArithmeticSafe(c: Contract, liquidator: AccountId, repayAddress: AccountId,
                                 feeAddress: AccountId, amount: nat, price: PriceResponse)
    requires liquidator in c.bids
    requires price.rate.m >= 0
    requires 0 <= c.bidFee.m <= SCALE
    requires 0 <= EffectivePremium(c, c.bids[liquidator]).m <= SCALE
    ensures RequiredStable(c, c.bids[liquidator], price, amount).Ok?
    ensures var required := RequiredStable(c, c.bids[liquidator], price, amount).value;
      (ExecuteBid(c, liquidator, repayAddress, feeAddress, amount, price).Ok? <==>
       required <= c.bids[liquidator].amount)
  {
    var required := RequiredStable(c, c.bids[liquidator], price, amount).value;
    MulIntFraction(c.bidFee, required);
  }

  /** A higher premium never asks the bidder for more stable coins. */
  lemma HigherPremiumPaysLess(c: Contract, low: Bid, high: Bid, price: PriceResponse, amount: nat)
    requires price.rate.m >= 0
    requires low.premiumRate.m <= high.premiumRate.m
    requires 0 <= low.premiumRate.m && c.maxPremiumRate.m <= SCALE
    ensures RequiredStable(c, low, price, amount).Ok? && RequiredStable(c, high, price, amount).Ok?
    ensures RequiredStable(c, high, price, amount).value <= RequiredStable(c, low, price, amount).value
  {
    var dLow := Sub(One(), EffectivePremium(c, low));
    var dHigh := Sub(One(), EffectivePremium(c, high));
    MulIntNonneg(price.rate, amount);
    MulIntNonneg(dHigh, MulInt(price.rate, amount));
    MulIntMonotone(dHigh, dLow, MulInt(price.rate, amount));
  }
}
