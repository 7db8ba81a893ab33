/**
 The overseer contract's persistent records (configuration, settlement state,
 collateral whitelist, borrower collateral snapshots), the environment a call
 runs in, and the outgoing promises a step creates.
 */
module OverseerState {
  import opened Types
  import opened FixedPoint

  /** Payment attached to every new oracle data request: 10^24 units of the
      oracle payment token. */
  const PRICE_REQUEST_PAYMENT: nat := 1_000_000_000_000_000_000_000_000

  datatype Config = Config(
    ownerId: AccountId,
    stableCoinContract: AccountId,
    oracleContract: AccountId,
    marketContract: AccountId,
    liquidationContract: AccountId,
    collectorContract: AccountId,
    epochPeriod: nat,
    thresholdDepositRate: D128,
    targetDepositRate: D128,
    bufferDistributionFactor: D128,
    ancPurchaseFactor: D128,
    oraclePaymentToken: AccountId,
    requesterContract: AccountId)

  datatype PriceResponse = PriceResponse(price: D128, lastUpdatedAt: nat)

  datatype State = State(
    depositRate: D128,
    prevStableCoinTotalSupply: nat,
    lastExecutedHeight: nat,
    prevExchangeRate: D128,
    prevInterestBuffer: nat,
    lastPriceResponse: PriceResponse)

  datatype WhitelistElem = WhitelistElem(
    name: string,
    symbol: string,
    custodyContract: AccountId,
    maxLtv: D128)

  /** The whitelist map keeps its keys in insertion order: inserting an existing
      key replaces its value in place, a new key is appended. */
  datatype Whitelist = Whitelist(order: seq<AccountId>, elems: map<AccountId, WhitelistElem>) {

    ghost predicate Valid() {
      && (forall i, j :: 0 <= i < j < |order| ==> order[i] != order[j])
      && (forall k :: k in elems <==> k in order)
    }

    function Insert(token: AccountId, elem: WhitelistElem): (w: Whitelist)
      requires Valid()
      ensures w.Valid()
      ensures w.elems == elems[token := elem]
      ensures token in elems ==> w.order == order
      ensures token !in elems ==> w.order == order + [token]
    {
      if token in elems then Whitelist(order, elems[token := elem])
      else Whitelist(order + [token], elems[token := elem])
    }
  }

  function EmptyWhitelist(): (w: Whitelist)
    ensures w.Valid() && w.elems == map[]
  {
    Whitelist([], map[])
  }

  datatype Token = Token(denom: AccountId, amount: nat)

  type Tokens = seq<Token>

  /** A borrower's debt position as the market reports it. */
  datatype BorrowerInfo = BorrowerInfo(
    interestIndex: D128,
    rewardIndex: D128,
    loanAmount: nat,
    pendingRewards: D128)

  /** The market's reply to `get_epoch_state`. */
  datatype EpochReply = EpochReply(exchangeRate: D128, stableCoinTotalSupply: nat)

  datatype Contract = Contract(
    config: Config,
    state: State,
    whitelist: Whitelist,
    collaterals: map<AccountId, Tokens>)

  /** What a call reads from the NEAR runtime. */
  datatype Env = Env(
    predecessor: AccountId,
    currentAccount: AccountId,
    attachedDeposit: nat,
    blockIndex: nat,
    blockTimestamp: nat,
    accountBalance: nat)

  /** The contract's own callbacks that a promise chain resumes in. */
  datatype Callback =
    | OnPriceResponse
    | OnExecuteEpochOperations(blocks: nat, interestBuffer: nat)
    | OnUpdateEpochState(interestBuffer: nat, distributedInterest: nat, blockHeight: nat, blocks: nat)
    | OnLiquidateCollateral2(sender: AccountId, borrower: AccountId, collaterals: Tokens, prevBalance: nat)

  /** A cross-contract function call: the target account comes first. */
  datatype Call =
    | FtTransfer(token: AccountId, receiver: AccountId, amount: nat)
    | FtTransferCall(token: AccountId, receiver: AccountId, amount: nat)
    | GetDataRequest(requester: AccountId, requestId: AccountId)
    | GetEpochState(market: AccountId, blockHeight: Option<nat>, distributed: Option<nat>)
    | MarketExecuteEpochOperations(market: AccountId, depositRate: D128, targetDepositRate: D128,
                                   thresholdDepositRate: D128, distributedInterest: nat)
    | UnlockCollateral(custody: AccountId, borrower: AccountId, amount: nat)
    | LiquidateCollateral(custody: AccountId, liquidator: AccountId, borrower: AccountId, amount: nat)
    | DistributeRewards(custody: AccountId)
    | GetLiquidationAmount(liquidation: AccountId)
    | RepayStableFromLiquidation(market: AccountId, borrower: AccountId, prevBalance: nat)

  /** A promise the step creates: a lone call, or a call whose result is
      delivered to one of the contract's callbacks. */
  datatype Effect = Send(call: Call) | Chain(call: Call, callback: Callback)

  /** A successful step: the new contract and its promises in creation order. */
  datatype Step = Step(contract: Contract, effects: seq<Effect>)

  predicate OneYocto(env: Env) { env.attachedDeposit == 1 }

  predicate IsOwner(config: Config, env: Env) { env.predecessor == config.ownerId }

  /** `internal_update_price_response`: ask the requester contract for the
      current account's data request and resume in the price callback. */
  function RefreshPrice(config: Config, env: Env): Effect {
    Chain(GetDataRequest(config.requesterContract, env.currentAccount), OnPriceResponse)
  }

  /** The number of results a callback resumed by this promise receives:
      `a.then(cb)` hands `cb` exactly the one result of `a`. */
  function ResultCount(e: Effect): nat {
    match e
    case Send(_) => 0
    case Chain(_, _) => 1
  }
}
