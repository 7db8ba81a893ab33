/**
 The self-rearming price refresh of the overseer: the callback that receives
 the oracle's data-request details (contracts/overseer/src/utils.rs).
 */
module PriceFeed {
  import opened Types
  import opened FixedPoint
  import opened OverseerState

  datatype AnswerType = Number(value: nat) | Text(text: string)

  datatype Outcome = Answer(answer: AnswerType) | Invalid

  datatype RequestStatus = Pending | Finalized(outcome: Outcome)

  datatype DataRequestDetails = DataRequestDetails(status: RequestStatus)

  /** The only status that carries a price: finalized with a numeric answer. */
  predicate IsNumericAnswer(d: DataRequestDetails) {
    d.status.Finalized? && d.status.outcome.Answer? && d.status.outcome.answer.Number?
  }

  /** The paid request that keeps the refresh loop going. */
  function NewPriceRequest(config: Config): Effect {
    Send(FtTransferCall(config.oraclePaymentToken, config.requesterContract, PRICE_REQUEST_PAYMENT))
  }

  /** `callback_get_price_response`. The `#[callback]` argument is decoded
      from the `get_data_request` promise: a failed promise aborts the
      decoding, and a missing response panics; a numeric answer is recorded
      with the current block time and exactly one new paid request is issued;
      any other status changes nothing and issues nothing. */
  function CallbackGetPriceResponse(c: Contract, env: Env, result: PromiseResult<Option<DataRequestDetails>>): (r: Result<Step>)
    ensures !result.Successful? ==> r == Fail(PromiseFailed)
    ensures result.Successful? ==> (result.value.None? <==> r.Fail?)
    ensures result.Successful? && r.Fail? ==> r.error == NoResponse
    ensures r.Ok? ==> result.Successful? && result.value.Some?
    ensures r.Ok? && IsNumericAnswer(result.value.value) ==>
      && r.value.contract.state.lastPriceResponse
           == PriceResponse(D128(result.value.value.status.outcome.answer.value), env.blockTimestamp)
      && r.value.effects == [NewPriceRequest(c.config)]
    ensures r.Ok? && !IsNumericAnswer(result.value.value) ==> r.value == Step(c, [])
    ensures r.Ok? ==> r.value.contract == c.(state := r.value.contract.state)
    ensures r.Ok? ==> r.value.contract.state == c.state.(lastPriceResponse := r.value.contract.state.lastPriceResponse)
  {
    match result
    case NotReady => Fail(PromiseFailed)
    case Failed => Fail(PromiseFailed)
    case Successful(None) => Fail(NoResponse)
    case Successful(Some(details)) =>
      if IsNumericAnswer(details) then
        var number := details.status.outcome.answer.value;
        var state' := c.state.(lastPriceResponse := PriceResponse(D128(number), env.blockTimestamp));
        Ok(Step(c.(state := state'), [NewPriceRequest(c.config)]))
      else
        Ok(Step(c, []))
  }

  /** A price is recorded exactly when a paid request is issued: the refresh
      loop re-arms itself precisely on the rounds that update the price. */
  lemma PriceRecordedIffRearmed(c: Contract, env: Env, details: DataRequestDetails)
    ensures var r := CallbackGetPriceResponse(c, env, Successful(Some(details)));
      && r.Ok?
      && (|r.value.effects| == 1 <==> IsNumericAnswer(details))
      && (r.value.contract != c ==> IsNumericAnswer(details))
      && (IsNumericAnswer(details) && c.state.lastPriceResponse.lastUpdatedAt != env.blockTimestamp ==>
            r.value.contract != c)
  {
    var r := CallbackGetPriceResponse(c, env, Successful(Some(details)));
    if IsNumericAnswer(details) && c.state.lastPriceResponse.lastUpdatedAt != env.blockTimestamp {
      assert r.value.contract.state.lastPriceResponse.lastUpdatedAt == env.blockTimestamp;
    }
  }
}
