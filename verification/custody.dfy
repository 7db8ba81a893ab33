/**
 The reward callbacks of the bNEAR custody contract
 (contracts/custody_bnear/src/utils.rs): swap accrued rewards once they reach
 a threshold, and forward the swapped stable coins to the overseer.
 */
module Custody {
  import opened Types

  datatype Config = Config(overseerContract: AccountId, stableCoinContract: AccountId)

  /** The custody contract's outgoing actions. `swap_to_stable_denom` is not
      part of this model and stands as one opaque action. */
  datatype Action =
    | SwapToStableDenom
    | FtTransfer(token: AccountId, receiver: AccountId, amount: nat)

  /** `callback_distribute_rewards`: a failed reward query aborts; rewards
      below the threshold return without swapping; otherwise exactly one swap. */
  function CallbackDistributeRewards(rewardsThreshold: nat, accrued: PromiseResult<nat>): (r: Result<seq<Action>>)
    ensures !accrued.Successful? <==> r.Fail?
    ensures r.Fail? ==> r.error == PromiseFailed
    ensures r.Ok? ==> (r.value == [] <==> accrued.value < rewardsThreshold)
    ensures r.Ok? && accrued.value >= rewardsThreshold ==> r.value == [SwapToStableDenom]
  {
    if !accrued.Successful? then Fail(PromiseFailed)
    else if accrued.value < rewardsThreshold then Ok([])
    else Ok([SwapToStableDenom])
  }

  function Forwarded(actions: seq<Action>, token: AccountId, receiver: AccountId): nat {
    if actions == [] then 0
    else (if actions[0].FtTransfer? && actions[0].token == token && actions[0].receiver == receiver
          then actions[0].amount else 0)
         + Forwarded(actions[1..], token, receiver)
  }

  /** `callback_distribute_hook`: a failed swap aborts; a zero reward issues
      nothing; a nonzero reward issues exactly one stable-coin transfer of it
      to the overseer. */
  function CallbackDistributeHook(config: Config, rewardAmount: PromiseResult<nat>): (r: Result<seq<Action>>)
    ensures !rewardAmount.Successful? <==> r.Fail?
    ensures r.Fail? ==> r.error == PromiseFailed
    ensures r.Ok? ==> (r.value == [] <==> rewardAmount.value == 0)
    ensures r.Ok? && rewardAmount.value != 0 ==>
      r.value == [FtTransfer(config.stableCoinContract, config.overseerContract, rewardAmount.value)]
  {
    if !rewardAmount.Successful? then Fail(PromiseFailed)
    else if rewardAmount.value == 0 then Ok([])
    else Ok([FtTransfer(config.stableCoinContract, config.overseerContract, rewardAmount.value)])
  }

  /** Every swapped reward reaches the overseer: the hook forwards exactly the
      reward amount, nothing to anyone else. */
  lemma HookForwardsAllRewards(config: Config, amount: nat, token: AccountId, receiver: AccountId)
    ensures var actions := CallbackDistributeHook(config, Successful(amount)).value;
      Forwarded(actions, token, receiver)
        == if token == config.stableCoinContract && receiver == config.overseerContract then amount else 0
  {
    var actions := CallbackDistributeHook(config, Successful(amount)).value;
    if actions != [] {
      assert actions[1..] == [];
    }
  }

  /** The swap gate is monotone: a reward that triggers a swap under one
      threshold triggers it under every lower threshold. */
  lemma SwapGateMonotone(low: nat, high: nat, accrued: nat)
    requires low <= high
    ensures CallbackDistributeRewards(high, Successful(accrued)).value == [SwapToStableDenom] ==>
            CallbackDistributeRewards(low, Successful(accrued)).value == [SwapToStableDenom]
  {
  }
}
