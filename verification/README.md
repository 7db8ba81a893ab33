# Money-market overseer: a Dafny model of its decision logic

This project models the orchestration core of a NEAR money market. The
**overseer** contract coordinates a market (the debt ledger), one custody
contract per collateral token, a liquidation contract, a stable-coin
fungible-token contract and a price oracle. Every cross-contract action is a
one-way promise. Its result is only seen later, in a callback.

Each entry point and callback is a pure step function. A step takes an
explicit record (`Contract` = configuration, settlement state, collateral
whitelist, borrower collateral snapshots), the runtime facts it reads (`Env`:
predecessor, attached deposit, block height, timestamp, account balance) and
the decoded promise results. It returns either `Fail(error)` or a `Step`: the
new record plus the promises it created, in creation order. A NEAR panic
discards the whole receipt, so a failing step never carries effects.

Modules:

- `Types`: account ids, errors, `Result`, promise results, checked subtraction.
- `FixedPoint`: the `D128` decimal as an integer mantissa over an unspecified
  positive scale. Division and rescaling truncate toward zero.
- `OverseerState`: the records, the runtime environment, calls, callbacks and effects.
- `PriceFeed`: the oracle callback that records a price and re-arms the refresh loop.
- `Admin`: construction, `register_whitelist`, `update_whitelist`, `update_config`.
- `Epoch`: the epoch gate, the settlement arithmetic (deposit rate, buy-back,
  deposit subsidy, reward fan-out), the second leg and the commit.
- `Collateral`: the unlock and liquidation callbacks.
- `Liquidation`: `execute_bid` of the liquidation contract.
- `Custody`: the reward callbacks of the bNEAR custody contract.
- `Interleaving`: properties that relate several workflows.

Modelling choices:

- `D128` is signed, so the deposit rate may go negative when the exchange
  rate falls. Every conversion of a fixed-point value back to a token balance
  fails when the value is negative.
- Token amounts and heights are unbounded naturals. Every subtraction is
  checked: an underflow is a failure (`ArithmeticFault`), as with Rust's
  overflow checks. Division by zero is a failure as well.
- `Env.accountBalance` is the overseer's native NEAR balance (`env::account_balance()`).
  `execute_epoch_operations` passes it as the interest buffer (lib.rs:188).
  The settlement pays that buffer out as `ft_transfer`s on the stable-coin
  contract (utils.rs:336-343, 367-374), and the model does the same. So
  `Epoch.SettleConservesBuffer` is arithmetic on the buffer figure: it does
  not show that any single asset is conserved, because the two units differ.
- The whitelist keeps its keys in insertion order, as the unordered map
  iterates them. So the reward fan-out has a defined order.
- Points where the code departs from what its names suggest, all modelled as
  the code does it:
  - `execute_epoch_operations` has no owner check.
  - `callback_liquidate_collateral2` issues no per-token seizure.
  - `update_config` can override only eight of the configuration's fields.

## Model

| member | source | states |
|---|---|---|
| PriceFeed.CallbackGetPriceResponse | contracts/overseer/src/utils.rs:149-167 | A failed `get_data_request` promise fails before decoding, and a missing response fails. Only a finalized numeric answer changes state: the recorded price becomes that number at the current block time, and exactly one paid request (10^24 payment-token units to the requester) is issued. Every other status changes nothing and issues nothing. Nothing but the recorded price ever changes. |
| PriceFeed.PriceRecordedIffRearmed | contracts/overseer/src/utils.rs:154-165 | A promise is issued exactly when the answer is numeric. The contract changes only for a numeric answer, and it does change whenever the timestamp differs. |
| Admin.InitialState | contracts/overseer/src/lib.rs:101-111 | Deposit rate 0, previous supply 0, last height 0, previous exchange rate 1, previous buffer 0, price 1 stamped with the construction time. |
| Admin.New | contracts/overseer/src/lib.rs:78-126 | Fails if state already exists, then if the owner id is invalid. Otherwise it stores the given configuration, the initial state and empty collections, and issues one price refresh. |
| Admin.RegisterWhitelist | contracts/overseer/src/lib.rs:138-150 | Requires one yocto, then the owner. The entry for the token becomes exactly the given name, symbol, custody contract and max LTV. Every other entry and record is unchanged, and one price refresh is issued. |
| OverseerState.Whitelist.Insert | contracts/overseer/src/lib.rs:142-150 | Keeps the whitelist well formed. The token's entry becomes the given one and every other entry is kept. An existing key keeps its place in the iteration order, and a new key is appended at the end. |
| Admin.UpdatedElem | contracts/overseer/src/lib.rs:163-171 | Name and symbol are kept. Each `Some` override replaces its field and each `None` keeps it. |
| Admin.UpdateWhitelist | contracts/overseer/src/lib.rs:154-174 | Requires one yocto, the owner and an existing entry. The entry is rewritten in place with the overrides, the key order and all other records are unchanged, and one price refresh is issued. |
| Admin.UpdateWhitelistNoOverrides | contracts/overseer/src/lib.rs:163-173 | With both overrides absent, the contract is unchanged. |
| Admin.UpdateWhitelistIdempotent | contracts/overseer/src/lib.rs:163-173 | Applying the same whitelist update twice leaves the same contract as applying it once. |
| Admin.UpdateConfig | contracts/overseer/src/owner.rs:6-43 | The owner is checked before the one-yocto deposit. Each `Some` field becomes its value and each `None` field keeps its old value. Owner, stable coin, threshold rate and both factors never change, and no promise is issued. |
| Admin.UpdateConfigIdempotent | contracts/overseer/src/owner.rs:19-42 | Applying the same update twice gives the same contract as applying it once. |
| Admin.UpdateConfigEmpty | contracts/overseer/src/owner.rs:19-42 | An update with every field absent leaves the contract unchanged. |
| Epoch.ExecuteEpochOperations | contracts/overseer/src/lib.rs:177-204 | Requires one yocto. With it, the call fails with `EpochNotPassed` if and only if `height < last_executed_height + epoch_period`. On success the state is unchanged, `blocks >= epoch_period`, and the call issues a price refresh plus one `get_epoch_state(height)` chained to the settlement callback with `blocks = height - last_executed_height` and the account balance. |
| Epoch.EpochGateIgnoresCaller | contracts/overseer/src/lib.rs:177-183 | The gate has no owner check: its result does not depend on the predecessor. |
| Epoch.GateGuaranteesRate | contracts/overseer/src/lib.rs:181-186 | With a nonzero epoch period and previous exchange rate, a round that passes the gate always has a defined deposit rate. |
| Epoch.DepositRate | contracts/overseer/src/utils.rs:328-329 | `(exchange_rate / prev_exchange_rate - 1) / blocks` fails if and only if the previous rate or the block count is zero. |
| Epoch.DepositRateSign | contracts/overseer/src/utils.rs:328-329 | The deposit rate has the sign of the exchange-rate drift, and it is zero when the rate is unchanged. |
| Epoch.DistributeCalls | contracts/overseer/src/utils.rs:378-384 | One `distribute_rewards` per whitelist key, in iteration order, each to that entry's custody contract. |
| Epoch.MissingDeposits | contracts/overseer/src/utils.rs:351-356 | The missing deposits are a valid balance whenever the previous exchange rate is nonnegative and the rate is at most the threshold. They are zero when no block elapsed or the rate equals the threshold. |
| Epoch.Settle | contracts/overseer/src/utils.rs:324-384 | Fails when the previous rate or block count is zero, or when the buffer shrank since the last round. The buy-back is `floor(accrued * anc_purchase_factor)`, sent to the collector if and only if it is nonzero. At or above the threshold rate the subsidy is 0. Below it, the subsidy is `min(missing_deposits, floor(factor * buffer))`, sent to the market if and only if it is nonzero. The subsidy never exceeds the buffer left after the buy-back. The forwarded buffer is the input minus both amounts. After the transfers comes one reward distribution per whitelist entry. |
| Epoch.SettleConservesBuffer | contracts/overseer/src/utils.rs:331-376 | The amounts the transfers send, plus the forwarded buffer, equal the `interest_buffer` argument. That argument is a native-balance figure; see Modelling choices. |
| Epoch.SettleTotalOnSaneInputs | contracts/overseer/src/utils.rs:328-363 | Settlement cannot fail on arithmetic when all of these hold: the previous rate is positive, blocks have elapsed, the buffer did not shrink, and both factors are in [0, 1]. |
| Epoch.InternalUpdateEpochState | contracts/overseer/src/lib.rs:212-230 | Fails only when the height is below the last executed height. Otherwise it changes nothing and issues a price refresh and `get_epoch_state(height, distributed)` chained to the commit. The chained callback receives the current height and `blocks = height - last_executed_height` unchanged. |
| Epoch.UpdateEpochState | contracts/overseer/src/lib.rs:207-231 | Requires one yocto, then the owner, then runs the second leg. |
| Epoch.SettleReply | contracts/overseer/src/utils.rs:318-325 | A failed or unready market reply fails. Otherwise the result is the settlement of the reply. |
| Epoch.CallbackExecuteEpochOperationsAsWritten | contracts/overseer/src/utils.rs:316-387 | Can succeed only if the callback's own receipt carries one yocto and the owner as predecessor. |
| Epoch.EpochCallbackAlwaysAbortsAsWritten | contracts/overseer/src/utils.rs:386 | With no attached deposit, which is how the callback is dispatched, every settlement round fails. After a successful settlement it fails with `RequiresOneYocto`. |
| Epoch.CallbackExecuteEpochOperations | contracts/overseer/src/utils.rs:316-387 | A failed reply fails. The callback succeeds if and only if the settlement succeeds and the height has not gone back. It issues the settlement's promises, then the second leg carrying the remaining buffer and the distributed amount. The state is unchanged. |
| Epoch.CallbackUpdateEpochState | contracts/overseer/src/utils.rs:399-427 | A failed reply fails before any change. Otherwise it sets last height, previous supply, previous exchange rate, previous buffer and deposit rate from its arguments and the reply, and keeps the recorded price. It issues one `execute_epoch_operations` carrying the configured target and threshold rates and the distributed amount. |
| Epoch.CommitSetsNextBaseline | contracts/overseer/src/utils.rs:410-417 | After a commit, the next round measures drift against the committed exchange rate. An unchanged rate gives a zero deposit rate. |
| Epoch.SettlementRoundCommits | contracts/overseer/src/lib.rs:185-230 | Whenever the settlement succeeds and the second leg runs no earlier than the gate, a whole round with the corrected first callback commits the second leg's height (strictly above the previous one, by the gate) and the buffer the settlement left, and passes on the distributed amount. |
| Collateral.UnlockCalls | contracts/overseer/src/utils.rs:193-204 | Fails if and only if some token has no whitelist entry. Otherwise it issues exactly one `unlock_collateral(borrower, amount)` per snapshot entry, in order, to that token's custody contract. |
| Collateral.CallbackUnlockCollateral | contracts/overseer/src/utils.rs:177-206 | A failed reply fails. `borrow_limit < loan_amount` fails with `UnlockTooLarge` and leaves the collateral map untouched. Otherwise the borrower's snapshot becomes the given collaterals, every other record is unchanged, and the unlock calls are issued. |
| Collateral.UnlockCallsCarrySnapshot | contracts/overseer/src/utils.rs:191-204 | The unlock calls carry, in total, exactly the amounts of the committed snapshot. The same list is stored as the borrower's remaining snapshot and sent as the amounts to release; the code that supplies it is in `collateral.rs`, which is not part of this model. |
| Collateral.CallbackLiquidateCollateral | contracts/overseer/src/utils.rs:217-254 | Either failed result fails. With both successful, the call fails with `CannotLiquidationSafeLoan` if and only if `borrow_limit >= loan_amount`. Otherwise nothing changes and exactly one `get_liquidation_amount` is chained to the second callback with the predecessor, borrower, snapshot and balance. |
| Collateral.CallbackLiquidateCollateral2AsWritten | contracts/overseer/src/utils.rs:268-305 | Fails unless it receives exactly two promise results with the first successful. |
| Collateral.CallbackLiquidateCollateral2 | contracts/overseer/src/utils.rs:270-305 | With its single result, it commits exactly when that result succeeded and subtracting the hard-coded placeholder from the snapshot succeeded; a failed subtraction aborts with its error. On success the borrower's snapshot becomes the snapshot minus the placeholder, and every other borrower and record is unchanged. The only promise is `repay_stable_from_liquidation(borrower, prev_balance)`. No custody `liquidate_collateral` is issued. |
| Collateral.LiquidationChainAbortsAsWritten | contracts/overseer/src/utils.rs:241-268 | The second callback receives the one result its chain delivers. As written it always fails, while the corrected callback commits whenever that result and the subtraction succeed. |
| Liquidation.EffectivePremium | contracts/liquidation/src/lib.rs:93 | The effective premium never exceeds the maximum premium or the bid's own premium. |
| Liquidation.RequiredStable | contracts/liquidation/src/lib.rs:92-94 | A defined requirement implies a nonnegative collateral value. With a nonnegative price and an effective premium in [0, 1], the requirement is defined and never exceeds the collateral value. |
| Liquidation.ExecuteBid | contracts/liquidation/src/lib.rs:76-117 | A missing bid fails. `required_stable > bid.amount` fails with `InsufficientBidBalance`. The collateral value is `price * amount`, and `required = (1 - min(premium, max)) * value`. A bid equal to the requirement is removed; otherwise it is stored with `amount - required` and the same premium. The fee split satisfies `fee + repay == required` and `repay <= required`. |
| Liquidation.ExecuteBidConservesBid | contracts/liquidation/src/lib.rs:100-111 | The remaining bid plus the required stable equals the old bid, and every other bid is untouched. |
| Liquidation.ExecuteBidArithmeticSafe | contracts/liquidation/src/lib.rs:92-114 | With a nonnegative price and fee and premium in [0, 1], the execution succeeds if and only if the bid covers the requirement. |
| Liquidation.HigherPremiumPaysLess | contracts/liquidation/src/lib.rs:92-94 | With a nonnegative price, a nonnegative premium and a maximum premium of at most 1, both requirements are defined, and a higher premium never requires more stable coins. |
| Custody.CallbackDistributeRewards | contracts/custody_bnear/src/utils.rs:33-51 | A failed reply fails. Rewards below the threshold return without swapping. At or above it, exactly one swap is issued. |
| Custody.CallbackDistributeHook | contracts/custody_bnear/src/utils.rs:53-76 | A failed reply fails. A zero reward issues nothing. A nonzero reward issues exactly one stable-coin `ft_transfer` of that amount to the overseer. |
| Custody.HookForwardsAllRewards | contracts/custody_bnear/src/utils.rs:64-73 | The hook forwards exactly the reward amount to the overseer in the stable coin, and nothing to anyone else. |
| Custody.SwapGateMonotone | contracts/custody_bnear/src/utils.rs:44-48 | A reward that triggers a swap under one threshold triggers it under any lower threshold. |
| Interleaving.PriceRefreshCommutesWithCommit | contracts/overseer/src/utils.rs:401-427 | The price callback and the settlement commit write disjoint fields. In either order both succeed and give the same contract. |
| Interleaving.FirstEpochGate | contracts/overseer/src/lib.rs:101-111 | A fresh overseer's first settlement passes the gate if and only if the height has reached one epoch period, and it then covers every block since height 0. |
| Interleaving.FirstSettlementBaseline | contracts/overseer/src/lib.rs:101-111 | A fresh overseer's first settlement always has a defined rate. The whole balance counts as accrued buffer, and an exchange rate of 1.0 gives a zero deposit rate. |

## Left out

- NEAR promise plumbing is left out: gas, JSON decoding, and `NotReady` as a separate case (it fails like `Failed`). Callbacks receive decoded results.
- The `promise_results_count` assertions are left out except the one in `callback_liquidate_collateral2` (utils.rs:268). That one is modelled because its chain (utils.rs:241-254) is part of this model and delivers one result. The other callbacks are assumed to receive exactly the count they assert:
  - `callback_unlock_collateral` asserts 1 (utils.rs:177).
  - `callback_liquidate_collateral` asserts 2 (utils.rs:217).
  - The custody callbacks assert 1 each (custody_bnear/src/utils.rs:34, 54).

  Their chains are in `collateral.rs` and the custody contract's distribute code, which are not part of this model. Each of these callbacks takes one parameter per asserted result.
- `#[private]` (the predecessor must be the contract itself) is left out. Every modelled callback is assumed to be dispatched by its own contract. For the epoch and price callbacks the dispatching code is part of this model and does so. For the unlock, liquidation and custody callbacks it is not part of this model.
- Integer widths are only partly modelled: `u128`/`u64` overflow on addition and multiplication (for example `last_executed_height + epoch_period`) and `D128` overflow are not modelled. Only subtraction underflow, division by zero and negative balances fail.
- The scale of `D128` (the crate's `DECIMAL`) is left out because `math.rs` is not part of this model. No lemma depends on its value.
- Collateral.CallbackLiquidateCollateral2: `TokensMath::sub` (`tokens.rs`) is not part of this model. It is a parameter that may fail, and the model does not say when it fails. Snapshots are written by flows that are not part of this model, and `register_whitelist` accepts any token id. So nothing here decides whether a snapshot can hold the placeholder's empty denom, nor whether the real subtraction panics on it.
- `add_collateral_map` is assumed to overwrite the borrower's snapshot.
- `get_white_list_elem_map` is assumed to fail on a missing entry.
- `add_white_list_elem_map` is assumed to insert or replace the entry, keeping the unordered map's iteration order.
- `internal_get_bid` is assumed to fail on a missing bid.
- `internal_remove_bid` and `internal_store_bid` are assumed to remove and write the liquidator's bid. They are called from `execute_bid`, whose receiver is `&self` (liquidation/src/lib.rs:77), which cannot write the bid map, so this is an assumption about helpers that are not part of this model.
- `query_price` of the liquidation contract, including its staleness check, is a parameter: the price is taken as already validated.
- `swap_to_stable_denom` is an opaque action.
- `env::is_valid_account_id` is a parameter.
- `env::state_exists` is a parameter.
- The price request's JSON body and gas are left out. The request is modelled as a promise to the requester contract; its payment amount is kept.
- The sources of unlock and liquidation (`collateral.rs`) and the borrower views are not part of this model, nor are the view files and tests.
- `lock_collateral` is left out because it is not issued by any modelled step.
- `execute_bid`'s cross-contract transfers are still a TODO in the source and issue nothing. Its `repay_address` and `fee_address` are unused.
- Method visibility is left out. The overseer callbacks other than the price callback, and both custody callbacks (custody_bnear/src/utils.rs:33, 53), are non-`pub` `fn`s in a `#[near_bindgen]` impl block, which the binding generator does not export. The model treats them as invocable.
- Epoch.CallbackExecuteEpochOperationsAsWritten: only its success condition is stated, because as written it cannot succeed under the deposit it is dispatched with. The corrected member carries the full contract.
- Collateral.CallbackLiquidateCollateral2AsWritten: only its result-count check is stated. The corrected member carries the full contract.

## Findings

| source | as written | input that shows it | evidently intended | confidence | as-written member | corrected member |
|---|---|---|---|---|---|---|
| contracts/overseer/src/utils.rs:386 | The settlement callback calls the public `update_epoch_state`. That method asserts an attached deposit of exactly one yocto (lib.rs:208) and the owner as predecessor (lib.rs:210). The callback itself is dispatched by the contract with no deposit (lib.rs:197-202). | Any successful `get_epoch_state` reply whose settlement arithmetic succeeds: the callback fails with the one-yocto assertion. None of its transfers, reward distributions or second-leg promises survive. | Start the second leg directly, without the caller checks that only make sense for an external call. | high (not executed) | Epoch.CallbackExecuteEpochOperationsAsWritten | Epoch.CallbackExecuteEpochOperations |
| contracts/overseer/src/utils.rs:268 | `callback_liquidate_collateral2` asserts two promise results. It is chained behind the single `get_liquidation_amount` call (utils.rs:241-254), so it receives one. | Any liquidation of a loan above its borrow limit: the second callback receives one result and fails. | Expect the one result of its chain. | high (not executed) | Collateral.CallbackLiquidateCollateral2AsWritten | Collateral.CallbackLiquidateCollateral2 |
