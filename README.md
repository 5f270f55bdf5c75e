# sminer accounting helpers in Dafny

A model of the miner accounting helpers of the CESS `sminer` pallet
(`pallets/sminer/src/helper.rs`), with proofs about it. The helpers keep a per-miner
record in `MinerItems` and a few companion maps: `RewardMap`, `RestoralTarget`,
`AllMiner`, `MinerPublicKey`, `ReturnStakingSchedule`, `StakingStartBlock` and
`PendingReplacements`. They:

- advance a miner's proof-of-space cursor and its idle space;
- grow and shrink service space;
- insert file hashes into, and delete them from, the miner's service filter;
- turn a round's reward share into a reward order;
- compute punishment amounts;
- remove a miner at exit and count its restored space.

Layout:

- `types.dfy` (`SminerTypes`): the records, the integer widths (`u8`, `u32`, `u64`,
  `u128` as bounded `nat`s), Perbill arithmetic (parts per billion, `mul_floor` rounding
  down) and the error kinds.
- `space.dfy` (`SpaceLedger`): the bodies of the `MinerItems` and `RestoralTarget`
  `try_mutate` closures. Each is a function from the stored value to the value written
  back, or to the error. The lemmas relate several calls.
- `bloom.dfy` (`ServiceBloom`): the service filter as a bounded set, the two hash loops,
  and their exact effect.
- `reward.dfy` (`RewardEngine`): building a reward order and admitting it into the
  miner's order list against the reward pool.
- `punish.dfy` (`Punishment`): the punishment tiers.
- `minerlist.dfy` (`MinerList`): the `retain` filter applied to `AllMiner`.
- `pallet.dfy` (`SminerPallet`): class `Pallet`, whose fields are the storage maps and the
  collaborator state. Each helper is a method that updates those fields in place:
  - It reads the stored value, works on a local copy and writes it back only on `Ok`.
  - Its postcondition ties the new storage to the closure function above, so "on error
    the record is unchanged" is part of every contract.

Collaborators outside the pallet are state or parameters:

- the reward pool is a balance field; `sub_reward` and `add_reward` are checked;
- the network's total idle space is a counter field; `sub_total_idle_space` is a checked
  subtraction;
- `Currency::unreserve` is a log of (account, amount) pairs;
- `get_reward_base` and the current block number are method parameters;
- `calculate_power`, `Perbill::from_rational`, `calculate_limit_by_space` and the
  `sha2_256` hash of a proof-of-space key are function-typed fields of a `Policy` value.
  They are not interpreted.

Two behaviours of the code that matter for callers:

- A failed insertion or deletion in `insert_service_bloom`/`delete_service_bloom`
  discards the whole filter update. The failure happens inside `try_mutate`, so no
  partially updated filter is written.
- `force_miner_exit` is not all-or-nothing at this level:
  - `AllMiner` is written before the record's `try_mutate` and stays filtered when a
    later step fails.
  - A collaborator call or a write to another map that completed before a failing step
    also stays.

## Model

| member | source | states |
|---|---|---|
| SminerTypes.WrappingAdd128 | pallets/sminer/src/helper.rs:284-285 | The unchecked `u128` sums of `force_miner_exit` equal the true sum when it fits; otherwise they equal the sum less 2^128, which is below either operand |
| SminerTypes.FromPercent | pallets/sminer/src/helper.rs:221-223 | `Perbill::from_percent(n)` is exactly n/100 of the whole, in parts per billion |
| SminerTypes.MulFloor | pallets/sminer/src/helper.rs:173-175 | `mul_floor` is the largest integer not above x·p/10^9, and never exceeds x |
| SminerTypes.MulFloorMonotonic | pallets/sminer/src/helper.rs:239-251 | A larger Perbill never yields a smaller `mul_floor` of the same amount |
| SpaceLedger.AddIdleSpace | pallets/sminer/src/helper.rs:13-44 | The closure of `add_miner_idle_space`. Errors: `NotMiner` without a record, `NotpositiveState` when not positive or without a cursor, `CountError` when `check_front` ≠ front or `rear` ≤ old rear, `Overflow` exactly when the grown total passes 2^128−1, `ExceedingDeclarationSpace` when it passes the declaration. It succeeds whenever the grown total fits the declaration. On success it returns segment size × (rear − old rear), adds exactly that to idle space, sets rear, accumulator and signature, keeps front, and leaves idle + service + lock within the declaration |
| SpaceLedger.DeleteIdleUpdateAccu | pallets/sminer/src/helper.rs:55-74 | The closure of `delete_idle_update_accu`. Errors: `NotMiner`, and `NotpositiveState` without a cursor. It succeeds iff `check_rear` equals rear and `front` > old front, and fails with `CountError` otherwise. On success it returns front − old front (positive), and changes only front, accumulator and signature |
| SpaceLedger.DeleteIdleUpdateSpace | pallets/sminer/src/helper.rs:78-84 | `NotMiner` without a record. Otherwise it succeeds iff the amount is at most idle space, and the only error is `Overflow`. On success idle space is lowered by exactly the amount and nothing else changes |
| SpaceLedger.AddServiceSpace | pallets/sminer/src/helper.rs:102-107 | The closure of `add_miner_service_space`: `ConversionError` without a record. Otherwise it succeeds iff the sum fits 128 bits, else `Overflow`. It raises only service space, by exactly the increment |
| SpaceLedger.SubServiceSpace | pallets/sminer/src/helper.rs:127-132 | The closure of `sub_miner_service_space`: `ConversionError` without a record. Otherwise it succeeds iff the increment is at most service space, else `Overflow`. It lowers only service space, by exactly the increment |
| SpaceLedger.AddRestoredSpace | pallets/sminer/src/helper.rs:301-308 | The closure of `update_restoral_target`: `NotExisted` without a target. Otherwise it succeeds iff the sum fits 128 bits, else `Overflow`. It raises restored space by exactly the amount and keeps the target's service space |
| SpaceLedger.GrowthReplayRejected | pallets/sminer/src/helper.rs:21-22 | After a successful idle growth to `rear`, any growth to a rear at or below it, the same replayed call included, fails with `CountError` |
| SpaceLedger.RetirementReplayRejected | pallets/sminer/src/helper.rs:60-61 | After a successful retirement to `front`, any retirement to a front at or below it fails with `CountError` |
| SpaceLedger.ShrinkUndoesGrowth | pallets/sminer/src/helper.rs:24-32 | Releasing exactly the bytes a growth returned succeeds and restores the original idle space |
| SpaceLedger.ServiceRoundTrip | pallets/sminer/src/helper.rs:102-132 | Subtracting the increment that was just added gives back the original record |
| SpaceLedger.ShrinksKeepDeclaration | pallets/sminer/src/helper.rs:77-85 | Lowering idle or service space keeps idle + service + lock within the declaration |
| SpaceLedger.ServiceGrowthUnbounded | pallets/sminer/src/helper.rs:102-107 | Some record within its declaration leaves it after a successful service-space increase, because growth of service space never checks the declaration |
| SpaceLedger.RetirementCanPassRear | pallets/sminer/src/helper.rs:58-63 | Some record with front ≤ rear is accepted for retirement to a front beyond its rear (20 against 10), so the cursor order is not kept |
| SpaceLedger.GrowthExample | pallets/sminer/src/helper.rs:24-31 | Committing segments 10 to 15 at 100 bytes each returns 500 and adds 500 idle bytes |
| SpaceLedger.UpdatesKeepLedger | pallets/sminer/src/helper.rs:13-74 | For any run of successful growths and retirements whose retirements stay within rear, the run keeps the declaration bound and front ≤ rear. Rear never falls, and idle space grows by exactly segment size × (new rear − old rear) |
| ServiceBloom.Insert | pallets/sminer/src/helper.rs:141 | One filter insertion succeeds iff the hash is already present or there is room, adds exactly that hash, and otherwise fails with `BloomElemPushError` |
| ServiceBloom.Delete | pallets/sminer/src/helper.rs:153 | One filter deletion succeeds iff the hash is present, removes exactly that hash, and otherwise fails with `BloomElemPushError` |
| ServiceBloom.InsertAllSpec | pallets/sminer/src/helper.rs:140-142 | A successful insertion loop adds exactly the listed hashes. It succeeds whenever the resulting set fits the capacity, and its only failure is `BloomElemPushError` |
| ServiceBloom.DeleteAllSpec | pallets/sminer/src/helper.rs:152-154 | The deletion loop succeeds iff the listed hashes are distinct members of the filter, and then removes exactly them. Its only failure is `BloomElemPushError` |
| RewardEngine.BuildOrder | pallets/sminer/src/helper.rs:172-186 | Fails (`Overflow`) iff `RELEASE_NUMBER` is 0. The order has receive count 0, max count `RELEASE_NUMBER`, is not at-once and is stamped `now`. Its reward is floor(base × share / 10^9) and its installment is floor(AOIR share of the reward / `RELEASE_NUMBER`). Installment × `RELEASE_NUMBER` ≤ reward ≤ base |
| RewardEngine.AdmitOrder | pallets/sminer/src/helper.rs:189-204 | `Unexpected` without a reward record. A list already holding `RELEASE_NUMBER` orders changes neither record nor pool. Otherwise: `Overflow` when the total would pass 128 bits, `BoundedVecError` when the list is at its bound, and success iff the pool covers the reward. On success exactly the order is appended, the total rises and the pool falls by the order's reward. Total + pool is conserved |
| RewardEngine.SettleRoundsKeepLedger | pallets/sminer/src/helper.rs:189-204 | Over any run of successful rounds, total + pool is conserved and the issued amount is unchanged. The old order list is a prefix of the new one, and a list that starts within `RELEASE_NUMBER` entries stays within it |
| Punishment.Limit | pallets/sminer/src/helper.rs:210-212 | The limit is the policy's limit for the miner's power: its error is passed on, and a limit beyond 128 bits is `Overflow` |
| Punishment.ClearPunishAmount | pallets/sminer/src/helper.rs:216-227 | 100 whenever nothing has been earned. Otherwise 0 at count 1, floor(limit/20) at count 2, floor(3·limit/20) at every other count (0 included), and never above the limit |
| Punishment.ClearPunishEscalates | pallets/sminer/src/helper.rs:219-224 | For a miner with earnings, a later count from 1 on is never charged less |
| Punishment.ClearPunish | pallets/sminer/src/helper.rs:209-229 | Errors: the limit's error, else `NotMiner` without a reward record. Otherwise it succeeds with the tier amount above for the recorded total reward |
| Punishment.IdlePunish | pallets/sminer/src/helper.rs:234-244 | Fails iff the limit fails, with its error. Otherwise it charges floor(limit × `IDLE_PUNI_MUTI` / 10^9), at most the limit |
| Punishment.ServicePunish | pallets/sminer/src/helper.rs:246-256 | Fails iff the limit fails, with its error. Otherwise it charges floor(limit × `SERVICE_PUNI_MUTI` / 10^9), at most the limit |
| Punishment.PunishOrderedByRatio | pallets/sminer/src/helper.rs:239-251 | With an idle ratio at most the service ratio, the idle punishment never exceeds the service punishment |
| MinerList.Without | pallets/sminer/src/helper.rs:260 | The filtered list does not hold the account, holds every other entry of the list and nothing else, is no longer than the list, and is the list itself when the account was absent |
| MinerList.Retain | pallets/sminer/src/helper.rs:259-261 | The `retain` loop over `AllMiner` yields exactly the list without the account, other entries in order |
| SminerPallet.Pallet.AddMinerIdleSpace | pallets/sminer/src/helper.rs:6-46 | On success the record becomes what `AddIdleSpace` yields and the added bytes are returned. On error `MinerItems` is unchanged and the error is the closure's |
| SminerPallet.Pallet.DeleteIdleUpdateAccu | pallets/sminer/src/helper.rs:48-75 | On success the record becomes what `DeleteIdleUpdateAccu` yields and the retired count is returned. On error `MinerItems` is unchanged |
| SminerPallet.Pallet.DeleteIdleUpdateSpace | pallets/sminer/src/helper.rs:77-85 | On success the record becomes what `DeleteIdleUpdateSpace` yields. On error `MinerItems` is unchanged |
| SminerPallet.Pallet.AddMinerServiceSpace | pallets/sminer/src/helper.rs:92-110 | `Ok` with nothing changed for an unknown account or one in the exit state. Otherwise the record becomes what `AddServiceSpace` yields, or is unchanged on `Overflow` |
| SminerPallet.Pallet.SubMinerServiceSpace | pallets/sminer/src/helper.rs:117-135 | `Ok` with nothing changed for an unknown account or one in the exit state. Otherwise the record becomes what `SubServiceSpace` yields, or is unchanged on `Overflow` |
| SminerPallet.Pallet.InsertServiceBloom | pallets/sminer/src/helper.rs:137-147 | `NotMiner` for an unknown account. The insertion loop over the stored filter either writes back the filter `InsertAll` yields, with the rest of the record kept, or fails with `BloomElemPushError` and `MinerItems` unchanged |
| SminerPallet.Pallet.DeleteServiceBloom | pallets/sminer/src/helper.rs:149-159 | `NotMiner` for an unknown account. The deletion loop either writes back the filter `DeleteAll` yields, with the rest of the record kept, or fails with `BloomElemPushError` and `MinerItems` unchanged |
| SminerPallet.Pallet.CalculateMinerReward | pallets/sminer/src/helper.rs:161-207 | The order is `BuildOrder` of the miner's power share. `RewardMap` and the pool become what `AdmitOrder` yields for the stored record. On any error both are unchanged |
| SminerPallet.SettleCollateral | pallets/sminer/src/helper.rs:265-283 | Without a reward record: success, nothing changes. Nothing earned: success, the collateral is unreserved once. With earnings nothing is unreserved, and the step succeeds iff issued ≤ total, the unpaid rest fits in the pool, a staking start block exists, start + `StakingLockBlock` fits in 32 bits and that bucket has room. Errors in order: `Overflow` (issued > total or pool overflow, pool unchanged), then, with the unpaid rest already credited to the pool, `BugInvalid`, `Overflow` for the release block, `BoundedVecError` for a full bucket. On error the schedule and unreserve log are unchanged; on success the collateral is appended to the release bucket |
| SminerPallet.CloseStep | pallets/sminer/src/helper.rs:284-291 | Succeeds iff the wrapped sum idle + lock is at most the network idle total and the record has a cursor. Otherwise `Overflow` with nothing changed, or `NotpositiveState` after the total has lost the wrapped sum idle + lock and a restoral target of the wrapped sum service + lock has been created. On error the record and key registry are unchanged; on success the record is offline and its key hash is removed |
| SminerPallet.Pallet.ReleaseCollateral | pallets/sminer/src/helper.rs:265-283 | The verdict, unreserve log, reward pool and release schedule after the step are exactly those `SettleCollateral` gives for the stored reward record and staking start block |
| SminerPallet.Pallet.CloseRecord | pallets/sminer/src/helper.rs:284-291 | The verdict, `MinerItems`, `MinerPublicKey`, `RestoralTarget` and network idle total after the step are exactly those `CloseStep` gives |
| SminerPallet.Pallet.ExitRecord | pallets/sminer/src/helper.rs:263-297 | `Unexpected` with no effect for an unknown account. Otherwise the collateral step as `SettleCollateral` gives it; if that fails, its error and nothing else changed; if not, the closing step as `CloseStep` gives it, and the reward record and pending replacement are removed exactly when that succeeds. Effects of completed steps stay after a later failure |
| SminerPallet.Pallet.ForceMinerExit | pallets/sminer/src/helper.rs:258-298 | `AllMiner` always loses the account, with other entries kept in order, even when the call fails. Everything else is as for `ExitRecord`. A known miner leaves iff its collateral can be settled, the wrapped sum idle + lock fits in the network total, and it has a cursor |
| SminerPallet.Pallet.UpdateRestoralTarget | pallets/sminer/src/helper.rs:300-309 | The target becomes what `AddRestoredSpace` yields, or is unchanged on `NotExisted`/`Overflow` |

## Left out

- `calculate_power`, `Perbill::from_rational` and `calculate_limit_by_space` are not part of this model. They are uninterpreted functions of a `Policy` value. The only assumption is that the ratio is at most 10^9 parts, and the limit may fail with any error.
- `deposit_punish` is not part of this model. The punishment functions compute the amount the helpers pass to it; its effect and its own errors are left out.
- `check_state` and `str_to_bound` are not part of this model. They are taken to succeed: the stored state is read directly and set to the offline string directly.
- `create_restoral_target` is not part of this model. It is taken to insert a target with the given service space and no restored space, overwriting any earlier target, and never to fail.
- The service filter's own `insert`/`delete` are not part of this model. The filter is a set of hashes with a capacity. Insertion fails only when a new hash finds the set full, and deletion fails only when the hash is absent. Hash collisions and false positives are not modelled.
- Reward pool, `StorageHandle` and `Currency` are modelled only as a balance, a counter and a log. `sub_reward` refusing an amount above the pool is modelled as `Overflow`, and `add_reward` fails only beyond 128 bits. Other failure modes are left out.
- `sha2_256` of the SCALE encoding of a proof-of-space key is an uninterpreted function of the key.
- The substrate transactional layer around an extrinsic is left out. Effects that the helpers themselves do not roll back are kept after a failure, as `ForceMinerExit` states.
- The state strings' byte values ("positive", "exit", "offline") stand for the pallet's constants, whose definitions are not part of this model. Only their distinctness matters.
- The block number is taken to be 32 bits wide. The `order_list` bound, the `ReturnStakingSchedule` bucket bound, `IDLE_SEG_SIZE`, `RELEASE_NUMBER`, `AOIR_PERCENT`, `IDLE_PUNI_MUTI`, `SERVICE_PUNI_MUTI` and `StakingLockBlock` are parameters, not fixed values.
- Conversions between `u128` and the balance type that cannot fail when both are 128 bits are treated as the identity.
- `standalone/teeworker/cifrost/src/error.rs` defines error strings only and has no behaviour to model.
