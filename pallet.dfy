/**
 * The storage of the sminer pallet that the helpers touch, and the helpers that change
 * it. Each `try_mutate` is a method that works on a copy of the stored value and writes
 * it back only when the closure ends in `Ok`; its contract ties the new storage to the
 * closure functions of SpaceLedger, ServiceBloom and RewardEngine.
 *
 * Collaborators outside the pallet are kept as plain state: the reward pool as a
 * balance, the network's total idle space as a counter, and `Currency::unreserve` as a
 * log of the (account, amount) pairs released.
 */
module SminerPallet {
  import opened SminerTypes
  import opened SpaceLedger
  import opened ServiceBloom
  import opened RewardEngine
  import opened MinerList

  /** The stored value under a key, as `try_mutate` hands it to its closure. */
  function Get<K, V>(m: map<K, V>, k: K): (r: Option<V>)
    ensures r.Some? <==> k in m
    ensures r.Some? ==> r.value == m[k]
  {
    if k in m then Some(m[k]) else None
  }

  /** A `ReturnStakingSchedule` bucket; an absent block reads as an empty list. */
  function Bucket(schedule: map<BlockNumber, seq<(AccountId, Balance)>>, block: BlockNumber): (r: seq<(AccountId, Balance)>)
    ensures block in schedule ==> r == schedule[block]
    ensures block !in schedule ==> r == []
  {
    if block in schedule then schedule[block] else []
  }

  /** What the collateral step of `force_miner_exit` leaves behind: its verdict, the
   *  unreserve log, the reward pool and the release schedule. */
  datatype Settlement = Settlement(result: Result<()>, unreserved: seq<(AccountId, Balance)>, pool: Balance,
                                   schedule: map<BlockNumber, seq<(AccountId, Balance)>>)

  /**
   * The collateral step can complete: with earnings, the issued reward does not exceed
   * the total, the unpaid rest fits in the pool, the miner has a staking start block,
   * the release block fits in 32 bits and its bucket has room.
   */
  predicate CollateralReleasable(acc: AccountId, rewardMap: map<AccountId, RewardInfo>,
                                 stakingStartBlock: map<AccountId, BlockNumber>, lockBlocks: BlockNumber,
                                 scheduleBound: nat, pool: Balance,
                                 schedule: map<BlockNumber, seq<(AccountId, Balance)>>)
  {
    acc in rewardMap && rewardMap[acc].totalReward != 0 ==>
      var info := rewardMap[acc];
      && info.rewardIssued <= info.totalReward
      && pool + (info.totalReward - info.rewardIssued) <= U128_MAX
      && acc in stakingStartBlock
      && stakingStartBlock[acc] + lockBlocks <= U32_MAX
      && |Bucket(schedule, stakingStartBlock[acc] + lockBlocks)| < scheduleBound
  }

  /**
   * The collateral step of `force_miner_exit` (helper.rs:265-283): nothing without a
   * reward record; an immediate unreserve of the collateral when nothing was earned;
   * otherwise the unpaid reward goes back to the pool and the collateral is queued at the
   * block the staking lock ends. A failure after `add_reward` keeps the pool's credit.
   */
  function SettleCollateral(acc: AccountId, m: MinerInfo, rewardMap: map<AccountId, RewardInfo>,
                            stakingStartBlock: map<AccountId, BlockNumber>, lockBlocks: BlockNumber,
                            scheduleBound: nat, unreserved: seq<(AccountId, Balance)>, pool: Balance,
                            schedule: map<BlockNumber, seq<(AccountId, Balance)>>): (s: Settlement)
    ensures s.result.Ok? <==>
      CollateralReleasable(acc, rewardMap, stakingStartBlock, lockBlocks, scheduleBound, pool, schedule)
    ensures s.result.Err? ==> s.unreserved == unreserved && s.schedule == schedule
    ensures acc !in rewardMap ==> s == Settlement(Ok(()), unreserved, pool, schedule)
    ensures acc in rewardMap && rewardMap[acc].totalReward == 0 ==>
      s == Settlement(Ok(()), unreserved + [(m.stakingAccount, m.collaterals)], pool, schedule)
    ensures acc in rewardMap && rewardMap[acc].totalReward != 0 ==>
      var info := rewardMap[acc];
      && s.unreserved == unreserved
      && (info.rewardIssued > info.totalReward ==> s.result == Err(Overflow) && s.pool == pool)
      && (info.rewardIssued <= info.totalReward ==>
            var residue := info.totalReward - info.rewardIssued;
            && (pool + residue > U128_MAX ==> s.result == Err(Overflow) && s.pool == pool)
            && (pool + residue <= U128_MAX ==>
                  && s.pool == pool + residue
                  && (acc !in stakingStartBlock ==> s.result == Err(BugInvalid))
                  && (acc in stakingStartBlock && stakingStartBlock[acc] + lockBlocks > U32_MAX ==>
                        s.result == Err(Overflow))
                  && (acc in stakingStartBlock && stakingStartBlock[acc] + lockBlocks <= U32_MAX ==>
                        var exec: BlockNumber := stakingStartBlock[acc] + lockBlocks;
                        && (|Bucket(schedule, exec)| >= scheduleBound ==> s.result == Err(BoundedVecError))
                        && (s.result.Ok? ==>
                              s.schedule == schedule[exec := Bucket(schedule, exec) + [(m.stakingAccount, m.collaterals)]]))))
  {
    if acc !in rewardMap then Settlement(Ok(()), unreserved, pool, schedule)
    else
      var info := rewardMap[acc];
      if info.totalReward == 0 then Settlement(Ok(()), unreserved + [(m.stakingAccount, m.collaterals)], pool, schedule)
      else if info.rewardIssued > info.totalReward then Settlement(Err(Overflow), unreserved, pool, schedule)
      else
        var residue := info.totalReward - info.rewardIssued;
        if pool + residue > U128_MAX then Settlement(Err(Overflow), unreserved, pool, schedule)
        else
          var credited: Balance := pool + residue;
          if acc !in stakingStartBlock then Settlement(Err(BugInvalid), unreserved, credited, schedule)
          else if stakingStartBlock[acc] + lockBlocks > U32_MAX then Settlement(Err(Overflow), unreserved, credited, schedule)
          else
            var exec: BlockNumber := stakingStartBlock[acc] + lockBlocks;
            var bucket := Bucket(schedule, exec);
            if |bucket| >= scheduleBound then Settlement(Err(BoundedVecError), unreserved, credited, schedule)
            else Settlement(Ok(()), unreserved, credited, schedule[exec := bucket + [(m.stakingAccount, m.collaterals)]])
  }

  /** What the end of the record's `try_mutate` in `force_miner_exit` leaves behind: its
   *  verdict, `MinerItems`, `MinerPublicKey`, `RestoralTarget` and the network idle total. */
  datatype Closing = Closing(result: Result<()>, minerItems: map<AccountId, MinerInfo>,
                             keys: map<KeyDigest, AccountId>, restoral: map<AccountId, RestoralTargetInfo>,
                             totalIdle: U128)

  /**
   * The end of the record's `try_mutate` in `force_miner_exit` (helper.rs:284-291): the
   * idle and lock space leave the network total, a restoral target for the service and
   * lock space is created, and the record is written back offline with its proof-of-space
   * key hash released. The sums are unchecked in the source and wrap around here. The
   * total and the restoral target stay changed when the record turns out to have no
   * cursor; the record and the key registry do not.
   */
  function CloseStep(acc: AccountId, m: MinerInfo, keyHash: PoisKey -> KeyDigest,
                     minerItems: map<AccountId, MinerInfo>, keys: map<KeyDigest, AccountId>,
                     restoral: map<AccountId, RestoralTargetInfo>, totalIdle: U128): (c: Closing)
    ensures c.result.Ok? <==> WrappingAdd128(m.idleSpace, m.lockSpace) <= totalIdle && m.spaceProofInfo.Some?
    ensures WrappingAdd128(m.idleSpace, m.lockSpace) > totalIdle ==>
      c == Closing(Err(Overflow), minerItems, keys, restoral, totalIdle)
    ensures WrappingAdd128(m.idleSpace, m.lockSpace) <= totalIdle ==>
      && c.totalIdle + WrappingAdd128(m.idleSpace, m.lockSpace) == totalIdle
      && c.restoral == restoral[acc := RestoralTargetInfo(WrappingAdd128(m.serviceSpace, m.lockSpace), 0)]
      && (c.result.Err? ==> c.result == Err(NotpositiveState))
    ensures c.result.Err? ==> c.minerItems == minerItems && c.keys == keys
    ensures c.result.Ok? ==>
      && c.minerItems == minerItems[acc := m.(state := STATE_OFFLINE)]
      && c.keys == keys - {keyHash(m.spaceProofInfo.value.poisKey)}
  {
    var gone := WrappingAdd128(m.idleSpace, m.lockSpace);
    if gone > totalIdle then Closing(Err(Overflow), minerItems, keys, restoral, totalIdle)
    else
      var restoral' := restoral[acc := RestoralTargetInfo(WrappingAdd128(m.serviceSpace, m.lockSpace), 0)];
      if m.spaceProofInfo.None? then Closing(Err(NotpositiveState), minerItems, keys, restoral', totalIdle - gone)
      else
        Closing(Ok(()), minerItems[acc := m.(state := STATE_OFFLINE)],
                keys - {keyHash(m.spaceProofInfo.value.poisKey)}, restoral', totalIdle - gone)
  }

  class Pallet {
    const params: Params
    const policy: Policy

    var minerItems: map<AccountId, MinerInfo>
    var rewardMap: map<AccountId, RewardInfo>
    var restoralTarget: map<AccountId, RestoralTargetInfo>
    var allMiner: seq<AccountId>
    var minerPublicKey: map<KeyDigest, AccountId>
    var returnStakingSchedule: map<BlockNumber, seq<(AccountId, Balance)>>
    var stakingStartBlock: map<AccountId, BlockNumber>
    var pendingReplacements: map<AccountId, U128>

    /** `RewardPool`: the balance `sub_reward` debits and `add_reward` credits. */
    var rewardPool: Balance
    /** `StorageHandle`: the network-wide idle space total. */
    var totalIdleSpace: U128
    /** `Currency::unreserve` calls made, in order. */
    var unreserved: seq<(AccountId, Balance)>

    constructor (params: Params, policy: Policy, rewardPool: Balance, totalIdleSpace: U128)
      ensures this.params == params && this.policy == policy
      ensures minerItems == map[] && rewardMap == map[] && restoralTarget == map[]
      ensures allMiner == [] && minerPublicKey == map[] && returnStakingSchedule == map[]
      ensures stakingStartBlock == map[] && pendingReplacements == map[]
      ensures this.rewardPool == rewardPool && this.totalIdleSpace == totalIdleSpace && unreserved == []
    {
      this.params := params;
      this.policy := policy;
      minerItems, rewardMap, restoralTarget := map[], map[], map[];
      allMiner, minerPublicKey, returnStakingSchedule := [], map[], map[];
      stakingStartBlock, pendingReplacements := map[], map[];
      this.rewardPool, this.totalIdleSpace, unreserved := rewardPool, totalIdleSpace, [];
    }

    /** `add_miner_idle_space` (helper.rs:6-46). */
    method AddMinerIdleSpace(acc: AccountId, accumulator: Accumulator, checkFront: U64, rear: U64, teeSig: TeeSig)
      returns (r: Result<U128>)
      modifies this`minerItems
      ensures
        var step := AddIdleSpace(Get(old(minerItems), acc), params.idleSegSize, accumulator, checkFront, rear, teeSig);
        && (step.Ok? ==> r == Ok(step.value.1) && minerItems == old(minerItems)[acc := step.value.0])
        && (step.Err? ==> r == Err(step.error) && minerItems == old(minerItems))
    {
      if acc !in minerItems {
        return Err(NotMiner);
      }
      var minerInfo := minerItems[acc];
      if minerInfo.state != STATE_POSITIVE {
        return Err(NotpositiveState);
      }
      if minerInfo.spaceProofInfo.None? {
        return Err(NotpositiveState);
      }
      var spaceProofInfo := minerInfo.spaceProofInfo.value;
      if checkFront != spaceProofInfo.front || !(spaceProofInfo.rear < rear) {
        return Err(CountError);
      }
      var count := rear - spaceProofInfo.rear;
      if params.idleSegSize * count > U128_MAX {
        return Err(Overflow);
      }
      var idleSpace: U128 := params.idleSegSize * count;
      spaceProofInfo := spaceProofInfo.(rear := rear);
      spaceProofInfo := spaceProofInfo.(accumulator := accumulator);
      if minerInfo.idleSpace + idleSpace > U128_MAX {
        return Err(Overflow);
      }
      minerInfo := minerInfo.(idleSpace := minerInfo.idleSpace + idleSpace);
      if minerInfo.idleSpace + minerInfo.serviceSpace > U128_MAX
         || minerInfo.idleSpace + minerInfo.serviceSpace + minerInfo.lockSpace > U128_MAX {
        return Err(Overflow);
      }
      var currencyCertSpace := minerInfo.idleSpace + minerInfo.serviceSpace + minerInfo.lockSpace;
      if currencyCertSpace > minerInfo.declarationSpace {
        return Err(ExceedingDeclarationSpace);
      }
      minerInfo := minerInfo.(teeSignature := teeSig);
      minerInfo := minerInfo.(spaceProofInfo := Some(spaceProofInfo));
      minerItems := minerItems[acc := minerInfo];
      return Ok(idleSpace);
    }

    /** `delete_idle_update_accu` (helper.rs:48-75). */
    method DeleteIdleUpdateAccu(acc: AccountId, accumulator: Accumulator, front: U64, checkRear: U64, teeSig: TeeSig)
      returns (r: Result<U64>)
      modifies this`minerItems
      ensures
        var step := SpaceLedger.DeleteIdleUpdateAccu(Get(old(minerItems), acc), accumulator, front, checkRear, teeSig);
        && (step.Ok? ==> r == Ok(step.value.1) && minerItems == old(minerItems)[acc := step.value.0])
        && (step.Err? ==> r == Err(step.error) && minerItems == old(minerItems))
    {
      if acc !in minerItems {
        return Err(NotMiner);
      }
      var minerInfo := minerItems[acc];
      if minerInfo.spaceProofInfo.None? {
        return Err(NotpositiveState);
      }
      var spaceProofInfo := minerInfo.spaceProofInfo.value;
      if checkRear != spaceProofInfo.rear || !(spaceProofInfo.front < front) {
        return Err(CountError);
      }
      var count := front - spaceProofInfo.front;
      spaceProofInfo := spaceProofInfo.(front := front);
      spaceProofInfo := spaceProofInfo.(accumulator := accumulator);
      minerInfo := minerInfo.(teeSignature := teeSig);
      minerInfo := minerInfo.(spaceProofInfo := Some(spaceProofInfo));
      minerItems := minerItems[acc := minerInfo];
      return Ok(count);
    }

    /** `delete_idle_update_space` (helper.rs:77-85). */
    method DeleteIdleUpdateSpace(acc: AccountId, idleSpace: U128) returns (r: Result<()>)
      modifies this`minerItems
      ensures
        var step := SpaceLedger.DeleteIdleUpdateSpace(Get(old(minerItems), acc), idleSpace);
        && (step.Ok? ==> r == Ok(()) && minerItems == old(minerItems)[acc := step.value])
        && (step.Err? ==> r == Err(step.error) && minerItems == old(minerItems))
    {
      if acc !in minerItems {
        return Err(NotMiner);
      }
      var minerInfo := minerItems[acc];
      if idleSpace > minerInfo.idleSpace {
        return Err(Overflow);
      }
      minerInfo := minerInfo.(idleSpace := minerInfo.idleSpace - idleSpace);
      minerItems := minerItems[acc := minerInfo];
      return Ok(());
    }

    /**
     * `add_miner_service_space` (helper.rs:92-110): a silent success for an unknown
     * account or one in the exit state; otherwise a checked increase.
     */
    method AddMinerServiceSpace(acc: AccountId, increment: U128) returns (r: Result<()>)
      modifies this`minerItems
      ensures acc !in old(minerItems) || old(minerItems)[acc].state == STATE_EXIT ==>
        r == Ok(()) && minerItems == old(minerItems)
      ensures acc in old(minerItems) && old(minerItems)[acc].state != STATE_EXIT ==>
        var step := AddServiceSpace(Some(old(minerItems)[acc]), increment);
        && (step.Ok? ==> r == Ok(()) && minerItems == old(minerItems)[acc := step.value])
        && (step.Err? ==> r == Err(step.error) && minerItems == old(minerItems))
    {
      if acc !in minerItems {
        return Ok(());
      }
      var state := minerItems[acc].state;
      if state == STATE_EXIT {
        return Ok(());
      }
      var minerInfo := minerItems[acc];
      if minerInfo.serviceSpace + increment > U128_MAX {
        return Err(Overflow);
      }
      minerInfo := minerInfo.(serviceSpace := minerInfo.serviceSpace + increment);
      minerItems := minerItems[acc := minerInfo];
      return Ok(());
    }

    /**
     * `sub_miner_service_space` (helper.rs:117-135): a silent success for an unknown
     * account or one in the exit state; otherwise a checked decrease.
     */
    method SubMinerServiceSpace(acc: AccountId, increment: U128) returns (r: Result<()>)
      modifies this`minerItems
      ensures acc !in old(minerItems) || old(minerItems)[acc].state == STATE_EXIT ==>
        r == Ok(()) && minerItems == old(minerItems)
      ensures acc in old(minerItems) && old(minerItems)[acc].state != STATE_EXIT ==>
        var step := SubServiceSpace(Some(old(minerItems)[acc]), increment);
        && (step.Ok? ==> r == Ok(()) && minerItems == old(minerItems)[acc := step.value])
        && (step.Err? ==> r == Err(step.error) && minerItems == old(minerItems))
    {
      if acc !in minerItems {
        return Ok(());
      }
      var state := minerItems[acc].state;
      if state == STATE_EXIT {
        return Ok(());
      }
      var minerInfo := minerItems[acc];
      if increment > minerInfo.serviceSpace {
        return Err(Overflow);
      }
      minerInfo := minerInfo.(serviceSpace := minerInfo.serviceSpace - increment);
      minerItems := minerItems[acc := minerInfo];
      return Ok(());
    }

    /**
     * `insert_service_bloom` (helper.rs:137-147): insert every hash into the miner's
     * filter; one failed insertion discards the whole update.
     */
    method InsertServiceBloom(acc: AccountId, hashList: seq<FileHash>) returns (r: Result<()>)
      modifies this`minerItems
      ensures acc !in old(minerItems) ==> r == Err(NotMiner) && minerItems == old(minerItems)
      ensures acc in old(minerItems) ==>
        var m := old(minerItems)[acc];
        var step := InsertAll(m.serviceBloomFilter, hashList);
        && (step.Ok? ==> r == Ok(()) && minerItems == old(minerItems)[acc := m.(serviceBloomFilter := step.value)])
        && (step.Err? ==> r == Err(BloomElemPushError) && minerItems == old(minerItems))
    {
      if acc !in minerItems {
        return Err(NotMiner);
      }
      var mInfo := minerItems[acc];
      var i := 0;
      while i < |hashList|
        invariant 0 <= i <= |hashList|
        invariant minerItems == old(minerItems)
        invariant mInfo == old(minerItems)[acc].(serviceBloomFilter := mInfo.serviceBloomFilter)
        invariant InsertAll(mInfo.serviceBloomFilter, hashList[i..]) == InsertAll(old(minerItems)[acc].serviceBloomFilter, hashList)
      {
        assert hashList[i..][1..] == hashList[i + 1..];
        var inserted := Insert(mInfo.serviceBloomFilter, hashList[i]);
        if inserted.Err? {
          return Err(BloomElemPushError);
        }
        mInfo := mInfo.(serviceBloomFilter := inserted.value);
        i := i + 1;
      }
      minerItems := minerItems[acc := mInfo];
      return Ok(());
    }

    /**
     * `delete_service_bloom` (helper.rs:149-159): delete every hash from the miner's
     * filter; one failed deletion discards the whole update.
     */
    method DeleteServiceBloom(acc: AccountId, hashList: seq<FileHash>) returns (r: Result<()>)
      modifies this`minerItems
      ensures acc !in old(minerItems) ==> r == Err(NotMiner) && minerItems == old(minerItems)
      ensures acc in old(minerItems) ==>
        var m := old(minerItems)[acc];
        var step := DeleteAll(m.serviceBloomFilter, hashList);
        && (step.Ok? ==> r == Ok(()) && minerItems == old(minerItems)[acc := m.(serviceBloomFilter := step.value)])
        && (step.Err? ==> r == Err(BloomElemPushError) && minerItems == old(minerItems))
    {
      if acc !in minerItems {
        return Err(NotMiner);
      }
      var mInfo := minerItems[acc];
      var i := 0;
      while i < |hashList|
        invariant 0 <= i <= |hashList|
        invariant minerItems == old(minerItems)
        invariant mInfo == old(minerItems)[acc].(serviceBloomFilter := mInfo.serviceBloomFilter)
        invariant DeleteAll(mInfo.serviceBloomFilter, hashList[i..]) == DeleteAll(old(minerItems)[acc].serviceBloomFilter, hashList)
      {
        assert hashList[i..][1..] == hashList[i + 1..];
        var deleted := Delete(mInfo.serviceBloomFilter, hashList[i]);
        if deleted.Err? {
          return Err(BloomElemPushError);
        }
        mInfo := mInfo.(serviceBloomFilter := deleted.value);
        i := i + 1;
      }
      minerItems := minerItems[acc := mInfo];
      return Ok(());
    }

    /**
     * `calculate_miner_reward` (helper.rs:161-207): `rewardBase` is what
     * `RewardPool::get_reward_base` returns and `now` the current block.
     */
    method CalculateMinerReward(miner: AccountId, totalIdleSpace: U128, totalServiceSpace: U128,
                                minerIdleSpace: U128, minerServiceSpace: U128,
                                rewardBase: Balance, now: BlockNumber) returns (r: Result<()>)
      modifies this`rewardMap, this`rewardPool
      ensures
        var share := policy.fromRational(policy.power(minerIdleSpace, minerServiceSpace),
                                         policy.power(totalIdleSpace, totalServiceSpace));
        var order := BuildOrder(share, rewardBase, params.aoirPercent, params.releaseNumber, now);
        && (order.Err? ==> r == Err(order.error) && rewardMap == old(rewardMap) && rewardPool == old(rewardPool))
        && (order.Ok? ==>
              var step := AdmitOrder(Get(old(rewardMap), miner), order.value, params.releaseNumber,
                                     params.orderListBound, old(rewardPool));
              && (step.Ok? ==> r == Ok(()) && rewardMap == old(rewardMap)[miner := step.value.0]
                                           && rewardPool == step.value.1)
              && (step.Err? ==> r == Err(step.error) && rewardMap == old(rewardMap)
                                            && rewardPool == old(rewardPool)))
    {
      var totalPower := policy.power(totalIdleSpace, totalServiceSpace);
      var minerPower := policy.power(minerIdleSpace, minerServiceSpace);
      var minerProp := policy.fromRational(minerPower, totalPower);
      var thisRoundReward: Balance := MulFloor(minerProp, rewardBase);
      if params.releaseNumber == 0 {
        return Err(Overflow);
      }
      var eachReward: Balance := MulFloor(params.aoirPercent, thisRoundReward) / params.releaseNumber;
      var order := RewardOrder(0, params.releaseNumber, false, thisRoundReward, eachReward, now);

      if miner !in rewardMap {
        return Err(Unexpected);
      }
      var rewardInfo := rewardMap[miner];
      if |rewardInfo.orderList| == params.releaseNumber as int {
        rewardMap := rewardMap[miner := rewardInfo];
        return Ok(());
      }
      if rewardInfo.totalReward + thisRoundReward > U128_MAX {
        return Err(Overflow);
      }
      rewardInfo := rewardInfo.(totalReward := rewardInfo.totalReward + thisRoundReward);
      if |rewardInfo.orderList| >= params.orderListBound {
        return Err(BoundedVecError);
      }
      rewardInfo := rewardInfo.(orderList := rewardInfo.orderList + [order]);
      // RewardPool::sub_reward
      if order.orderReward > rewardPool {
        return Err(Overflow);
      }
      rewardPool := rewardPool - order.orderReward;
      rewardMap := rewardMap[miner := rewardInfo];
      return Ok(());
    }

    /**
     * `force_miner_exit` from the record's `try_mutate` on (helper.rs:263-297), with the
     * storage before (`old`) and after: `Unexpected` and no effect without a record;
     * otherwise the collateral step, then, if it succeeded, the closing step; the reward
     * record and the pending replacement are removed only when both succeeded.
     */
    twostate predicate ExitApplied(acc: AccountId, new r: Result<()>)
      reads this
    {
      if acc !in old(minerItems) then
        && r == Err(Unexpected)
        && unreserved == old(unreserved) && rewardPool == old(rewardPool)
        && returnStakingSchedule == old(returnStakingSchedule) && totalIdleSpace == old(totalIdleSpace)
        && restoralTarget == old(restoralTarget) && minerPublicKey == old(minerPublicKey)
        && minerItems == old(minerItems) && rewardMap == old(rewardMap)
        && pendingReplacements == old(pendingReplacements)
      else
        var m := old(minerItems)[acc];
        var s := SettleCollateral(acc, m, old(rewardMap), old(stakingStartBlock), params.stakingLockBlock,
                                  params.scheduleBound, old(unreserved), old(rewardPool), old(returnStakingSchedule));
        && unreserved == s.unreserved && rewardPool == s.pool && returnStakingSchedule == s.schedule
        && if s.result.Err? then
             && r == s.result
             && totalIdleSpace == old(totalIdleSpace) && restoralTarget == old(restoralTarget)
             && minerPublicKey == old(minerPublicKey) && minerItems == old(minerItems)
             && rewardMap == old(rewardMap) && pendingReplacements == old(pendingReplacements)
           else
             var c := CloseStep(acc, m, policy.poisKeyHash, old(minerItems), old(minerPublicKey),
                                old(restoralTarget), old(totalIdleSpace));
             && r == c.result
             && totalIdleSpace == c.totalIdle && restoralTarget == c.restoral
             && minerPublicKey == c.keys && minerItems == c.minerItems
             && rewardMap == (if r.Ok? then old(rewardMap) - {acc} else old(rewardMap))
             && pendingReplacements == (if r.Ok? then old(pendingReplacements) - {acc} else old(pendingReplacements))
    }

    /**
     * The collateral step of `force_miner_exit` (helper.rs:265-283), run against the
     * stored reward record and staking start block.
     */
    method ReleaseCollateral(acc: AccountId, miner: MinerInfo) returns (r: Result<()>)
      modifies this`unreserved, this`rewardPool, this`returnStakingSchedule
      ensures Settlement(r, unreserved, rewardPool, returnStakingSchedule) ==
        SettleCollateral(acc, miner, rewardMap, stakingStartBlock, params.stakingLockBlock, params.scheduleBound,
                         old(unreserved), old(rewardPool), old(returnStakingSchedule))
    {
      if acc !in rewardMap {
        return Ok(());
      }
      var rewardInfo := rewardMap[acc];
      if rewardInfo.totalReward == 0 {
        unreserved := unreserved + [(miner.stakingAccount, miner.collaterals)];
        return Ok(());
      }
      if rewardInfo.rewardIssued > rewardInfo.totalReward {
        return Err(Overflow);
      }
      var residueReward := rewardInfo.totalReward - rewardInfo.rewardIssued;
      // RewardPool::add_reward
      if rewardPool + residueReward > U128_MAX {
        return Err(Overflow);
      }
      rewardPool := rewardPool + residueReward;
      if acc !in stakingStartBlock {
        return Err(BugInvalid);
      }
      var startBlock := stakingStartBlock[acc];
      if startBlock + params.stakingLockBlock > U32_MAX {
        return Err(Overflow);
      }
      var execBlock: BlockNumber := startBlock + params.stakingLockBlock;
      var minerList := Bucket(returnStakingSchedule, execBlock);
      if |minerList| >= params.scheduleBound {
        return Err(BoundedVecError);
      }
      minerList := minerList + [(miner.stakingAccount, miner.collaterals)];
      returnStakingSchedule := returnStakingSchedule[execBlock := minerList];
      return Ok(());
    }

    /** The end of the record's `try_mutate` in `force_miner_exit` (helper.rs:284-291). */
    method CloseRecord(acc: AccountId, miner: MinerInfo) returns (r: Result<()>)
      modifies this`totalIdleSpace, this`restoralTarget, this`minerPublicKey, this`minerItems
      ensures Closing(r, minerItems, minerPublicKey, restoralTarget, totalIdleSpace) ==
        CloseStep(acc, miner, policy.poisKeyHash, old(minerItems), old(minerPublicKey),
                  old(restoralTarget), old(totalIdleSpace))
    {
      // StorageHandle::sub_total_idle_space
      var idleGone := WrappingAdd128(miner.idleSpace, miner.lockSpace);
      if idleGone > totalIdleSpace {
        return Err(Overflow);
      }
      totalIdleSpace := totalIdleSpace - idleGone;
      // create_restoral_target
      restoralTarget := restoralTarget[acc := RestoralTargetInfo(WrappingAdd128(miner.serviceSpace, miner.lockSpace), 0)];
      var closed := miner.(state := STATE_OFFLINE);
      if closed.spaceProofInfo.None? {
        return Err(NotpositiveState);
      }
      var hashing := policy.poisKeyHash(closed.spaceProofInfo.value.poisKey);
      minerPublicKey := minerPublicKey - {hashing};
      minerItems := minerItems[acc := closed];
      return Ok(());
    }

    /**
     * `force_miner_exit` (helper.rs:258-298). `AllMiner` is rewritten before the
     * record's `try_mutate`, so it stays filtered when a later step fails; so do the
     * calls to collaborators and the writes to other maps that completed before the
     * failing step. A known miner leaves exactly when its collateral can be settled, its
     * idle and lock space fit in the network total and it has a proof-of-space cursor.
     */
    method ForceMinerExit(acc: AccountId) returns (r: Result<()>)
      modifies this`allMiner
      modifies this`unreserved, this`rewardPool, this`returnStakingSchedule, this`totalIdleSpace
      modifies this`restoralTarget, this`minerPublicKey, this`minerItems, this`rewardMap, this`pendingReplacements
      ensures allMiner == Without(old(allMiner), acc)
      ensures ExitApplied(acc, r)
      ensures acc in old(minerItems) ==>
        var m := old(minerItems)[acc];
        (r.Ok? <==>
           && CollateralReleasable(acc, old(rewardMap), stakingStartBlock, params.stakingLockBlock,
                                   params.scheduleBound, old(rewardPool), old(returnStakingSchedule))
           && WrappingAdd128(m.idleSpace, m.lockSpace) <= old(totalIdleSpace)
           && m.spaceProofInfo.Some?)
    {
      allMiner := Retain(allMiner, acc);
      r := ExitRecord(acc);
    }

    /** The rest of `force_miner_exit` once `AllMiner` has been filtered (helper.rs:263-297). */
    method ExitRecord(acc: AccountId) returns (r: Result<()>)
      modifies this`unreserved, this`rewardPool, this`returnStakingSchedule, this`totalIdleSpace
      modifies this`restoralTarget, this`minerPublicKey, this`minerItems, this`rewardMap, this`pendingReplacements
      ensures ExitApplied(acc, r)
    {
      if acc !in minerItems {
        return Err(Unexpected);
      }
      var miner := minerItems[acc];
      var released := ReleaseCollateral(acc, miner);
      if released.Err? {
        return Err(released.error);
      }
      r := CloseRecord(acc, miner);
      if r.Err? {
        return;
      }
      rewardMap := rewardMap - {acc};
      pendingReplacements := pendingReplacements - {acc};
    }

    /** `update_restoral_target` (helper.rs:300-309). */
    method UpdateRestoralTarget(miner: AccountId, serviceSpace: U128) returns (r: Result<()>)
      modifies this`restoralTarget
      ensures
        var step := AddRestoredSpace(Get(old(restoralTarget), miner), serviceSpace);
        && (step.Ok? ==> r == Ok(()) && restoralTarget == old(restoralTarget)[miner := step.value])
        && (step.Err? ==> r == Err(step.error) && restoralTarget == old(restoralTarget))
    {
      if miner !in restoralTarget {
        return Err(NotExisted);
      }
      var info := restoralTarget[miner];
      if info.restoredSpace + serviceSpace > U128_MAX {
        return Err(Overflow);
      }
      info := info.(restoredSpace := info.restoredSpace + serviceSpace);
      restoralTarget := restoralTarget[miner := info];
      return Ok(());
    }
  }
}
