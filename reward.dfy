/**
 * The reward engine of `calculate_miner_reward`: a miner's share of the round's reward
 * base becomes one reward order, admitted into the miner's bounded order list while the
 * same amount is debited from the reward pool.
 */
module RewardEngine {
  import opened SminerTypes

  /** Division by a positive count leaves a remainder below the count. */
  lemma DivBounds(a: nat, n: nat)
    requires n > 0
    ensures (a / n) * n <= a < (a / n + 1) * n
  {
  }

  /**
   * The order a round produces (lines 172-186): `share` of the reward `base`, of which
   * the `aoir` fraction is released in `releaseNumber` equal installments. Division by a
   * zero installment count is the only failure.
   */
  function BuildOrder(share: Perbill, base: Balance, aoir: Perbill, releaseNumber: U8, now: BlockNumber): (r: Result<RewardOrder>)
    ensures r.Err? <==> releaseNumber == 0
    ensures r.Err? ==> r.error == Overflow
    ensures r.Ok? ==>
      var o := r.value;
      && o.receiveCount == 0 && o.maxCount == releaseNumber && !o.atonce && o.lastReceiveBlock == now
      && o.orderReward * BILLION <= base * share < (o.orderReward + 1) * BILLION
      && o.eachAmount * releaseNumber <= MulFloor(aoir, o.orderReward) < (o.eachAmount + 1) * releaseNumber
      && o.eachAmount * releaseNumber <= o.orderReward <= base
  {
    var roundReward := MulFloor(share, base);
    var released := MulFloor(aoir, roundReward);
    if releaseNumber == 0 then Err(Overflow)
    else
      DivBounds(released, releaseNumber);
      Ok(RewardOrder(0, releaseNumber, false, roundReward, released / releaseNumber, now))
  }

  /**
   * The `RewardMap::try_mutate` closure of `calculate_miner_reward` together with the
   * pool debit it makes: yields the reward record to write back and the pool balance.
   * A full order list makes the round a silent no-op.
   */
  function AdmitOrder(rec: Option<RewardInfo>, order: RewardOrder, releaseNumber: U8,
                      listBound: nat, pool: Balance): (r: Result<(RewardInfo, Balance)>)
    ensures rec.None? ==> r == Err(Unexpected)
    ensures rec.Some? && |rec.value.orderList| == releaseNumber ==> r == Ok((rec.value, pool))
    ensures rec.Some? && |rec.value.orderList| != releaseNumber ==>
      var info := rec.value;
      (info.totalReward + order.orderReward > U128_MAX ==> r == Err(Overflow)) &&
      (info.totalReward + order.orderReward <= U128_MAX && |info.orderList| >= listBound ==>
         r == Err(BoundedVecError)) &&
      (info.totalReward + order.orderReward <= U128_MAX && |info.orderList| < listBound ==>
         (r.Ok? <==> order.orderReward <= pool)) &&
      (r.Ok? ==>
         r.value.0 == info.(totalReward := info.totalReward + order.orderReward,
                            orderList := info.orderList + [order]) &&
         r.value.1 + order.orderReward == pool)
    ensures r.Ok? ==> r.value.0.totalReward + r.value.1 == rec.value.totalReward + pool
  {
    if rec.None? then Err(Unexpected)
    else
      var info := rec.value;
      if |info.orderList| == releaseNumber as int then Ok((info, pool))
      else if info.totalReward + order.orderReward > U128_MAX then Err(Overflow)
      else if |info.orderList| >= listBound then Err(BoundedVecError)
      else if order.orderReward > pool then Err(Overflow)
      else Ok((info.(totalReward := info.totalReward + order.orderReward,
                     orderList := info.orderList + [order]),
               pool - order.orderReward))
  }

  /** Settle a run of rounds for one miner; the first failure ends the run. */
  function SettleRounds(info: RewardInfo, orders: seq<RewardOrder>, releaseNumber: U8,
                        listBound: nat, pool: Balance): (r: Result<(RewardInfo, Balance)>)
    decreases |orders|
  {
    if orders == [] then Ok((info, pool))
    else match AdmitOrder(Some(info), orders[0], releaseNumber, listBound, pool)
      case Err(e) => Err(e)
      case Ok(p) => SettleRounds(p.0, orders[1..], releaseNumber, listBound, p.1)
  }

  /**
   * Over any run of settled rounds: what the pool loses the miner's total gains, orders
   * are only appended, paid-out bookkeeping is untouched, and an order list that starts
   * within `releaseNumber` entries never grows past it.
   */
  lemma {:induction false} SettleRoundsKeepLedger(info: RewardInfo, orders: seq<RewardOrder>,
                                                  releaseNumber: U8, listBound: nat, pool: Balance)
    requires SettleRounds(info, orders, releaseNumber, listBound, pool).Ok?
    ensures
      var (info', pool') := SettleRounds(info, orders, releaseNumber, listBound, pool).value;
      && info'.totalReward + pool' == info.totalReward + pool
      && info'.rewardIssued == info.rewardIssued
      && info.orderList <= info'.orderList
      && (|info.orderList| <= releaseNumber ==> |info'.orderList| <= releaseNumber)
    decreases |orders|
  {
    if orders != [] {
      var p := AdmitOrder(Some(info), orders[0], releaseNumber, listBound, pool).value;
      SettleRoundsKeepLedger(p.0, orders[1..], releaseNumber, listBound, p.1);
    }
  }
}
