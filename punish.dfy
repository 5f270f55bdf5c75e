/**
 * The punishment engine: the amounts `clear_punish`, `idle_punish` and `service_punish`
 * hand to `deposit_punish`. Each is a fixed tier of a `limit` derived from the miner's
 * power.
 */
module Punishment {
  import opened SminerTypes

  /**
   * `calculate_limit_by_space(calculate_power(idle, service))` converted to a balance
   * (lines 210-212): the policy's error is passed on, a limit beyond 128 bits is an
   * `Overflow`.
   */
  function Limit(policy: Policy, idle: U128, service: U128): (r: Result<Balance>)
    ensures policy.limitBySpace(policy.power(idle, service)).Err? ==>
      r == Err(policy.limitBySpace(policy.power(idle, service)).error)
    ensures policy.limitBySpace(policy.power(idle, service)).Ok? ==>
      (r.Ok? <==> policy.limitBySpace(policy.power(idle, service)).value <= U128_MAX) &&
      (r.Err? ==> r.error == Overflow) &&
      (r.Ok? ==> r.value == policy.limitBySpace(policy.power(idle, service)).value)
  {
    match policy.limitBySpace(policy.power(idle, service))
    case Err(e) => Err(e)
    case Ok(l) => if l > U128_MAX then Err(Overflow) else Ok(l)
  }

  /**
   * The escalating tier of `clear_punish` (lines 216-227): a flat 100 when nothing has
   * been earned, otherwise nothing at count 1, 5% of `limit` at count 2 and 15% at every
   * other count, 0 included.
   */
  function ClearPunishAmount(totalReward: Balance, count: U8, limit: Balance): (r: Balance)
    ensures totalReward == 0 ==> r == 100
    ensures totalReward != 0 ==> r <= limit
    ensures totalReward != 0 && count == 1 ==> r == 0
    ensures totalReward != 0 && count == 2 ==> r == limit / 20
    ensures totalReward != 0 && count != 1 && count != 2 ==> r == limit * 3 / 20
  {
    if totalReward == 0 then 100
    else if count == 1 then 0
    else if count == 2 then MulFloor(FromPercent(5), limit)
    else if count == 3 then MulFloor(FromPercent(15), limit)
    else MulFloor(FromPercent(15), limit)
  }

  /** Among counts from 1 on, a later violation is never charged less. */
  lemma ClearPunishEscalates(totalReward: Balance, c1: U8, c2: U8, limit: Balance)
    requires totalReward != 0 && 1 <= c1 <= c2
    ensures ClearPunishAmount(totalReward, c1, limit) <= ClearPunishAmount(totalReward, c2, limit)
  {
  }

  /**
   * `clear_punish` (lines 209-229): the amount charged, read from the miner's reward
   * record; a miner without one is `NotMiner`.
   */
  function ClearPunish(policy: Policy, rewardMap: map<AccountId, RewardInfo>, miner: AccountId,
                       idle: U128, service: U128, count: U8): (r: Result<Balance>)
    ensures Limit(policy, idle, service).Err? ==> r == Err(Limit(policy, idle, service).error)
    ensures Limit(policy, idle, service).Ok? && miner !in rewardMap ==> r == Err(NotMiner)
    ensures Limit(policy, idle, service).Ok? && miner in rewardMap ==> r.Ok?
    ensures r.Ok? ==>
      && miner in rewardMap
      && (rewardMap[miner].totalReward == 0 ==> r.value == 100)
      && (rewardMap[miner].totalReward != 0 ==> r.value <= Limit(policy, idle, service).value)
    ensures r.Ok? ==>
      r.value == ClearPunishAmount(rewardMap[miner].totalReward, count, Limit(policy, idle, service).value)
  {
    match Limit(policy, idle, service)
    case Err(e) => Err(e)
    case Ok(limit) =>
      if miner !in rewardMap then Err(NotMiner)
      else Ok(ClearPunishAmount(rewardMap[miner].totalReward, count, limit))
  }

  /** `idle_punish` (lines 234-244): the `IDLE_PUNI_MUTI` share of the limit. */
  function IdlePunish(policy: Policy, params: Params, idle: U128, service: U128): (r: Result<Balance>)
    ensures r.Err? <==> Limit(policy, idle, service).Err?
    ensures r.Err? ==> r.error == Limit(policy, idle, service).error
    ensures r.Ok? ==>
      var limit := Limit(policy, idle, service).value;
      r.value <= limit && r.value * BILLION <= limit * params.idlePuniMuti < (r.value + 1) * BILLION
  {
    match Limit(policy, idle, service)
    case Err(e) => Err(e)
    case Ok(limit) => Ok(MulFloor(params.idlePuniMuti, limit))
  }

  /** `service_punish` (lines 246-256): the `SERVICE_PUNI_MUTI` share of the limit. */
  function ServicePunish(policy: Policy, params: Params, idle: U128, service: U128): (r: Result<Balance>)
    ensures r.Err? <==> Limit(policy, idle, service).Err?
    ensures r.Err? ==> r.error == Limit(policy, idle, service).error
    ensures r.Ok? ==>
      var limit := Limit(policy, idle, service).value;
      r.value <= limit && r.value * BILLION <= limit * params.servicePuniMuti < (r.value + 1) * BILLION
  {
    match Limit(policy, idle, service)
    case Err(e) => Err(e)
    case Ok(limit) => Ok(MulFloor(params.servicePuniMuti, limit))
  }

  /** A larger punishment ratio never charges less: with equal limits, idle and service
   *  punishments are ordered as their ratios. */
  lemma PunishOrderedByRatio(policy: Policy, params: Params, idle: U128, service: U128)
    requires params.idlePuniMuti <= params.servicePuniMuti
    requires Limit(policy, idle, service).Ok?
    ensures IdlePunish(policy, params, idle, service).value <= ServicePunish(policy, params, idle, service).value
  {
    MulFloorMonotonic(params.idlePuniMuti, params.servicePuniMuti, Limit(policy, idle, service).value);
  }
}
