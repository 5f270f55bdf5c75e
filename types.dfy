/** Records, integer widths, fixed-point ratios and error kinds of the sminer pallet. */
module SminerTypes {

  // ---------------------------------------------------------------------------
  // Integer widths. Every checked operation of the pallet fails once its result
  // leaves the range of the Rust type it is computed in.
  // ---------------------------------------------------------------------------

  const U8_MAX: nat := 0xFF
  const U32_MAX: nat := 0xFFFF_FFFF
  const U64_MAX: nat := 0xFFFF_FFFF_FFFF_FFFF
  const U128_MAX: nat := 0xFFFF_FFFF_FFFF_FFFF_FFFF_FFFF_FFFF_FFFF

  type U8 = x: nat | x <= U8_MAX
  type U64 = x: nat | x <= U64_MAX
  type U128 = x: nat | x <= U128_MAX

  /** `BalanceOf<T>`: a 128-bit amount of tokens. */
  type Balance = U128
  /** `BlockNumberFor<T>`: a 32-bit block height. */
  type BlockNumber = x: nat | x <= U32_MAX

  /** Result of an unchecked `+` on two `u128` values in a release build: wraps around. */
  function WrappingAdd128(a: U128, b: U128): (r: U128)
    ensures a + b <= U128_MAX ==> r == a + b
    ensures a + b > U128_MAX ==> r == a + b - (U128_MAX + 1) && r < a
  {
    (a + b) % (U128_MAX + 1)
  }

  // ---------------------------------------------------------------------------
  // Perbill: parts per billion.
  // ---------------------------------------------------------------------------

  const BILLION: nat := 1_000_000_000

  type Perbill = p: nat | p <= BILLION

  /** `Perbill::from_percent(n)`. */
  function FromPercent(n: nat): (p: Perbill)
    requires n <= 100
    ensures p * 100 == n * BILLION
  {
    n * 10_000_000
  }

  lemma MulBelowMul(x: nat, p: nat, q: nat)
    requires p <= q
    ensures x * p <= x * q
  {
  }

  /** `Perbill::mul_floor(x)`: the largest integer not above x · p / 10^9. */
  function MulFloor(p: Perbill, x: nat): (r: nat)
    ensures r * BILLION <= x * p < (r + 1) * BILLION
    ensures r <= x
  {
    MulBelowMul(x, p, BILLION);
    x * p / BILLION
  }

  /** A larger ratio never yields a smaller share. */
  lemma MulFloorMonotonic(p: Perbill, q: Perbill, x: nat)
    requires p <= q
    ensures MulFloor(p, x) <= MulFloor(q, x)
  {
    MulBelowMul(x, p, q);
  }

  // ---------------------------------------------------------------------------
  // Errors and results.
  // ---------------------------------------------------------------------------

  /** The pallet's `Error<T>` variants that the helpers raise. */
  datatype Error =
    | NotMiner
    | NotpositiveState
    | CountError
    | Overflow
    | ExceedingDeclarationSpace
    | ConversionError
    | BloomElemPushError
    | Unexpected
    | BoundedVecError
    | NotExisted
    | BugInvalid

  datatype Option<+T> = None | Some(value: T)

  datatype Result<+T> = Ok(value: T) | Err(error: Error)

  // ---------------------------------------------------------------------------
  // Opaque payloads: never interpreted by the pallet's accounting.
  // ---------------------------------------------------------------------------

  type AccountId = seq<bv8>
  type Accumulator = seq<bv8>
  type TeeSig = seq<bv8>
  type PoisKey = seq<bv8>
  /** `sha2_256` of the SCALE encoding of a proof-of-space key. */
  type KeyDigest = seq<bv8>
  /** A 256-byte service file identifier. */
  type FileHash = seq<bv8>

  /** Miner states; the pallet stores them as bounded byte strings. */
  const STATE_POSITIVE: string := "positive"
  const STATE_EXIT: string := "exit"
  const STATE_OFFLINE: string := "offline"

  // ---------------------------------------------------------------------------
  // Records.
  // ---------------------------------------------------------------------------

  /** Proof-of-space cursor: `rear` counts committed segments, `front` retired ones. */
  datatype SpaceProofInfo = SpaceProofInfo(front: U64, rear: U64, poisKey: PoisKey, accumulator: Accumulator)

  /** The per-miner service membership filter, seen as a set with a fixed capacity. */
  datatype BloomFilter = BloomFilter(members: set<FileHash>, capacity: nat)

  /** `MinerItems` value: one miner's record. */
  datatype MinerInfo = MinerInfo(
    stakingAccount: AccountId,
    collaterals: Balance,
    state: string,
    declarationSpace: U128,
    idleSpace: U128,
    serviceSpace: U128,
    lockSpace: U128,
    spaceProofInfo: Option<SpaceProofInfo>,
    serviceBloomFilter: BloomFilter,
    teeSignature: TeeSig)

  /** Certified space never exceeds the declared space. */
  predicate WithinDeclaration(m: MinerInfo) {
    m.idleSpace + m.serviceSpace + m.lockSpace <= m.declarationSpace
  }

  /** One round's entitlement, released in `maxCount` installments of `eachAmount`. */
  datatype RewardOrder = RewardOrder(
    receiveCount: U8,
    maxCount: U8,
    atonce: bool,
    orderReward: Balance,
    eachAmount: Balance,
    lastReceiveBlock: BlockNumber)

  /** `RewardMap` value. */
  datatype RewardInfo = RewardInfo(totalReward: Balance, rewardIssued: Balance, orderList: seq<RewardOrder>)

  /** `RestoralTarget` value: the space left behind at exit and how much of it others have taken over. */
  datatype RestoralTargetInfo = RestoralTargetInfo(serviceSpace: U128, restoredSpace: U128)

  // ---------------------------------------------------------------------------
  // Configuration.
  // ---------------------------------------------------------------------------

  /** The pallet's constants and `Config` values. */
  datatype Params = Params(
    idleSegSize: U128,       // IDLE_SEG_SIZE
    releaseNumber: U8,       // RELEASE_NUMBER
    aoirPercent: Perbill,    // AOIR_PERCENT
    idlePuniMuti: Perbill,   // IDLE_PUNI_MUTI
    servicePuniMuti: Perbill, // SERVICE_PUNI_MUTI
    stakingLockBlock: BlockNumber, // T::StakingLockBlock
    orderListBound: nat,     // capacity of the `order_list` bounded vector
    scheduleBound: nat)      // capacity of one `ReturnStakingSchedule` bucket

  /** Functions the helpers call whose bodies are outside this model. */
  datatype Policy = Policy(
    power: (U128, U128) -> U128,          // calculate_power(idle, service)
    fromRational: (U128, U128) -> Perbill, // Perbill::from_rational(part, whole)
    limitBySpace: U128 -> Result<nat>,    // calculate_limit_by_space(power)
    poisKeyHash: PoisKey -> KeyDigest)    // sha2_256(pois_key.encode())
}
