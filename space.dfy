/**
 * The space ledger: the bodies of the `MinerItems::try_mutate` closures of
 * pallets/sminer/src/helper.rs, as functions from the stored record to the record
 * that is written back (or the error that leaves storage as it was), and what they
 * guarantee across calls.
 */
module SpaceLedger {
  import opened SminerTypes

  /** The record exists, is positive and carries a proof-of-space cursor. */
  predicate CursorReady(rec: Option<MinerInfo>) {
    rec.Some? && rec.value.state == STATE_POSITIVE && rec.value.spaceProofInfo.Some?
  }

  /** Certified space the record would hold after committing up to `rear`. */
  function GrownTotal(m: MinerInfo, segSize: U128, rear: U64): (r: int)
    requires m.spaceProofInfo.Some?
  {
    m.idleSpace + segSize * (rear - m.spaceProofInfo.value.rear) + m.serviceSpace + m.lockSpace
  }

  /** The cursor of a record has not retired more segments than it committed. */
  predicate CursorOrdered(m: MinerInfo) {
    m.spaceProofInfo.Some? ==> m.spaceProofInfo.value.front <= m.spaceProofInfo.value.rear
  }

  /**
   * `add_miner_idle_space`: commit the segments up to `rear`. Yields the updated record
   * and the idle bytes added.
   */
  function AddIdleSpace(rec: Option<MinerInfo>, segSize: U128, accumulator: Accumulator,
                        checkFront: U64, rear: U64, teeSig: TeeSig): (r: Result<(MinerInfo, U128)>)
    ensures rec.None? ==> r == Err(NotMiner)
    ensures rec.Some? && !CursorReady(rec) ==> r == Err(NotpositiveState)
    ensures CursorReady(rec) ==>
      var spi := rec.value.spaceProofInfo.value;
      (checkFront != spi.front || rear <= spi.rear ==> r == Err(CountError)) &&
      (checkFront == spi.front && spi.rear < rear ==>
        (GrownTotal(rec.value, segSize, rear) > U128_MAX ==> r == Err(Overflow)) &&
        (U128_MAX >= GrownTotal(rec.value, segSize, rear) > rec.value.declarationSpace ==>
           r == Err(ExceedingDeclarationSpace)) &&
        (GrownTotal(rec.value, segSize, rear) <= rec.value.declarationSpace ==> r.Ok?))
    ensures r.Ok? ==>
      var m := rec.value;
      var spi := m.spaceProofInfo.value;
      var (m', added) := r.value;
      && CursorReady(rec) && checkFront == spi.front && spi.rear < rear
      && added == segSize * (rear - spi.rear)
      && m' == m.(idleSpace := m.idleSpace + added,
                  teeSignature := teeSig,
                  spaceProofInfo := Some(spi.(rear := rear, accumulator := accumulator)))
      && WithinDeclaration(m')
  {
    if rec.None? then Err(NotMiner)
    else
      var m := rec.value;
      if m.state != STATE_POSITIVE then Err(NotpositiveState)
      else if m.spaceProofInfo.None? then Err(NotpositiveState)
      else
        var spi := m.spaceProofInfo.value;
        if checkFront != spi.front then Err(CountError)
        else if !(spi.rear < rear) then Err(CountError)
        else
          var count := rear - spi.rear;
          var bytes := segSize * count;
          if bytes > U128_MAX then Err(Overflow)
          else if m.idleSpace + bytes > U128_MAX then Err(Overflow)
          else
            var idle := m.idleSpace + bytes;
            if idle + m.serviceSpace > U128_MAX then Err(Overflow)
            else if idle + m.serviceSpace + m.lockSpace > U128_MAX then Err(Overflow)
            else if idle + m.serviceSpace + m.lockSpace > m.declarationSpace then Err(ExceedingDeclarationSpace)
            else Ok((m.(idleSpace := idle,
                        teeSignature := teeSig,
                        spaceProofInfo := Some(spi.(rear := rear, accumulator := accumulator))), bytes))
  }

  /**
   * `delete_idle_update_accu`: retire the segments up to `front`. Yields the updated
   * record and the number of segments retired. Neither the miner state nor
   * `front <= rear` is checked.
   */
  function DeleteIdleUpdateAccu(rec: Option<MinerInfo>, accumulator: Accumulator,
                                front: U64, checkRear: U64, teeSig: TeeSig): (r: Result<(MinerInfo, U64)>)
    ensures rec.None? ==> r == Err(NotMiner)
    ensures rec.Some? && rec.value.spaceProofInfo.None? ==> r == Err(NotpositiveState)
    ensures rec.Some? && rec.value.spaceProofInfo.Some? ==>
      var spi := rec.value.spaceProofInfo.value;
      (checkRear == spi.rear && spi.front < front <==> r.Ok?) &&
      (checkRear != spi.rear || front <= spi.front ==> r == Err(CountError))
    ensures r.Ok? ==>
      var m := rec.value;
      var spi := m.spaceProofInfo.value;
      var (m', retired) := r.value;
      && retired > 0 && spi.front + retired == front
      && m' == m.(teeSignature := teeSig,
                  spaceProofInfo := Some(spi.(front := front, accumulator := accumulator)))
  {
    if rec.None? then Err(NotMiner)
    else
      var m := rec.value;
      if m.spaceProofInfo.None? then Err(NotpositiveState)
      else
        var spi := m.spaceProofInfo.value;
        if checkRear != spi.rear then Err(CountError)
        else if !(spi.front < front) then Err(CountError)
        else
          var count := front - spi.front;
          Ok((m.(teeSignature := teeSig,
                 spaceProofInfo := Some(spi.(front := front, accumulator := accumulator))), count))
  }

  /** `delete_idle_update_space`: lower the idle space by exactly `amount`. */
  function DeleteIdleUpdateSpace(rec: Option<MinerInfo>, amount: U128): (r: Result<MinerInfo>)
    ensures rec.None? ==> r == Err(NotMiner)
    ensures rec.Some? ==> (r.Ok? <==> amount <= rec.value.idleSpace)
    ensures rec.Some? && r.Err? ==> r.error == Overflow
    ensures r.Ok? ==>
      r.value.idleSpace + amount == rec.value.idleSpace &&
      r.value == rec.value.(idleSpace := r.value.idleSpace)
  {
    if rec.None? then Err(NotMiner)
    else if amount > rec.value.idleSpace then Err(Overflow)
    else Ok(rec.value.(idleSpace := rec.value.idleSpace - amount))
  }

  /** The closure of `add_miner_service_space`: raise the service space by exactly `increment`. */
  function AddServiceSpace(rec: Option<MinerInfo>, increment: U128): (r: Result<MinerInfo>)
    ensures rec.None? ==> r == Err(ConversionError)
    ensures rec.Some? ==> (r.Ok? <==> rec.value.serviceSpace + increment <= U128_MAX)
    ensures rec.Some? && r.Err? ==> r.error == Overflow
    ensures r.Ok? ==>
      r.value.serviceSpace == rec.value.serviceSpace + increment &&
      r.value == rec.value.(serviceSpace := r.value.serviceSpace)
  {
    if rec.None? then Err(ConversionError)
    else if rec.value.serviceSpace + increment > U128_MAX then Err(Overflow)
    else Ok(rec.value.(serviceSpace := rec.value.serviceSpace + increment))
  }

  /** The closure of `sub_miner_service_space`: lower the service space by exactly `increment`. */
  function SubServiceSpace(rec: Option<MinerInfo>, increment: U128): (r: Result<MinerInfo>)
    ensures rec.None? ==> r == Err(ConversionError)
    ensures rec.Some? ==> (r.Ok? <==> increment <= rec.value.serviceSpace)
    ensures rec.Some? && r.Err? ==> r.error == Overflow
    ensures r.Ok? ==>
      r.value.serviceSpace + increment == rec.value.serviceSpace &&
      r.value == rec.value.(serviceSpace := r.value.serviceSpace)
  {
    if rec.None? then Err(ConversionError)
    else if increment > rec.value.serviceSpace then Err(Overflow)
    else Ok(rec.value.(serviceSpace := rec.value.serviceSpace - increment))
  }

  /** The closure of `update_restoral_target`: raise `restored_space` by exactly `amount`. */
  function AddRestoredSpace(rec: Option<RestoralTargetInfo>, amount: U128): (r: Result<RestoralTargetInfo>)
    ensures rec.None? ==> r == Err(NotExisted)
    ensures rec.Some? ==> (r.Ok? <==> rec.value.restoredSpace + amount <= U128_MAX)
    ensures rec.Some? && r.Err? ==> r.error == Overflow
    ensures r.Ok? ==>
      r.value.restoredSpace == rec.value.restoredSpace + amount &&
      r.value.serviceSpace == rec.value.serviceSpace
  {
    if rec.None? then Err(NotExisted)
    else if rec.value.restoredSpace + amount > U128_MAX then Err(Overflow)
    else Ok(rec.value.(restoredSpace := rec.value.restoredSpace + amount))
  }

  // ---------------------------------------------------------------------------
  // Properties across calls.
  // ---------------------------------------------------------------------------

  /** A growth that was applied cannot be applied again: the stale `rear` is refused. */
  lemma GrowthReplayRejected(m: MinerInfo, segSize: U128, acc: Accumulator, checkFront: U64,
                             rear: U64, sig: TeeSig, acc': Accumulator, rear': U64, sig': TeeSig)
    requires AddIdleSpace(Some(m), segSize, acc, checkFront, rear, sig).Ok?
    requires rear' <= rear
    ensures AddIdleSpace(Some(AddIdleSpace(Some(m), segSize, acc, checkFront, rear, sig).value.0),
                         segSize, acc', checkFront, rear', sig') == Err(CountError)
  {
  }

  /** A retirement that was applied cannot be applied again: the stale `front` is refused. */
  lemma RetirementReplayRejected(m: MinerInfo, acc: Accumulator, front: U64, checkRear: U64,
                                 sig: TeeSig, acc': Accumulator, front': U64, sig': TeeSig)
    requires DeleteIdleUpdateAccu(Some(m), acc, front, checkRear, sig).Ok?
    requires front' <= front
    ensures DeleteIdleUpdateAccu(Some(DeleteIdleUpdateAccu(Some(m), acc, front, checkRear, sig).value.0),
                                 acc', front', checkRear, sig') == Err(CountError)
  {
  }

  /** Releasing exactly the bytes a growth added restores the idle space it started from. */
  lemma ShrinkUndoesGrowth(m: MinerInfo, segSize: U128, acc: Accumulator, checkFront: U64, rear: U64, sig: TeeSig)
    requires AddIdleSpace(Some(m), segSize, acc, checkFront, rear, sig).Ok?
    ensures
      var (m', added) := AddIdleSpace(Some(m), segSize, acc, checkFront, rear, sig).value;
      DeleteIdleUpdateSpace(Some(m'), added).Ok? &&
      DeleteIdleUpdateSpace(Some(m'), added).value.idleSpace == m.idleSpace
  {
  }

  /** Adding and then subtracting the same service increment gives back the record. */
  lemma ServiceRoundTrip(m: MinerInfo, increment: U128)
    requires AddServiceSpace(Some(m), increment).Ok?
    ensures SubServiceSpace(Some(AddServiceSpace(Some(m), increment).value), increment) == Ok(m)
  {
  }

  /** Shrinking idle or service space keeps certified space within the declaration. */
  lemma ShrinksKeepDeclaration(m: MinerInfo, amount: U128)
    requires WithinDeclaration(m)
    ensures DeleteIdleUpdateSpace(Some(m), amount).Ok? ==> WithinDeclaration(DeleteIdleUpdateSpace(Some(m), amount).value)
    ensures SubServiceSpace(Some(m), amount).Ok? ==> WithinDeclaration(SubServiceSpace(Some(m), amount).value)
  {
  }

  /** Growing the service space does not re-check the declared space. */
  lemma ServiceGrowthUnbounded()
    ensures exists m: MinerInfo ::
      (WithinDeclaration(m) && AddServiceSpace(Some(m), 1).Ok? &&
       !WithinDeclaration(AddServiceSpace(Some(m), 1).value))
  {
    var m := MinerInfo([], 0, STATE_POSITIVE, 0, 0, 0, 0, None, BloomFilter({}, 0), []);
    assert AddServiceSpace(Some(m), 1).value.serviceSpace == 1;
  }

  /** Retirement accepts a `front` beyond `rear`, leaving the cursor out of order. */
  lemma RetirementCanPassRear()
    ensures exists m: MinerInfo ::
      (CursorOrdered(m) && DeleteIdleUpdateAccu(Some(m), [], 20, 10, []).Ok? &&
       !CursorOrdered(DeleteIdleUpdateAccu(Some(m), [], 20, 10, []).value.0))
  {
    var spi := SpaceProofInfo(0, 10, [], []);
    var m := MinerInfo([], 0, STATE_POSITIVE, 0, 0, 0, 0, Some(spi), BloomFilter({}, 0), []);
    assert DeleteIdleUpdateAccu(Some(m), [], 20, 10, []).value.0.spaceProofInfo.value.front == 20;
  }

  /** An example: committing segments 10..15 of 100 bytes each adds 500 idle bytes. */
  lemma GrowthExample()
    ensures
      var m := MinerInfo([], 0, STATE_POSITIVE, 1000, 0, 0, 0,
                         Some(SpaceProofInfo(0, 10, [], [])), BloomFilter({}, 0), []);
      var r := AddIdleSpace(Some(m), 100, [], 0, 15, []);
      r.Ok? && r.value.1 == 500 && r.value.0.idleSpace == 500 && r.value.0.spaceProofInfo.value.rear == 15
  {
  }

  // ---------------------------------------------------------------------------
  // Sequences of cursor updates.
  // ---------------------------------------------------------------------------

  /** One proof-of-space cursor update as the pallet receives it. */
  datatype CursorUpdate =
    | Grow(growAcc: Accumulator, checkFront: U64, rear: U64, growSig: TeeSig)
    | Retire(retireAcc: Accumulator, front: U64, checkRear: U64, retireSig: TeeSig)

  /** Apply the updates in order; the first failure ends the run. */
  function ApplyUpdates(m: MinerInfo, segSize: U128, ups: seq<CursorUpdate>): (r: Result<MinerInfo>)
    decreases |ups|
  {
    if ups == [] then Ok(m)
    else
      var step := match ups[0]
        case Grow(a, cf, r, s) =>
          (match AddIdleSpace(Some(m), segSize, a, cf, r, s)
             case Ok(p) => Ok(p.0)
             case Err(e) => Err(e))
        case Retire(a, f, cr, s) =>
          (match DeleteIdleUpdateAccu(Some(m), a, f, cr, s)
             case Ok(p) => Ok(p.0)
             case Err(e) => Err(e));
      match step
        case Err(e) => Err(e)
        case Ok(m') => ApplyUpdates(m', segSize, ups[1..])
  }

  /** Every retirement asks to retire no further than the cursor's rear. */
  predicate RetiresWithinRear(ups: seq<CursorUpdate>) {
    forall i :: 0 <= i < |ups| && ups[i].Retire? ==> ups[i].front <= ups[i].checkRear
  }

  lemma DistributeSeg(seg: nat, a: nat, b: nat, c: nat)
    requires a <= b <= c
    ensures seg * (b - a) + seg * (c - b) == seg * (c - a)
  {
  }

  /**
   * Over any run of successful cursor updates: the declaration bound and the cursor
   * order are kept, provided retirements stay within the rear, and the idle space
   * grows by exactly one segment per committed segment.
   */
  lemma {:induction false} UpdatesKeepLedger(m: MinerInfo, segSize: U128, ups: seq<CursorUpdate>)
    requires m.spaceProofInfo.Some? && CursorOrdered(m) && WithinDeclaration(m)
    requires RetiresWithinRear(ups)
    requires ApplyUpdates(m, segSize, ups).Ok?
    ensures
      var m' := ApplyUpdates(m, segSize, ups).value;
      && m'.spaceProofInfo.Some?
      && CursorOrdered(m')
      && WithinDeclaration(m')
      && m.spaceProofInfo.value.rear <= m'.spaceProofInfo.value.rear
      && m'.idleSpace == m.idleSpace + segSize * (m'.spaceProofInfo.value.rear - m.spaceProofInfo.value.rear)
    decreases |ups|
  {
    if ups == [] {
    } else {
      var next: MinerInfo;
      match ups[0] {
        case Grow(a, cf, r, s) =>
          next := AddIdleSpace(Some(m), segSize, a, cf, r, s).value.0;
        case Retire(a, f, cr, s) =>
          next := DeleteIdleUpdateAccu(Some(m), a, f, cr, s).value.0;
          assert ups[0].front <= ups[0].checkRear;
      }
      assert ApplyUpdates(m, segSize, ups) == ApplyUpdates(next, segSize, ups[1..]);
      assert RetiresWithinRear(ups[1..]) by {
        forall i | 0 <= i < |ups[1..]| && ups[1..][i].Retire?
          ensures ups[1..][i].front <= ups[1..][i].checkRear
        {
          assert ups[1..][i] == ups[i + 1];
        }
      }
      UpdatesKeepLedger(next, segSize, ups[1..]);
      var m' := ApplyUpdates(next, segSize, ups[1..]).value;
      DistributeSeg(segSize, m.spaceProofInfo.value.rear, next.spaceProofInfo.value.rear, m'.spaceProofInfo.value.rear);
    }
  }
}
