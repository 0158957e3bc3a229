/** Reward arithmetic and account reclaiming: the per-share accumulator
    update, a participant's accrued credit, the reward-applicable time, and
    closing an account into another. The sums, differences and products are
    the program's checked u64/u128 arithmetic, where overflow is an
    `AmountOverflow` error. Two steps are not checked that way: `earned`
    converts its credit with a truncating `as u64`, and the reward-applicable
    time unwraps the clock's conversion to u64, so a negative clock panics. */
module Utils {
  import opened Types
  import opened Accounts

  /** Fixed-point scale of the reward-per-token accumulator: `u64::MAX`. */
  const PRECISION: u128 := U64_MAX

  /** Shortest reward programme a pool may be initialised with (one day).
      Pool initialisation is not part of this model. */
  const MIN_DURATION: u64 := 86400

  // ---------------------------------------------------------------------------
  // Checked arithmetic

  function CheckedAddU64(a: u64, b: u64): Result<u64> {
    if a + b <= U64_MAX then Ok(a + b) else Err(AmountOverflow)
  }

  function CheckedAddU128(a: u128, b: u128): Result<u128> {
    if a + b <= U128_MAX then Ok(a + b) else Err(AmountOverflow)
  }

  function CheckedSubU128(a: u128, b: u128): Result<u128> {
    if b <= a then Ok(a - b) else Err(AmountOverflow)
  }

  function CheckedMulU128(a: u128, b: u128): Result<u128> {
    if a * b <= U128_MAX then Ok(a * b) else Err(AmountOverflow)
  }

  /** `x as u64` for a `u128`: keeps the low 64 bits. */
  function TruncateU64(x: u128): u64 {
    x % U64_LIMIT
  }

  // ---------------------------------------------------------------------------
  // Monotonicity of multiplication and division

  lemma MulLeftMonotone(a: nat, x: nat, y: nat)
    requires x <= y
    ensures a * x <= a * y
  {
  }

  lemma MulLeftMonotoneWhen(a: nat, x: nat, y: nat)
    ensures x <= y ==> a * x <= a * y
  {
    if x <= y {
      MulLeftMonotone(a, x, y);
    }
  }

  lemma MulRightMonotone(x: nat, y: nat, a: nat)
    requires x <= y
    ensures x * a <= y * a
  {
  }

  lemma DivMonotone(x: nat, y: nat, d: nat)
    requires d > 0 && x <= y
    ensures x / d <= y / d
  {
    var q := y / d;
    MulLeftMonotoneWhen(d, q + 1, x / d);
    assert x < d * (q + 1);
  }

  /** Dividing by a positive divisor never increases a natural number. */
  lemma QuotientAtMost(x: nat, d: nat)
    requires d > 0
    ensures x / d <= x
  {
    MulLeftMonotone(d, 1, d);
  }

  /** The product of two u64 values always fits in a u128. */
  lemma ProductOfU64sFits(a: u64, b: u64)
    ensures a * b <= U128_MAX
  {
    MulRightMonotone(a, U64_MAX, b);
    MulLeftMonotone(U64_MAX, b, U64_MAX);
  }

  // ---------------------------------------------------------------------------
  // Reward arithmetic

  /** `rewards_per_token`: the accumulator after the interval from
      `lastUpdateTime` to `lastApplicable`, when `totalStaked` tokens share
      `rate` reward units per second. */
  function RewardsPerToken(
    totalStaked: u64, lastApplicable: u64, lastUpdateTime: u64, rate: u64, stored: u128): (r: Result<u128>)
    ensures totalStaked == 0 ==> r == Ok(stored)
    ensures totalStaked > 0 && lastApplicable < lastUpdateTime ==> r == Err(AmountOverflow)
    ensures r.Err? ==> r.error == AmountOverflow
    ensures r.Ok? <==>
      || totalStaked == 0
      || (&& lastUpdateTime <= lastApplicable
          && rate * (lastApplicable - lastUpdateTime) * PRECISION <= U128_MAX
          && stored + rate * (lastApplicable - lastUpdateTime) * PRECISION / totalStaked <= U128_MAX)
    ensures r.Ok? && totalStaked > 0 ==>
      r.value == stored + rate * (lastApplicable - lastUpdateTime) * PRECISION / totalStaked
    ensures r.Ok? ==> r.value >= stored
  {
    if totalStaked == 0 then Ok(stored)
    else
      var elapsed :- CheckedSubU128(lastApplicable, lastUpdateTime);
      // Neither `checked_mul` of two u64 values nor `checked_div` by a
      // non-zero divisor can fail, so those two steps are plain arithmetic.
      ProductOfU64sFits(rate, elapsed);
      var accrued := rate * elapsed;
      var scaled :- CheckedMulU128(accrued, PRECISION);
      QuotientAtMost(scaled, totalStaked);
      CheckedAddU128(stored, scaled / totalStaked)
  }

  /** With no time elapsed the accumulator does not move, whoever is staked. */
  lemma RewardsPerTokenNoElapsedTime(totalStaked: u64, t: u64, rate: u64, stored: u128)
    ensures RewardsPerToken(totalStaked, t, t, rate, stored) == Ok(stored)
  {
  }

  /** The accumulator is non-decreasing in the applicable time: a later time
      never yields a smaller accumulator, and if the later time does not
      overflow neither does the earlier one. */
  lemma {:induction false} RewardsPerTokenMonotoneInTime(
    totalStaked: u64, t1: u64, t2: u64, lastUpdateTime: u64, rate: u64, stored: u128)
    requires lastUpdateTime <= t1 <= t2
    requires RewardsPerToken(totalStaked, t2, lastUpdateTime, rate, stored).Ok?
    ensures RewardsPerToken(totalStaked, t1, lastUpdateTime, rate, stored).Ok?
    ensures RewardsPerToken(totalStaked, t1, lastUpdateTime, rate, stored).value
         <= RewardsPerToken(totalStaked, t2, lastUpdateTime, rate, stored).value
  {
    if totalStaked > 0 {
      var e1 := t1 - lastUpdateTime;
      var e2 := t2 - lastUpdateTime;
      MulLeftMonotone(rate, e1, e2);
      MulRightMonotone(rate * e1, rate * e2, PRECISION);
      DivMonotone(rate * e1 * PRECISION, rate * e2 * PRECISION, totalStaked);
    }
  }

  /** `earned`, as written: `pending` plus the credit accrued since the
      participant's checkpoint, where the `as u64` conversion of the credit
      keeps only its low 64 bits. */
  function Earned(balance: u64, accumulator: u128, checkpoint: u128, pending: u64): (r: Result<u64>)
    ensures accumulator < checkpoint ==> r == Err(AmountOverflow)
    ensures accumulator == checkpoint ==> r == Ok(pending)
    ensures r.Err? ==> r.error == AmountOverflow
    ensures r.Ok? <==>
      && checkpoint <= accumulator
      && balance * (accumulator - checkpoint) <= U128_MAX
      && pending + (balance * (accumulator - checkpoint) / PRECISION) % U64_LIMIT <= U64_MAX
    ensures r.Ok? ==> r.value == pending + (balance * (accumulator - checkpoint) / PRECISION) % U64_LIMIT
    ensures r.Ok? ==> r.value >= pending
  {
    var diff :- CheckedSubU128(accumulator, checkpoint);
    var product :- CheckedMulU128(balance, diff);
    var credit := product / PRECISION;
    assert credit <= product;
    CheckedAddU64(pending, TruncateU64(credit))
  }

  /** `earned` with the conversion to u64 checked, as the rest of the
      function's checked arithmetic evidently intends. */
  function EarnedChecked(balance: u64, accumulator: u128, checkpoint: u128, pending: u64): (r: Result<u64>)
    ensures accumulator < checkpoint ==> r == Err(AmountOverflow)
    ensures accumulator == checkpoint ==> r == Ok(pending)
    ensures r.Err? ==> r.error == AmountOverflow
    ensures r.Ok? <==>
      && checkpoint <= accumulator
      && balance * (accumulator - checkpoint) <= U128_MAX
      && pending + balance * (accumulator - checkpoint) / PRECISION <= U64_MAX
    ensures r.Ok? ==> r.value == pending + balance * (accumulator - checkpoint) / PRECISION
  {
    var diff :- CheckedSubU128(accumulator, checkpoint);
    var product :- CheckedMulU128(balance, diff);
    var credit := product / PRECISION;
    if credit > U64_MAX then Err(AmountOverflow)
    else CheckedAddU64(pending, credit)
  }

  /** Whenever the credit fits in 64 bits the two definitions agree. */
  lemma EarnedAgreesWithoutTruncation(balance: u64, accumulator: u128, checkpoint: u128, pending: u64)
    requires checkpoint <= accumulator
    requires balance * (accumulator - checkpoint) / PRECISION <= U64_MAX
    ensures Earned(balance, accumulator, checkpoint, pending) == EarnedChecked(balance, accumulator, checkpoint, pending)
  {
    var credit := balance * (accumulator - checkpoint) / PRECISION;
    assert TruncateU64(credit) == credit;
  }

  /** The corrected credit is non-decreasing in the accumulator: a larger
      accumulator never yields less credit, and if it does not overflow
      neither does a smaller one. */
  lemma {:induction false} EarnedCheckedMonotone(
    balance: u64, a1: u128, a2: u128, checkpoint: u128, pending: u64)
    requires checkpoint <= a1 <= a2
    requires EarnedChecked(balance, a2, checkpoint, pending).Ok?
    ensures EarnedChecked(balance, a1, checkpoint, pending).Ok?
    ensures EarnedChecked(balance, a1, checkpoint, pending).value
         <= EarnedChecked(balance, a2, checkpoint, pending).value
  {
    MulLeftMonotone(balance, a1 - checkpoint, a2 - checkpoint);
    DivMonotone(balance * (a1 - checkpoint), balance * (a2 - checkpoint), PRECISION);
  }

  /** As written, `earned` is not monotone in the accumulator: with the
      largest balance, an accumulator one unit past 2^64 - 1 turns a credit
      of 2^64 - 1 into a credit of 0, because the quotient 2^64 is truncated
      to 64 bits. The checked version reports the overflow instead. */
  lemma EarnedTruncationCounterexample()
    ensures Earned(U64_MAX, U64_MAX, 0, 0) == Ok(U64_MAX)
    ensures Earned(U64_MAX, U64_LIMIT, 0, 0) == Ok(0)
    ensures EarnedChecked(U64_MAX, U64_LIMIT, 0, 0) == Err(AmountOverflow)
  {
    assert U64_MAX * U64_LIMIT / PRECISION == U64_LIMIT;
    assert U64_MAX * U64_MAX / PRECISION == U64_MAX;
  }

  /** `last_time_reward_applicable`: the reward clock stops at the end of the
      reward programme. The conversion of the clock to u64 is unwrapped, so a
      negative clock panics. */
  function LastTimeRewardApplicable(rewardDurationEnd: u64, now: i64): (r: Result<u64>)
    ensures r.Err? <==> now < 0
    ensures r.Err? ==> r.error == Panicked
    ensures r.Ok? ==> r.value <= now && r.value <= rewardDurationEnd
    ensures r.Ok? ==> r.value == now || r.value == rewardDurationEnd
  {
    if now < 0 then Err(Panicked)
    else if now <= rewardDurationEnd then Ok(now)
    else Ok(rewardDurationEnd)
  }

  // ---------------------------------------------------------------------------
  // Reclaiming an account

  datatype Closed = Closed(closed: AccountInfo, receiver: AccountInfo)

  /** `close_account`: moves every lamport of `toClose` into `receiver` and
      empties `toClose`'s data. The two accounts are taken to be distinct. */
  function CloseAccount(toClose: AccountInfo, receiver: AccountInfo): (r: Result<Closed>)
    ensures r.Ok? <==> receiver.lamports + toClose.lamports <= U64_MAX
    ensures r.Err? ==> r.error == AmountOverflow
    ensures r.Ok? ==>
      && r.value.closed.lamports + r.value.receiver.lamports == toClose.lamports + receiver.lamports
      && r.value.closed.lamports == 0
      && r.value.closed.data == []
      && r.value.receiver.data == receiver.data
      && r.value.closed.key == toClose.key && r.value.receiver.key == receiver.key
      && r.value.closed.owner == toClose.owner && r.value.receiver.owner == receiver.owner
      && r.value.closed.isSigner == toClose.isSigner && r.value.receiver.isSigner == receiver.isSigner
  {
    var total :- CheckedAddU64(receiver.lamports, toClose.lamports);
    Ok(Closed(toClose.(lamports := 0, data := []), receiver.(lamports := total)))
  }
}
