/** `process_unstake`: a wallet asks to withdraw part of its stake. After
    the checks, the handler records a pending-withdrawal marker (amount and
    release time two seconds from now) instead of moving tokens; the pool
    and user records are written back as they were read. */
module Unstake {
  import opened Types
  import opened State
  import opened Accounts

  /** Seconds between an unstake request and its release time. */
  const UNSTAKE_DELAY: i64 := 2

  /** The accounts of the instruction, by role (the staking vault, the
      wallet's token account and the pool signer are passed but not read),
      plus the pending-withdrawal marker kept beside the user record. */
  datatype UnstakeAccounts = UnstakeAccounts(
    userWallet: AccountInfo,
    userStorage: AccountInfo,
    poolStorage: AccountInfo,
    tokenProgram: Pubkey,
    pending: PendingWithdrawal)

  datatype UnstakeOutcome = UnstakeOutcome(poolData: seq<u8>, userData: seq<u8>, pending: PendingWithdrawal)

  /** Every condition under which the request succeeds, order aside. */
  predicate UnstakeAllowed(rt: Runtime, a: UnstakeAccounts, amount: u64) {
    && a.userWallet.isSigner
    && a.tokenProgram == rt.tokenProgramId
    && amount != 0
    && UserStorageAddress(rt, a.userWallet.key, a.poolStorage.key) == a.userStorage.key
    && |a.poolStorage.data| == POOL_STORAGE_TOTAL_BYTES
    && DecodePool(a.poolStorage.data).accType == POOL_TAG
    && |a.userStorage.data| == USER_STORAGE_TOTAL_BYTES
    && var user := DecodeUser(a.userStorage.data);
    && user.accType == USER_TAG
    && user.userWallet == a.userWallet.key
    && user.pool == a.poolStorage.key
    && amount <= user.balanceStaked
  }

  /** The handler. On success both records are written back byte for byte
      as they were read (the balance, pending reward and checkpoint are
      untouched, and the pool's accumulator is not synchronised), and the
      marker holds the requested amount, at most the staked balance, released
      two seconds from now. */
  function ProcessUnstake(rt: Runtime, a: UnstakeAccounts, amount: u64): (r: Result<UnstakeOutcome>)
    ensures r.Ok? <==> UnstakeAllowed(rt, a, amount)
    ensures r.Ok? ==> r.value.poolData == a.poolStorage.data && r.value.userData == a.userStorage.data
    ensures r.Ok? ==>
      && r.value.pending.unstakePending == amount
      && 0 < amount <= DecodeUser(a.userStorage.data).balanceStaked
      && (rt.now + UNSTAKE_DELAY < I64_LIMIT ==> r.value.pending.unstakePendingDate == rt.now + UNSTAKE_DELAY)
  {
    var derived := UserStorageAddress(rt, a.userWallet.key, a.poolStorage.key);
    :- Require(a.userWallet.isSigner, MissingRequiredSignature);
    :- Require(a.tokenProgram == rt.tokenProgramId, InvalidTokenProgram);
    :- Require(amount != 0, AmountMustBeGreaterThanZero);
    :- Require(derived == a.userStorage.key, InvalidSeeds);
    :- Require(|a.poolStorage.data| == POOL_STORAGE_TOTAL_BYTES, DataSizeNotMatched);
    var pool := DecodePool(a.poolStorage.data);
    :- Require(pool.accType == POOL_TAG, ExpectedAccountTypeMismatched);
    :- Require(|a.userStorage.data| == USER_STORAGE_TOTAL_BYTES, DataSizeNotMatched);
    var user := DecodeUser(a.userStorage.data);
    :- Require(user.accType == USER_TAG, ExpectedAccountTypeMismatched);
    :- Require(user.userWallet == a.userWallet.key, UserStorageAuthorityMismatched);
    :- Require(user.pool == a.poolStorage.key, UserPoolMismatched);
    :- Require(amount <= user.balanceStaked, InsufficientFundsToUnstake);
    var date := WrappingAddI64(rt.now, UNSTAKE_DELAY);
    assert rt.now + UNSTAKE_DELAY < I64_LIMIT ==> date == rt.now + UNSTAKE_DELAY;
    var marker := PendingWithdrawal(amount, date);
    PoolBytesRoundTrip(a.poolStorage.data);
    UserBytesRoundTrip(a.userStorage.data);
    Ok(UnstakeOutcome(EncodePool(pool), EncodeUser(user), marker))
  }

  /** The checks run in source order and the first one that fails decides
      the error: signature, token program, non-zero amount, derived address. */
  lemma UnstakeCheckOrder(rt: Runtime, a: UnstakeAccounts, amount: u64)
    ensures !a.userWallet.isSigner ==> ProcessUnstake(rt, a, amount) == Err(MissingRequiredSignature)
    ensures (a.userWallet.isSigner && a.tokenProgram != rt.tokenProgramId) ==>
      ProcessUnstake(rt, a, amount) == Err(InvalidTokenProgram)
    ensures (a.userWallet.isSigner && a.tokenProgram == rt.tokenProgramId && amount == 0) ==>
      ProcessUnstake(rt, a, amount) == Err(AmountMustBeGreaterThanZero)
    ensures (a.userWallet.isSigner && a.tokenProgram == rt.tokenProgramId && amount != 0
             && UserStorageAddress(rt, a.userWallet.key, a.poolStorage.key) != a.userStorage.key) ==>
      ProcessUnstake(rt, a, amount) == Err(InvalidSeeds)
  {
  }

  /** After those, the record checks: pool size and tag, user size and tag,
      user's wallet, user's pool, and finally the balance guard. */
  lemma UnstakeRecordChecks(rt: Runtime, a: UnstakeAccounts, amount: u64)
    requires a.userWallet.isSigner && a.tokenProgram == rt.tokenProgramId && amount != 0
    requires UserStorageAddress(rt, a.userWallet.key, a.poolStorage.key) == a.userStorage.key
    ensures |a.poolStorage.data| != POOL_STORAGE_TOTAL_BYTES ==>
      ProcessUnstake(rt, a, amount) == Err(DataSizeNotMatched)
    ensures (|a.poolStorage.data| == POOL_STORAGE_TOTAL_BYTES
             && DecodePool(a.poolStorage.data).accType != POOL_TAG) ==>
      ProcessUnstake(rt, a, amount) == Err(ExpectedAccountTypeMismatched)
    ensures (|a.poolStorage.data| == POOL_STORAGE_TOTAL_BYTES
             && DecodePool(a.poolStorage.data).accType == POOL_TAG
             && |a.userStorage.data| != USER_STORAGE_TOTAL_BYTES) ==>
      ProcessUnstake(rt, a, amount) == Err(DataSizeNotMatched)
  {
  }

  lemma UnstakeUserChecks(rt: Runtime, a: UnstakeAccounts, amount: u64)
    requires a.userWallet.isSigner && a.tokenProgram == rt.tokenProgramId && amount != 0
    requires UserStorageAddress(rt, a.userWallet.key, a.poolStorage.key) == a.userStorage.key
    requires |a.poolStorage.data| == POOL_STORAGE_TOTAL_BYTES
    requires DecodePool(a.poolStorage.data).accType == POOL_TAG
    requires |a.userStorage.data| == USER_STORAGE_TOTAL_BYTES
    ensures
      var user := DecodeUser(a.userStorage.data);
      && (user.accType != USER_TAG ==> ProcessUnstake(rt, a, amount) == Err(ExpectedAccountTypeMismatched))
      && ((user.accType == USER_TAG && user.userWallet != a.userWallet.key) ==>
            ProcessUnstake(rt, a, amount) == Err(UserStorageAuthorityMismatched))
      && ((user.accType == USER_TAG && user.userWallet == a.userWallet.key
           && user.pool != a.poolStorage.key) ==>
            ProcessUnstake(rt, a, amount) == Err(UserPoolMismatched))
      && ((user.accType == USER_TAG && user.userWallet == a.userWallet.key
           && user.pool == a.poolStorage.key) ==>
            (ProcessUnstake(rt, a, amount) == Err(InsufficientFundsToUnstake) <==> user.balanceStaked < amount))
  {
  }

  /** A new request replaces any earlier pending withdrawal rather than
      adding to it: the outcome does not depend on the marker already there. */
  lemma UnstakeReplacesMarker(rt: Runtime, a: UnstakeAccounts, earlier: PendingWithdrawal, amount: u64)
    ensures ProcessUnstake(rt, a.(pending := earlier), amount) == ProcessUnstake(rt, a, amount)
  {
  }
}
