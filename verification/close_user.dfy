/** `process_close_user`: a wallet closes its empty user slot in a pool. The
    handler checks the slot's derived address and both records, takes the
    slot off the pool's count, and reclaims the slot account's lamports. */
module CloseUser {
  import opened Types
  import opened State
  import opened Accounts
  import opened Utils

  /** The accounts of the instruction, by role (the handler reads only the
      first three). */
  datatype CloseUserAccounts = CloseUserAccounts(
    userWallet: AccountInfo,
    userStorage: AccountInfo,
    poolStorage: AccountInfo)

  /** The three accounts as the handler leaves them. */
  datatype CloseUserOutcome = CloseUserOutcome(
    userWallet: AccountInfo,
    userStorage: AccountInfo,
    poolStorage: AccountInfo)

  /** The pool record with one user slot fewer. `user_stake_count -= 1` is
      unchecked u32 arithmetic, so an empty count wraps to `u32::MAX`. */
  function SlotReleased(pool: Pool): (p: Pool)
    ensures pool.userStakeCount >= 1 ==> p.userStakeCount == pool.userStakeCount - 1
    ensures pool.userStakeCount == 0 ==> p.userStakeCount == U32_LIMIT - 1
    ensures p.(userStakeCount := pool.userStakeCount) == pool
  {
    pool.(userStakeCount := WrappingSubU32(pool.userStakeCount, 1))
  }

  /** Every condition under which the close succeeds, order aside. */
  predicate CloseAllowed(rt: Runtime, a: CloseUserAccounts) {
    && a.userWallet.isSigner
    && UserStorageAddress(rt, a.userWallet.key, a.poolStorage.key) == a.userStorage.key
    && |a.poolStorage.data| == POOL_STORAGE_TOTAL_BYTES
    && DecodePool(a.poolStorage.data).accType == POOL_TAG
    && |a.userStorage.data| == USER_STORAGE_TOTAL_BYTES
    && var user := DecodeUser(a.userStorage.data);
    && user.accType == USER_TAG
    && user.userWallet == a.userWallet.key
    && user.pool == a.poolStorage.key
    && user.balanceStaked == 0
    && user.rewardPerTokenPending == 0
    && a.userWallet.lamports + a.userStorage.lamports <= U64_MAX
  }

  /** The handler. On success the pool record loses exactly one slot and
      nothing else changes, and the slot's lamports move to the wallet and its
      data is emptied, both accounts keeping their keys, owners and signer
      flags. */
  function ProcessCloseUser(rt: Runtime, a: CloseUserAccounts): (r: Result<CloseUserOutcome>)
    ensures r.Ok? <==> CloseAllowed(rt, a)
    ensures r.Ok? ==>
      && |r.value.poolStorage.data| == POOL_STORAGE_TOTAL_BYTES
      && DecodePool(r.value.poolStorage.data) == SlotReleased(DecodePool(a.poolStorage.data))
      && r.value.poolStorage.(data := a.poolStorage.data) == a.poolStorage
    ensures r.Ok? ==>
      && r.value.userStorage.lamports == 0
      && r.value.userStorage.data == []
      && r.value.userStorage.(lamports := a.userStorage.lamports, data := a.userStorage.data) == a.userStorage
      && r.value.userWallet.lamports + r.value.userStorage.lamports
         == a.userWallet.lamports + a.userStorage.lamports
      && r.value.userWallet.(lamports := a.userWallet.lamports) == a.userWallet
  {
    var derived := UserStorageAddress(rt, a.userWallet.key, a.poolStorage.key);
    :- Require(a.userWallet.isSigner, MissingRequiredSignature);
    :- Require(derived == a.userStorage.key, InvalidSeeds);
    :- Require(|a.poolStorage.data| == POOL_STORAGE_TOTAL_BYTES, DataSizeNotMatched);
    var pool := DecodePool(a.poolStorage.data);
    :- Require(pool.accType == POOL_TAG, ExpectedAccountTypeMismatched);
    // The decremented pool is written here, before the user checks; a later
    // failure aborts the instruction and the host discards this write.
    var released := SlotReleased(pool);
    PoolRoundTrip(released);
    var poolStorage := a.poolStorage.(data := EncodePool(released));
    :- Require(|a.userStorage.data| == USER_STORAGE_TOTAL_BYTES, DataSizeNotMatched);
    var user := DecodeUser(a.userStorage.data);
    :- Require(user.accType == USER_TAG, ExpectedAccountTypeMismatched);
    :- Require(user.userWallet == a.userWallet.key, UserStorageAuthorityMismatched);
    :- Require(user.pool == a.poolStorage.key, UserPoolMismatched);
    :- Require(user.balanceStaked == 0 && user.rewardPerTokenPending == 0, UserBalanceNonZero);
    match CloseAccount(a.userStorage, a.userWallet)
    case Err(_) => Err(Panicked)
    case Ok(closed) => Ok(CloseUserOutcome(closed.receiver, closed.closed, poolStorage))
  }

  /** The checks run in source order and the first one that fails decides
      the error: signature, derived address, pool size and tag, user size and
      tag, user's wallet, user's pool, and the zero-balance guard. */
  lemma CloseUserCheckOrder(rt: Runtime, a: CloseUserAccounts)
    ensures !a.userWallet.isSigner ==> ProcessCloseUser(rt, a) == Err(MissingRequiredSignature)
    ensures (a.userWallet.isSigner
             && UserStorageAddress(rt, a.userWallet.key, a.poolStorage.key) != a.userStorage.key) ==>
      ProcessCloseUser(rt, a) == Err(InvalidSeeds)
    ensures (a.userWallet.isSigner
             && UserStorageAddress(rt, a.userWallet.key, a.poolStorage.key) == a.userStorage.key
             && |a.poolStorage.data| != POOL_STORAGE_TOTAL_BYTES) ==>
      ProcessCloseUser(rt, a) == Err(DataSizeNotMatched)
    ensures (a.userWallet.isSigner
             && UserStorageAddress(rt, a.userWallet.key, a.poolStorage.key) == a.userStorage.key
             && |a.poolStorage.data| == POOL_STORAGE_TOTAL_BYTES
             && DecodePool(a.poolStorage.data).accType != POOL_TAG) ==>
      ProcessCloseUser(rt, a) == Err(ExpectedAccountTypeMismatched)
  {
  }

  lemma CloseUserRecordChecks(rt: Runtime, a: CloseUserAccounts)
    requires a.userWallet.isSigner
    requires UserStorageAddress(rt, a.userWallet.key, a.poolStorage.key) == a.userStorage.key
    requires |a.poolStorage.data| == POOL_STORAGE_TOTAL_BYTES
    requires DecodePool(a.poolStorage.data).accType == POOL_TAG
    ensures |a.userStorage.data| != USER_STORAGE_TOTAL_BYTES ==>
      ProcessCloseUser(rt, a) == Err(DataSizeNotMatched)
    ensures |a.userStorage.data| == USER_STORAGE_TOTAL_BYTES ==>
      var user := DecodeUser(a.userStorage.data);
      && (user.accType != USER_TAG ==> ProcessCloseUser(rt, a) == Err(ExpectedAccountTypeMismatched))
      && ((user.accType == USER_TAG && user.userWallet != a.userWallet.key) ==>
            ProcessCloseUser(rt, a) == Err(UserStorageAuthorityMismatched))
      && ((user.accType == USER_TAG && user.userWallet == a.userWallet.key
           && user.pool != a.poolStorage.key) ==>
            ProcessCloseUser(rt, a) == Err(UserPoolMismatched))
      && ((user.accType == USER_TAG && user.userWallet == a.userWallet.key
           && user.pool == a.poolStorage.key
           && (user.balanceStaked != 0 || user.rewardPerTokenPending != 0)) ==>
            ProcessCloseUser(rt, a) == Err(UserBalanceNonZero))
  {
  }
}
