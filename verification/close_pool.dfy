/** `process_close_pool`: the pool owner tears down a finished, empty pool.
    After a fixed chain of fail-fast checks the handler drains both vaults
    into refund accounts, closes both vaults to the owner, and clears the
    vault references in the pool record. */
module ClosePool {
  import opened Types
  import opened State
  import opened Accounts

  /** The accounts of the instruction, by role. */
  datatype ClosePoolAccounts = ClosePoolAccounts(
    ownerWallet: AccountInfo,
    stakingVault: VaultAccount,
    stakingRefund: Pubkey,
    rewardsVault: VaultAccount,
    rewardsRefund: Pubkey,
    poolStorage: AccountInfo,
    poolSignerAccount: Pubkey,
    tokenProgram: Pubkey)

  /** What a successful close leaves behind: the rewritten pool bytes and the
      token-program calls made, in order. */
  datatype ClosePoolOutcome = ClosePoolOutcome(poolData: seq<u8>, effects: seq<Effect>)

  /** The pool may be closed: its reward programme has a set end that lies
      strictly before now, no user slot is open and nothing is staked. */
  predicate ProgrammeOver(pool: Pool, staked: u64, clock: i64) {
    && 0 < pool.rewardDurationEnd
    && pool.rewardDurationEnd < AsU64(clock)
    && pool.userStakeCount == 0
    && staked == 0
  }

  /** A vault is the pool's: its token authority is the pool's derived signer
      and its address is the one recorded in the pool. */
  predicate VaultBound(rt: Runtime, poolKey: Pubkey, recorded: Pubkey, vault: VaultAccount, token: TokenAccount) {
    token.owner == PoolSigner(rt, poolKey) && recorded == vault.key
  }

  /** The pool record with both vault references cleared to the default key. */
  function Detached(pool: Pool): (p: Pool)
    ensures p.stakingVault == DEFAULT_KEY && p.rewardVault == DEFAULT_KEY
    ensures p.(stakingVault := pool.stakingVault, rewardVault := pool.rewardVault) == pool
  {
    pool.(stakingVault := DEFAULT_KEY, rewardVault := DEFAULT_KEY)
  }

  /** Every condition under which the close succeeds, order aside. */
  predicate CloseAllowed(rt: Runtime, a: ClosePoolAccounts) {
    && a.ownerWallet.isSigner
    && a.tokenProgram == rt.tokenProgramId
    && |a.poolStorage.data| == POOL_STORAGE_TOTAL_BYTES
    && var pool := DecodePool(a.poolStorage.data);
    && pool.accType == POOL_TAG
    && pool.ownerWallet == a.ownerWallet.key
    && a.stakingVault.owner == rt.tokenProgramId
    && a.stakingVault.token.Initialized?
    && a.rewardsVault.token.Initialized?
    && VaultBound(rt, a.poolStorage.key, pool.stakingVault, a.stakingVault, a.stakingVault.token.account)
    && VaultBound(rt, a.poolStorage.key, pool.rewardVault, a.rewardsVault, a.rewardsVault.token.account)
    && ProgrammeOver(pool, a.stakingVault.token.account.amount, rt.now)
  }

  /** The handler. Success is exactly the conjunction of the checks; on
      success the record keeps every field but the two vault references, and
      the vaults are drained (the staking vault holds nothing) and then
      closed to the owner, all under the pool's derived authority. */
  function ProcessClosePool(rt: Runtime, a: ClosePoolAccounts): (r: Result<ClosePoolOutcome>)
    ensures r.Ok? <==> CloseAllowed(rt, a)
    ensures r.Ok? ==>
      && |r.value.poolData| == POOL_STORAGE_TOTAL_BYTES
      && DecodePool(r.value.poolData) == Detached(DecodePool(a.poolStorage.data))
    ensures r.Ok? ==>
      var signer := PoolSigner(rt, a.poolStorage.key);
      var e := r.value.effects;
      && |e| == 4
      && e[0] == Transfer(a.stakingVault.key, a.stakingRefund, signer, 0)
      && e[1] == Transfer(a.rewardsVault.key, a.rewardsRefund, signer, a.rewardsVault.token.account.amount)
      && e[2] == CloseTokenAccount(a.stakingVault.key, a.ownerWallet.key, signer)
      && e[3] == CloseTokenAccount(a.rewardsVault.key, a.ownerWallet.key, signer)
  {
    var signer := PoolSigner(rt, a.poolStorage.key);
    :- Require(a.ownerWallet.isSigner, MissingRequiredSignature);
    :- Require(a.tokenProgram == rt.tokenProgramId, InvalidTokenProgram);
    :- Require(|a.poolStorage.data| == POOL_STORAGE_TOTAL_BYTES, DataSizeNotMatched);
    var pool := DecodePool(a.poolStorage.data);
    :- Require(pool.accType == POOL_TAG, ExpectedAccountTypeMismatched);
    :- Require(pool.ownerWallet == a.ownerWallet.key, PoolOwnerMismatched);
    :- Require(a.stakingVault.owner == a.tokenProgram, AccountOwnerShouldBeTokenProgram);
    var staking :- Unpack(a.stakingVault);
    :- Require(staking.owner == signer && pool.stakingVault == a.stakingVault.key, InvalidStakingVault);
    :- Require(ProgrammeOver(pool, staking.amount, rt.now), PoolStillActive);
    var drainStaking := Transfer(a.stakingVault.key, a.stakingRefund, signer, staking.amount);
    var rewards :- Unpack(a.rewardsVault);
    :- Require(rewards.owner == signer && pool.rewardVault == a.rewardsVault.key, InvalidRewardsVault);
    var drainRewards := Transfer(a.rewardsVault.key, a.rewardsRefund, signer, rewards.amount);
    var closeStaking := CloseTokenAccount(a.stakingVault.key, a.ownerWallet.key, signer);
    var closeRewards := CloseTokenAccount(a.rewardsVault.key, a.ownerWallet.key, signer);
    var detached := Detached(pool);
    PoolRoundTrip(detached);
    Ok(ClosePoolOutcome(EncodePool(detached), [drainStaking, drainRewards, closeStaking, closeRewards]))
  }

  /** The sum of the amounts moved by the transfers in a list of effects. */
  function TransferredTotal(e: seq<Effect>): nat {
    if e == [] then 0
    else TransferredTotal(e[..|e| - 1]) + (if e[|e| - 1].Transfer? then e[|e| - 1].amount else 0)
  }

  /** The checks run in source order and the first one that fails decides
      the error: signature, token program, record size, record tag, owner,
      staking vault's owning program. */
  lemma ClosePoolCheckOrder(rt: Runtime, a: ClosePoolAccounts)
    ensures !a.ownerWallet.isSigner ==> ProcessClosePool(rt, a) == Err(MissingRequiredSignature)
    ensures a.ownerWallet.isSigner && a.tokenProgram != rt.tokenProgramId ==>
      ProcessClosePool(rt, a) == Err(InvalidTokenProgram)
    ensures (a.ownerWallet.isSigner && a.tokenProgram == rt.tokenProgramId
             && |a.poolStorage.data| != POOL_STORAGE_TOTAL_BYTES) ==>
      ProcessClosePool(rt, a) == Err(DataSizeNotMatched)
    ensures (a.ownerWallet.isSigner && a.tokenProgram == rt.tokenProgramId
             && |a.poolStorage.data| == POOL_STORAGE_TOTAL_BYTES) ==>
              var pool := DecodePool(a.poolStorage.data);
              && (pool.accType != POOL_TAG ==> ProcessClosePool(rt, a) == Err(ExpectedAccountTypeMismatched))
              && ((pool.accType == POOL_TAG && pool.ownerWallet != a.ownerWallet.key) ==>
                    ProcessClosePool(rt, a) == Err(PoolOwnerMismatched))
              && ((pool.accType == POOL_TAG && pool.ownerWallet == a.ownerWallet.key
                   && a.stakingVault.owner != rt.tokenProgramId) ==>
                    ProcessClosePool(rt, a) == Err(AccountOwnerShouldBeTokenProgram))
  {
  }

  /** The vault checks: the staking vault is unpacked and bound to the pool
      before the activity guard runs, and the rewards vault only after it,
      so a wrong rewards vault is reported only for a finished pool. */
  lemma StakingVaultChecked(rt: Runtime, a: ClosePoolAccounts)
    requires ProcessClosePool(rt, a) == Err(InvalidStakingVault)
    ensures |a.poolStorage.data| == POOL_STORAGE_TOTAL_BYTES
    ensures a.stakingVault.token.Initialized?
    ensures !VaultBound(rt, a.poolStorage.key, DecodePool(a.poolStorage.data).stakingVault,
                        a.stakingVault, a.stakingVault.token.account)
  {
  }

  lemma StillActiveAfterStakingVault(rt: Runtime, a: ClosePoolAccounts)
    requires ProcessClosePool(rt, a) == Err(PoolStillActive)
    ensures |a.poolStorage.data| == POOL_STORAGE_TOTAL_BYTES
    ensures a.stakingVault.token.Initialized?
    ensures VaultBound(rt, a.poolStorage.key, DecodePool(a.poolStorage.data).stakingVault,
                       a.stakingVault, a.stakingVault.token.account)
    ensures !ProgrammeOver(DecodePool(a.poolStorage.data), a.stakingVault.token.account.amount, rt.now)
  {
  }

  lemma RewardsVaultCheckedLast(rt: Runtime, a: ClosePoolAccounts)
    requires ProcessClosePool(rt, a) == Err(InvalidRewardsVault)
    ensures |a.poolStorage.data| == POOL_STORAGE_TOTAL_BYTES
    ensures a.stakingVault.token.Initialized? && a.rewardsVault.token.Initialized?
    ensures ProgrammeOver(DecodePool(a.poolStorage.data), a.stakingVault.token.account.amount, rt.now)
    ensures !VaultBound(rt, a.poolStorage.key, DecodePool(a.poolStorage.data).rewardVault,
                        a.rewardsVault, a.rewardsVault.token.account)
  {
  }

  /** A pool with an open user slot cannot be closed, whatever else holds. */
  lemma OpenSlotKeepsPoolAlive(rt: Runtime, a: ClosePoolAccounts)
    requires |a.poolStorage.data| == POOL_STORAGE_TOTAL_BYTES
    requires DecodePool(a.poolStorage.data).userStakeCount != 0
    ensures ProcessClosePool(rt, a).Err?
  {
  }

  /** The first six checks pass: the signed owner, the token program, a
      374-byte pool record with the pool tag naming that owner, and a staking
      vault owned by the token program. From here the vaults decide. */
  predicate EarlyChecksPass(rt: Runtime, a: ClosePoolAccounts) {
    && a.ownerWallet.isSigner
    && a.tokenProgram == rt.tokenProgramId
    && |a.poolStorage.data| == POOL_STORAGE_TOTAL_BYTES
    && DecodePool(a.poolStorage.data).accType == POOL_TAG
    && DecodePool(a.poolStorage.data).ownerWallet == a.ownerWallet.key
    && a.stakingVault.owner == rt.tokenProgramId
  }

  /** After the first six checks, the staking vault decides the error in
      source order: its data must unpack, it must be bound to the pool, and
      then the programme must be over. An open user slot is therefore
      reported as `PoolStillActive`. */
  lemma StakingVaultDecides(rt: Runtime, a: ClosePoolAccounts)
    requires EarlyChecksPass(rt, a)
    ensures a.stakingVault.token.Malformed? ==> ProcessClosePool(rt, a) == Err(InvalidAccountData)
    ensures a.stakingVault.token.Uninitialized? ==> ProcessClosePool(rt, a) == Err(UninitializedAccount)
    ensures a.stakingVault.token.Initialized? ==>
      var pool := DecodePool(a.poolStorage.data);
      var staking := a.stakingVault.token.account;
      && (ProcessClosePool(rt, a) == Err(InvalidStakingVault)
          <==> !VaultBound(rt, a.poolStorage.key, pool.stakingVault, a.stakingVault, staking))
      && (VaultBound(rt, a.poolStorage.key, pool.stakingVault, a.stakingVault, staking) ==>
            && (ProcessClosePool(rt, a) == Err(PoolStillActive) <==> !ProgrammeOver(pool, staking.amount, rt.now))
            && (pool.userStakeCount != 0 ==> ProcessClosePool(rt, a) == Err(PoolStillActive)))
  {
  }

  /** For a finished pool with a bound staking vault, the rewards vault
      decides last: its data must unpack and it must be bound to the pool,
      and then the close succeeds. */
  lemma RewardsVaultDecides(rt: Runtime, a: ClosePoolAccounts)
    requires EarlyChecksPass(rt, a)
    requires a.stakingVault.token.Initialized?
    requires VaultBound(rt, a.poolStorage.key, DecodePool(a.poolStorage.data).stakingVault,
                        a.stakingVault, a.stakingVault.token.account)
    requires ProgrammeOver(DecodePool(a.poolStorage.data), a.stakingVault.token.account.amount, rt.now)
    ensures a.rewardsVault.token.Malformed? ==> ProcessClosePool(rt, a) == Err(InvalidAccountData)
    ensures a.rewardsVault.token.Uninitialized? ==> ProcessClosePool(rt, a) == Err(UninitializedAccount)
    ensures a.rewardsVault.token.Initialized? ==>
      var bound := VaultBound(rt, a.poolStorage.key, DecodePool(a.poolStorage.data).rewardVault,
                              a.rewardsVault, a.rewardsVault.token.account);
      && (ProcessClosePool(rt, a) == Err(InvalidRewardsVault) <==> !bound)
      && (ProcessClosePool(rt, a).Ok? <==> bound)
  {
  }

  /** In the teardown list, each vault is drained by a transfer signed by
      the same authority before it is closed, and the two transfers move
      exactly the two balances. */
  lemma {:induction false} TeardownDrainsBeforeClosing(
    e: seq<Effect>, stakingVault: Pubkey, stakingRefund: Pubkey, rewardsVault: Pubkey, rewardsRefund: Pubkey,
    owner: Pubkey, signer: Pubkey, stakingAmount: u64, rewardsAmount: u64)
    requires e == [Transfer(stakingVault, stakingRefund, signer, stakingAmount),
                   Transfer(rewardsVault, rewardsRefund, signer, rewardsAmount),
                   CloseTokenAccount(stakingVault, owner, signer),
                   CloseTokenAccount(rewardsVault, owner, signer)]
    ensures forall j :: 0 <= j < |e| && e[j].CloseTokenAccount? ==>
      exists i :: 0 <= i < j && e[i].Transfer? && e[i].source == e[j].account && e[i].authority == e[j].authority
    ensures TransferredTotal(e) == stakingAmount + rewardsAmount
  {
    forall j | 0 <= j < |e| && e[j].CloseTokenAccount?
      ensures exists i :: 0 <= i < j && e[i].Transfer? && e[i].source == e[j].account && e[i].authority == e[j].authority
    {
      if j == 2 {
        assert e[0].Transfer? && e[0].source == e[j].account && e[0].authority == e[j].authority;
      } else {
        assert e[1].Transfer? && e[1].source == e[j].account && e[1].authority == e[j].authority;
      }
    }
    assert e[..1][..0] == [];
    assert TransferredTotal(e[..1]) == stakingAmount;
    assert e[..2][..1] == e[..1];
    assert TransferredTotal(e[..2]) == stakingAmount + rewardsAmount;
    assert e[..3][..2] == e[..2];
    assert TransferredTotal(e[..3]) == stakingAmount + rewardsAmount;
  }

  /** Every vault a successful close shuts has been drained earlier in the
      same list, under the same authority, and the transfers together move
      the whole balance of both vaults. */
  lemma ClosedVaultsDrainedFirst(rt: Runtime, a: ClosePoolAccounts)
    requires ProcessClosePool(rt, a).Ok?
    ensures
      var e := ProcessClosePool(rt, a).value.effects;
      forall j :: 0 <= j < |e| && e[j].CloseTokenAccount? ==>
        exists i :: 0 <= i < j && e[i].Transfer? && e[i].source == e[j].account && e[i].authority == e[j].authority
    ensures
      TransferredTotal(ProcessClosePool(rt, a).value.effects)
      == a.stakingVault.token.account.amount + a.rewardsVault.token.account.amount
  {
    var e := ProcessClosePool(rt, a).value.effects;
    var signer := PoolSigner(rt, a.poolStorage.key);
    TeardownDrainsBeforeClosing(
      e, a.stakingVault.key, a.stakingRefund, a.rewardsVault.key, a.rewardsRefund, a.ownerWallet.key, signer,
      a.stakingVault.token.account.amount, a.rewardsVault.token.account.amount);
  }
}
