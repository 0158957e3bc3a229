/** `process_update_rates`: the pool owner sets the pool's three rate
    parameters. The handler decodes the record from the first 374 bytes of
    the pool account without checking its size or type tag, checks the
    owner, and writes the record back. The rate parameters are not part of
    the 374-byte layout, so they are modelled as the side record `PoolRates`
    and the account bytes come back exactly as they were. */
module UpdateRates {
  import opened Types
  import opened State
  import opened Accounts

  /** The two accounts of the instruction and the pool's current rates. */
  datatype UpdateRatesAccounts = UpdateRatesAccounts(
    ownerWallet: AccountInfo,
    poolStorage: AccountInfo,
    rates: PoolRates)

  datatype UpdateRatesOutcome = UpdateRatesOutcome(poolData: seq<u8>, rates: PoolRates)

  /** Every condition under which the update succeeds, order aside: a signed
      owner whose key is the one recorded in the first 374 bytes. */
  predicate UpdateAllowed(a: UpdateRatesAccounts) {
    && a.ownerWallet.isSigner
    && |a.poolStorage.data| >= POOL_STORAGE_TOTAL_BYTES
    && DecodePool(a.poolStorage.data[..POOL_STORAGE_TOTAL_BYTES]).ownerWallet == a.ownerWallet.key
  }

  /** The handler. An account shorter than the record makes the slice
      panic; on success the new rates are the arguments, whatever the old ones
      were, and the account bytes, trailing bytes included, are unchanged. */
  function ProcessUpdateRates(
    a: UpdateRatesAccounts, rewardsPerSlot: u64, maxRewardRate: u64, minRewardRate: u64): (r: Result<UpdateRatesOutcome>)
    ensures r.Ok? <==> UpdateAllowed(a)
    ensures a.ownerWallet.isSigner && |a.poolStorage.data| < POOL_STORAGE_TOTAL_BYTES ==> r == Err(Panicked)
    ensures r.Ok? ==>
      && r.value.rates.rewardsPerSlot == rewardsPerSlot
      && r.value.rates.maxRewardRate == maxRewardRate
      && r.value.rates.minRewardRate == minRewardRate
      && r.value.poolData == a.poolStorage.data
  {
    var data := a.poolStorage.data;
    :- Require(a.ownerWallet.isSigner, MissingRequiredSignature);
    :- Require(|data| >= POOL_STORAGE_TOTAL_BYTES, Panicked);
    var head := a.poolStorage.data[..POOL_STORAGE_TOTAL_BYTES];
    var tail := a.poolStorage.data[POOL_STORAGE_TOTAL_BYTES..];
    var pool := DecodePool(head);
    :- Require(pool.ownerWallet == a.ownerWallet.key, PoolOwnerMismatched);
    PoolBytesRoundTrip(head);
    assert head + tail == a.poolStorage.data;
    Ok(UpdateRatesOutcome(EncodePool(pool) + tail, PoolRates(rewardsPerSlot, maxRewardRate, minRewardRate)))
  }

  /** The signature is checked first, then the record is read, then the
      owner is compared. */
  lemma UpdateRatesCheckOrder(a: UpdateRatesAccounts, rewardsPerSlot: u64, maxRewardRate: u64, minRewardRate: u64)
    ensures !a.ownerWallet.isSigner ==>
      ProcessUpdateRates(a, rewardsPerSlot, maxRewardRate, minRewardRate) == Err(MissingRequiredSignature)
    ensures (a.ownerWallet.isSigner && |a.poolStorage.data| >= POOL_STORAGE_TOTAL_BYTES
             && DecodePool(a.poolStorage.data[..POOL_STORAGE_TOTAL_BYTES]).ownerWallet != a.ownerWallet.key) ==>
      ProcessUpdateRates(a, rewardsPerSlot, maxRewardRate, minRewardRate) == Err(PoolOwnerMismatched)
  {
  }

  /** The update does not look at the type tag: a user record (tag 3) padded
      to 374 bytes whose bytes 1..33 hold the signer's key is accepted as a
      pool. */
  lemma TagNotChecked(a: UpdateRatesAccounts, rewardsPerSlot: u64, maxRewardRate: u64, minRewardRate: u64)
    requires a.ownerWallet.isSigner
    requires |a.poolStorage.data| == POOL_STORAGE_TOTAL_BYTES
    requires a.poolStorage.data[0] == USER_TAG
    requires DecodePool(a.poolStorage.data).ownerWallet == a.ownerWallet.key
    ensures DecodePool(a.poolStorage.data).accType != POOL_TAG
    ensures ProcessUpdateRates(a, rewardsPerSlot, maxRewardRate, minRewardRate).Ok?
  {
    assert a.poolStorage.data[..POOL_STORAGE_TOTAL_BYTES] == a.poolStorage.data;
    var pool := DecodePool(a.poolStorage.data);
    PoolBytesRoundTrip(a.poolStorage.data);
    PoolTagIsFirstByte(pool);
  }

  /** Applying the same update twice leaves the same result as applying it
      once. */
  lemma UpdateRatesIdempotent(a: UpdateRatesAccounts, rewardsPerSlot: u64, maxRewardRate: u64, minRewardRate: u64)
    requires ProcessUpdateRates(a, rewardsPerSlot, maxRewardRate, minRewardRate).Ok?
    ensures
      var once := ProcessUpdateRates(a, rewardsPerSlot, maxRewardRate, minRewardRate).value;
      var again := a.(poolStorage := a.poolStorage.(data := once.poolData), rates := once.rates);
      ProcessUpdateRates(again, rewardsPerSlot, maxRewardRate, minRewardRate) == Ok(once)
  {
  }
}
