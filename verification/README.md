# Staking program: reward arithmetic, record layouts and handlers

A Dafny model of the on-chain core of a Solana staking program. It covers three layers:

- **Reward arithmetic** (`utils.dfy`). This is the per-share accumulator update `rewards_per_token`, a participant's credit `earned`, the reward-applicable time, and `close_account`, which reclaims an account's lamports. The sums, differences and products are the program's checked u64/u128 arithmetic, where overflow is the `AmountOverflow` error, and `PRECISION` is `u64::MAX`. Two steps are not checked that way. `earned` converts its credit with a truncating `as u64` (see Findings). `last_time_reward_applicable` unwraps the clock's conversion to u64, so a negative clock panics.
- **Record layouts** (`borsh.dfy`, `state.dfy`). These are the two persisted Borsh records: the pool record (374 bytes, kind tag 2) and the user record (98 bytes, kind tag 3). Borsh writes integers little-endian at fixed width, writes a key as its 32 raw bytes, and writes a fixed array of keys with no length prefix. The model proves both record sizes. It also proves the round trips in both directions: record to bytes to record, and bytes to record to bytes.
- **Instruction handlers** (`close_pool.dfy`, `close_user.dfy`, `unstake.dfy`, `update_rates.dfy`). Each handler is a pure function from the runtime and the instruction's accounts to either the first failing check's error, in source order, or the accounts' new contents. Token-program calls appear as an ordered list of `Effect` values.

`types.dfy` holds the bounded integer types, the error codes and the `Result` wrapper. It also holds the wrap-around arithmetic of a release build. `accounts.dfy` holds account snapshots, token-account unpacking and the runtime. In the runtime, the program id, the token program id and the clock are inputs. The two address derivations are uninterpreted deterministic functions.

Three conventions apply throughout:
- A `.unwrap()` or slice that would panic becomes `Err(Panicked)`.
- An error carries no account state. The host discards every write of a failed instruction, so "an error path leaves the pool bytes unchanged" holds by construction.
- The source calls the pool record both `CwarPool` (in `close_pool.rs` and `close_user.rs`) and `YourPool` (in `state.rs`). The model has a single `State.Pool`.

Two handlers write fields that the 374- and 98-byte structs do not have:
- `update_rates` writes `rewards_per_slot`, `max_reward_rate` and `min_reward_rate`. The model keeps them in the side record `State.PoolRates`.
- `unstake` writes `unstake_pending` and `unstake_pending_date`. The model keeps them in the side record `State.PendingWithdrawal`.

Neither side record takes part in the layout lemmas.

Two places where the model follows the close-pool code rather than a looser reading of it:
- A pool closes only when `0 < reward_duration_end < now`, strictly. A programme that ends exactly now is still active.
- Between the owner check and the first unpack, the code checks that the staking vault's owning program is the token program (`AccountOwnerShouldBeTokenProgram`). The model includes this check in that position.

A vault's data is taken in the three forms the token program's account layout distinguishes: malformed, uninitialised, or an initialised token account. Unpacking reports these as `InvalidAccountData`, `UninitializedAccount` or the account.

## Model

| member | source | states |
|---|---|---|
| Types.AsU64 | src/processor/close_pool.rs:86 | `now as u64` agrees with the clock for a non-negative clock, maps a negative clock to that value plus 2^64, and is congruent to the clock modulo 2^64 |
| Types.WrappingSubU32 | src/processor/close_user.rs:61 | unchecked u32 `-=`: the exact difference when it is non-negative, otherwise the difference plus 2^32; adding back the subtrahend modulo 2^32 restores the minuend |
| Types.WrappingAddI64 | src/processor/unstake.rs:102 | unchecked i64 `+`: the exact sum when it is in range, and always congruent to the exact sum modulo 2^64 |
| Accounts.Unpack | src/processor/close_pool.rs:71 | unpacking a vault succeeds exactly when its data is an initialised token account, which it then returns; the error is `InvalidAccountData` exactly for malformed data and `UninitializedAccount` exactly for a well-formed but uninitialised account |
| State.AccTypeOf | src/state.rs:4-7 | the tag byte names a kind exactly when it is that kind's tag (2 for a pool, 3 for a user), so the two tags are distinct and no other byte names a kind |
| State.PoolSchemaWidth | src/state.rs:9-26 | the pool layout's field widths (one tag byte, five keys, three u64, a u128, a u32, a u8, five funder keys, a u64) add up to the 374-byte record size |
| State.UserSchemaWidth | src/state.rs:28-38 | the user layout's field widths (tag, two keys, u64, u8, u64, u128) add up to the 98-byte record size |
| State.PoolRoundTrip | src/state.rs:10-26 | decoding the bytes of an encoded pool gives back the same pool |
| State.PoolBytesRoundTrip | src/state.rs:10-26 | any 374 bytes decode to a pool whose encoding is the same 374 bytes, so the handlers' copy-back is byte-exact |
| State.UserRoundTrip | src/state.rs:29-38 | decoding the bytes of an encoded user gives back the same user |
| State.UserBytesRoundTrip | src/state.rs:29-38 | any 98 bytes decode to a user whose encoding is the same 98 bytes |
| State.PoolTagIsFirstByte | src/state.rs:11-12 | the kind tag of a pool record is the record's first byte |
| State.UserTagIsFirstByte | src/state.rs:30-31 | the kind tag of a user record is the record's first byte |
| State.FundersOffset | src/state.rs:12-24 | the funders array starts 206 bytes into the pool record |
| State.FundersUnprefixed | src/state.rs:24 | bytes 206 to 366 of a pool record are exactly the five funder keys back to back, with no length prefix |
| Borsh.FromToLittleEndian | src/state.rs:18-22 | reading back the little-endian bytes of a value that fits the width gives the value |
| Borsh.ToFromLittleEndian | src/state.rs:18-22 | rewriting the value that a byte string reads as gives back the same bytes |
| Borsh.SplitConcatKeys | src/state.rs:24 | splitting the concatenation of a key array into 32-byte keys gives back the array |
| Borsh.ConcatSplitKeys | src/state.rs:24 | concatenating the keys that a 32n-byte string splits into gives back the string |
| Borsh.DecodeEncode | src/state.rs:10 | for any fixed-width schema, decoding the encoding of values that fit the schema gives back the values |
| Borsh.EncodeDecode | src/state.rs:29 | for any fixed-width schema, every byte string of the schema's width decodes, and re-encoding it gives back the bytes |
| Borsh.FieldAtOffset | src/state.rs:10-26 | field i of a record sits at the sum of the widths of the fields before it, encoded on its own |
| Utils.RewardsPerToken | src/utils.rs:29-57 | with nothing staked the stored accumulator comes back; an applicable time before the last update is `AmountOverflow`; otherwise the result is stored + floor(rate·elapsed·PRECISION / staked) exactly when every intermediate fits in u128; it is never below stored |
| Utils.RewardsPerTokenNoElapsedTime | src/utils.rs:39-56 | with no time elapsed the accumulator is unchanged for any stake and rate |
| Utils.RewardsPerTokenMonotoneInTime | src/utils.rs:39-56 | a later applicable time never gives a smaller accumulator, and if the later one does not overflow neither does the earlier |
| Utils.Earned | src/utils.rs:59-77 | as written: an accumulator below the checkpoint is `AmountOverflow`, an equal one returns pending unchanged, and otherwise the result is pending + (floor(balance·diff / PRECISION) mod 2^64), which is Ok exactly when the product fits in u128 and the sum fits in u64; the result is never below pending |
| Utils.EarnedChecked | src/utils.rs:68-72 | the corrected credit, with no truncation: Ok exactly when the product fits in u128 and pending + quotient fits in u64, and then equal to that sum |
| Utils.EarnedAgreesWithoutTruncation | src/utils.rs:68-72 | when the quotient fits in 64 bits the as-written and corrected credits are identical |
| Utils.EarnedCheckedMonotone | src/utils.rs:65-76 | the corrected credit never decreases as the accumulator grows, and if a larger accumulator does not overflow neither does a smaller one |
| Utils.EarnedTruncationCounterexample | src/utils.rs:72 | as written, raising the accumulator from 2^64−1 to 2^64 at the largest balance drops the credit from 2^64−1 to 0, while the corrected version reports overflow |
| Utils.LastTimeRewardApplicable | src/utils.rs:79-81 | a negative clock panics; otherwise the result is the smaller of the clock and the programme end, being one of them and at most both |
| Utils.CloseAccount | src/utils.rs:15-27 | succeeds exactly when the receiver's new balance fits in u64; then the closed account holds no lamports and no data, the total lamports are conserved, and nothing else in either account changes |
| ClosePool.Detached | src/processor/close_pool.rs:179-180 | both vault references become the default all-zero key and every other pool field is kept |
| ClosePool.ProcessClosePool | src/processor/close_pool.rs:27-184 | succeeds exactly when every check holds; then the written record decodes to the input record with its vault references cleared, and the effects are, in order: drain the (empty) staking vault, drain the rewards vault's full amount, close the staking vault, close the rewards vault, each under the pool's derived signer |
| ClosePool.ClosePoolCheckOrder | src/processor/close_pool.rs:38-69 | the first failing of signature, token program, record size, record tag, owner and the staking vault's owning program decides the error |
| ClosePool.StakingVaultChecked | src/processor/close_pool.rs:71-80 | `InvalidStakingVault` means the staking vault unpacked but is not bound to the pool by signer authority and recorded address |
| ClosePool.StillActiveAfterStakingVault | src/processor/close_pool.rs:84-92 | `PoolStillActive` is reported only after the staking vault was found bound, and means the end is unset, not strictly past, a slot is open, or tokens are staked |
| ClosePool.RewardsVaultCheckedLast | src/processor/close_pool.rs:113-122 | `InvalidRewardsVault` is reported only for a finished pool whose rewards vault is not bound to it |
| ClosePool.StakingVaultDecides | src/processor/close_pool.rs:71-92 | once the first six checks pass: malformed staking-vault data is `InvalidAccountData` and an uninitialised vault `UninitializedAccount`; for a token account, `InvalidStakingVault` is reported exactly when the vault is not bound to the pool; for a bound vault, `PoolStillActive` exactly when the programme is not over, in particular whenever a user slot is open |
| ClosePool.RewardsVaultDecides | src/processor/close_pool.rs:113-122 | for a pool past those checks, with a bound staking vault and the programme over: malformed rewards-vault data is `InvalidAccountData` and an uninitialised vault `UninitializedAccount`; for a token account, `InvalidRewardsVault` is reported exactly when it is not bound to the pool, and otherwise the close succeeds |
| ClosePool.OpenSlotKeepsPoolAlive | src/processor/close_pool.rs:85-92 | a pool with a non-zero user count can never be closed |
| ClosePool.TeardownDrainsBeforeClosing | src/processor/close_pool.rs:94-177 | in the teardown list every closed vault was drained by an earlier transfer under the same authority, and the transfers move exactly the two balances |
| ClosePool.ClosedVaultsDrainedFirst | src/processor/close_pool.rs:94-177 | every successful close drains each vault before closing it, and its transfers move the staking and rewards balances in full |
| CloseUser.SlotReleased | src/processor/close_user.rs:61 | the user count falls by exactly one when positive and wraps to 2^32−1 from zero; no other pool field changes |
| CloseUser.ProcessCloseUser | src/processor/close_user.rs:27-103 | succeeds exactly when every check holds and the wallet's new balance fits; then the pool record loses one user slot and nothing else, and the user account's lamports move to the wallet, conserving the total, with its data emptied; both accounts keep their keys, owners and signer flags |
| CloseUser.CloseUserCheckOrder | src/processor/close_user.rs:33-59 | the first failing of signature, derived address, pool size and pool tag decides the error |
| CloseUser.CloseUserRecordChecks | src/processor/close_user.rs:66-93 | then user size, user tag, user's wallet, user's pool, and a non-zero balance or pending reward (`UserBalanceNonZero`) decide the error, in that order |
| Unstake.ProcessUnstake | src/processor/unstake.rs:21-111 | succeeds exactly when every check holds; then both records are written back byte for byte unchanged, and the marker holds the amount, which is positive and at most the staked balance, released two seconds from now |
| Unstake.UnstakeCheckOrder | src/processor/unstake.rs:35-57 | the first failing of signature, token program, non-zero amount and derived address decides the error |
| Unstake.UnstakeRecordChecks | src/processor/unstake.rs:59-75 | then pool size, pool tag and user size decide the error, in that order |
| Unstake.UnstakeUserChecks | src/processor/unstake.rs:77-97 | then user tag, user's wallet and user's pool; after those, `InsufficientFundsToUnstake` is reported exactly when the balance is below the amount, so withdrawing the whole balance is allowed |
| Unstake.UnstakeReplacesMarker | src/processor/unstake.rs:99-102 | a new request replaces any earlier pending withdrawal: the outcome does not depend on the marker already present |
| UpdateRates.ProcessUpdateRates | src/processor/update_rates.rs:22-56 | succeeds exactly for a signed owner whose key is recorded in the first 374 bytes; then the three rates are the arguments and the account bytes are unchanged; a signed call on a shorter account panics |
| UpdateRates.UpdateRatesCheckOrder | src/processor/update_rates.rs:33-46 | a missing signature is reported before the owner comparison, which reports `PoolOwnerMismatched` |
| UpdateRates.TagNotChecked | src/processor/update_rates.rs:38-46 | the kind tag is not checked: a 374-byte account whose first byte is the user tag is accepted when its recorded owner is the signer |
| UpdateRates.UpdateRatesIdempotent | src/processor/update_rates.rs:48-53 | applying the same update to its own result gives the same result again |

## Left out

- The TypeScript front end (transaction builders, retries, the server and the integration test) and the buffer-layout wrappers: network and RPC plumbing outside the program.
- The instruction router and `Instruction::unpack`: the router is thin dispatch, and the unpacker is not part of this model.
- The initialise, create-user, stake and claim handlers: not part of the modelled core.
- Cross-program calls to the token program: these are effect values only. Their execution, their failure and the token balances they move are not modelled.
- Address derivation (`find_program_address`): a SHA-256 search, represented as an uninterpreted deterministic function of the seeds.
- `Clock::get` failure, `msg!` logging and `RefCell` borrow failures: host concerns. The clock is an input.
- Missing accounts (`next_account_info` errors): every handler takes its accounts by role, so a short account list is not representable.
- Host rollback of a failed instruction: assumed, not modelled. An error carries no account state.
- Integer semantics: the model assumes a release build. `user_stake_count -= 1` wraps modulo 2^32 and `now + 2` wraps in i64, where a debug build would panic.
- Utils.CloseAccount: takes the closed account and the receiver to be distinct. Passing the same account twice, which the code does not prevent, is not modelled.
- Unstake.ProcessUnstake: the release date is stated as `now + 2` only when that sum fits in i64. When it does not, the value is `Types.WrappingAddI64(now, 2)`, whose own contract gives the wrapped result.
- Decoding a vault's 165-byte token-account layout: the vault carries the result of that decoding as a `TokenState`, and `Accounts.Unpack` reports it.

## Findings

| source | as written | input that shows it | evidently intended | confidence | as-written member | corrected member |
|---|---|---|---|---|---|---|
| src/utils.rs:68-72 | the credit `floor(balance·diff / PRECISION)` is converted with `as u64`, which keeps only its low 64 bits | balance 2^64−1, checkpoint 0, pending 0: accumulator 2^64−1 gives credit 2^64−1, accumulator 2^64 gives credit 0 | a checked conversion that reports `AmountOverflow`, like the surrounding checked arithmetic, so the credit never shrinks as the accumulator grows | not executed | Utils.EarnedTruncationCounterexample | Utils.EarnedCheckedMonotone |
