/** Fixed-width integers, public keys, the program's error codes and a
    failure-compatible result type shared by every other module. */
module Types {

  const U8_LIMIT: int := 0x100
  const U32_LIMIT: int := 0x1_0000_0000
  const U64_LIMIT: int := 0x1_0000_0000_0000_0000
  const U128_LIMIT: int := 0x1_0000_0000_0000_0000_0000_0000_0000_0000
  const U64_MAX: int := U64_LIMIT - 1
  const U128_MAX: int := U128_LIMIT - 1
  const I64_MIN: int := -0x8000_0000_0000_0000
  const I64_LIMIT: int := 0x8000_0000_0000_0000

  type u8 = x: int | 0 <= x < 0x100
  type u32 = x: int | 0 <= x < 0x1_0000_0000
  type u64 = x: int | 0 <= x < 0x1_0000_0000_0000_0000
  type u128 = x: int | 0 <= x < 0x1_0000_0000_0000_0000_0000_0000_0000_0000
  type i64 = x: int | -0x8000_0000_0000_0000 <= x < 0x8000_0000_0000_0000

  const KEY_BYTES: nat := 32

  /** A 32-byte public key; `Pubkey::default()` is all zeroes. */
  type Pubkey = s: seq<u8> | |s| == 32 witness DEFAULT_KEY_BYTES

  const DEFAULT_KEY_BYTES: seq<u8> :=
    [0, 0, 0, 0, 0, 0, 0, 0, 0, 0, 0, 0, 0, 0, 0, 0,
     0, 0, 0, 0, 0, 0, 0, 0, 0, 0, 0, 0, 0, 0, 0, 0]
  const DEFAULT_KEY: Pubkey := DEFAULT_KEY_BYTES

  /** `x as u64` for an `i64`: two's-complement reinterpretation. */
  function AsU64(x: i64): (r: u64)
    ensures 0 <= x ==> r == x
    ensures x < 0 ==> r == x + U64_LIMIT
    ensures (r - x) % U64_LIMIT == 0
  {
    if x < 0 then x + U64_LIMIT else x
  }

  /** `a - b` on `u32` without overflow checks (release build): wraps modulo 2^32. */
  function WrappingSubU32(a: u32, b: u32): (r: u32)
    ensures b <= a ==> r == a - b
    ensures a < b ==> r == a - b + U32_LIMIT
    ensures (r + b) % U32_LIMIT == a
  {
    (a - b) % U32_LIMIT
  }

  /** `a + b` on `i64` without overflow checks (release build): wraps into the signed range. */
  function WrappingAddI64(a: i64, b: i64): (r: i64)
    ensures I64_MIN <= a + b < I64_LIMIT ==> r == a + b
    ensures (r - (a + b)) % U64_LIMIT == 0
  {
    var s := a + b;
    if s >= I64_LIMIT then s - U64_LIMIT
    else if s < I64_MIN then s + U64_LIMIT
    else s
  }

  /** Every error the modelled handlers can return: the Solana program errors
      (`MissingRequiredSignature`, `InvalidSeeds`, `InvalidAccountData`,
      `UninitializedAccount`), the program's own `CustomError` codes, and
      `Panicked` for an `.unwrap()` or slice-bounds panic, which aborts the
      instruction. */
  datatype Error =
    | MissingRequiredSignature
    | InvalidSeeds
    | InvalidAccountData
    | UninitializedAccount
    | AmountOverflow
    | InvalidTokenProgram
    | DataSizeNotMatched
    | ExpectedAccountTypeMismatched
    | PoolOwnerMismatched
    | AccountOwnerShouldBeTokenProgram
    | InvalidStakingVault
    | InvalidRewardsVault
    | PoolStillActive
    | UserStorageAuthorityMismatched
    | UserPoolMismatched
    | UserBalanceNonZero
    | AmountMustBeGreaterThanZero
    | InsufficientFundsToUnstake
    | Panicked

  datatype Option<+T> = None | Some(value: T)

  /** The outcome of a fallible operation, usable with `:-`. */
  datatype Result<+T> = Ok(value: T) | Err(error: Error) {
    predicate IsFailure() {
      Err?
    }

    function PropagateFailure<U>(): Result<U>
      requires Err?
    {
      Err(error)
    }

    function Extract(): T
      requires Ok?
    {
      value
    }
  }

  /** The outcome of one fail-fast validation step, usable as `:- Require(...);`. */
  datatype Check = Pass | Fail(error: Error) {
    predicate IsFailure() {
      Fail?
    }

    function PropagateFailure<U>(): Result<U>
      requires Fail?
    {
      Err(error)
    }
  }

  function Require(condition: bool, error: Error): Check {
    if condition then Pass else Fail(error)
  }
}
