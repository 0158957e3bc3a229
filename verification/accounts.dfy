/** What a handler sees of the host: the accounts passed to it, the token
    accounts it unpacks, the calls it makes into the token program (recorded
    as effects rather than performed), and the runtime services it consults
    (clock, program identities, address derivation). */
module Accounts {
  import opened Types

  /** An account as passed to an instruction: its address, whether it signed
      the transaction, the program that owns it, its lamport balance and its
      data bytes. */
  datatype AccountInfo = AccountInfo(
    key: Pubkey,
    isSigner: bool,
    owner: Pubkey,
    lamports: u64,
    data: seq<u8>)

  /** The fields of an SPL token account that the handlers read. */
  datatype TokenAccount = TokenAccount(mint: Pubkey, owner: Pubkey, amount: u64)

  /** What the token program's account layout makes of a vault's data: bytes
      of the wrong length or with an invalid state byte, a well-formed account
      still in the uninitialised state, or an initialised token account. */
  datatype TokenState =
    | Malformed
    | Uninitialized
    | Initialized(account: TokenAccount)

  /** A token vault account: its address, the program that owns it, and what
      its data holds when read as a token account. */
  datatype VaultAccount = VaultAccount(key: Pubkey, owner: Pubkey, token: TokenState)

  /** `TokenAccount::unpack`: malformed data is `InvalidAccountData`, and a
      well-formed account that is not initialised is `UninitializedAccount`. */
  function Unpack(v: VaultAccount): (r: Result<TokenAccount>)
    ensures r.Ok? <==> v.token.Initialized?
    ensures r.Ok? ==> r.value == v.token.account
    ensures r == Err(InvalidAccountData) <==> v.token.Malformed?
    ensures r == Err(UninitializedAccount) <==> v.token.Uninitialized?
  {
    match v.token
    case Malformed => Err(InvalidAccountData)
    case Uninitialized => Err(UninitializedAccount)
    case Initialized(t) => Ok(t)
  }

  /** A call into the token program, signed by a program-derived authority. */
  datatype Effect =
    | Transfer(source: Pubkey, destination: Pubkey, authority: Pubkey, amount: u64)
    | CloseTokenAccount(account: Pubkey, destination: Pubkey, authority: Pubkey)

  /** The host services a handler consults: its own program id, the token
      program id it insists on, the clock's unix timestamp (read once per
      instruction), `Pubkey::find_program_address` over a list of seeds, and
      the user-storage address derivation keyed by wallet, pool and program
      (defined by the user-creation handler, which is not part of this
      model). Both derivations are deterministic and otherwise opaque. */
  datatype Runtime = Runtime(
    programId: Pubkey,
    tokenProgramId: Pubkey,
    now: i64,
    findProgramAddress: (seq<seq<u8>>, Pubkey) -> Pubkey,
    userStorageAddress: (Pubkey, Pubkey, Pubkey) -> Pubkey)

  /** The pool's custodial authority, derived from the pool record's address. */
  function PoolSigner(rt: Runtime, poolKey: Pubkey): Pubkey {
    rt.findProgramAddress([poolKey], rt.programId)
  }

  /** The only valid user-storage address for a wallet in a pool. */
  function UserStorageAddress(rt: Runtime, wallet: Pubkey, poolKey: Pubkey): Pubkey {
    rt.userStorageAddress(wallet, poolKey, rt.programId)
  }
}
