/** The two persisted records of the staking program, their account-kind
    tags, and their fixed-size Borsh layouts (374 bytes for a pool, 98 bytes
    for a user), plus the fields the handlers write that have no place in
    those layouts. */
module State {
  import opened Types
  import opened Borsh

  // ---------------------------------------------------------------------------
  // Account kinds

  /** `AccTypesWithVersion`: the kind tag stored in the first byte of a record. */
  datatype AccType = PoolDataV1 | UserDataV1

  function Tag(t: AccType): u8 {
    match t
    case PoolDataV1 => 2
    case UserDataV1 => 3
  }

  const POOL_TAG: u8 := Tag(PoolDataV1)
  const USER_TAG: u8 := Tag(UserDataV1)

  /** The kind a tag byte names, if any. */
  function AccTypeOf(tag: u8): (r: Option<AccType>)
    ensures r.Some? ==> Tag(r.value) == tag
    ensures forall t :: Tag(t) == tag ==> r == Some(t)
  {
    if tag == 2 then Some(PoolDataV1)
    else if tag == 3 then Some(UserDataV1)
    else None
  }

  // ---------------------------------------------------------------------------
  // Records

  const FUNDER_SLOTS: nat := 5

  type Funders = s: seq<Pubkey> | |s| == 5 witness [DEFAULT_KEY, DEFAULT_KEY, DEFAULT_KEY, DEFAULT_KEY, DEFAULT_KEY]

  /** `YourPool` (called `CwarPool` by some handlers): one staking pool. */
  datatype Pool = Pool(
    accType: u8,
    ownerWallet: Pubkey,
    stakingVault: Pubkey,
    stakingMint: Pubkey,
    rewardVault: Pubkey,
    rewardMint: Pubkey,
    rewardRate: u64,
    rewardDuration: u64,
    totalStakeLastUpdateTime: u64,
    rewardPerTokenStored: u128,
    userStakeCount: u32,
    pdaNonce: u8,
    funders: Funders,
    rewardDurationEnd: u64)

  /** `User`: one participant's position in one pool. */
  datatype User = User(
    accType: u8,
    userWallet: Pubkey,
    pool: Pubkey,
    balanceStaked: u64,
    nonce: u8,
    rewardPerTokenPending: u64,
    rewardPerTokenCompleted: u128)

  /** Rate fields the rate-update handler writes; they are not part of the
      374-byte pool layout, so the model keeps them beside the record. */
  datatype PoolRates = PoolRates(rewardsPerSlot: u64, maxRewardRate: u64, minRewardRate: u64)

  /** The pending-withdrawal marker the unstake handler writes; not part of
      the 98-byte user layout, so kept beside the record. */
  datatype PendingWithdrawal = PendingWithdrawal(unstakePending: u64, unstakePendingDate: i64)

  // ---------------------------------------------------------------------------
  // Layouts

  const POOL_STORAGE_TOTAL_BYTES: nat := 374
  const USER_STORAGE_TOTAL_BYTES: nat := 98

  const POOL_SCHEMA: seq<Kind> :=
    [U8, Key, Key, Key, Key, Key, U64, U64, U64, U128, U32, U8, KeyArray(FUNDER_SLOTS), U64]

  const USER_SCHEMA: seq<Kind> :=
    [U8, Key, Key, U64, U8, U64, U128]

  lemma SchemaWidthFrom(s: seq<Kind>, k: nat)
    requires k < |s|
    ensures SchemaWidth(s[k..]) == Width(s[k]) + SchemaWidth(s[k + 1..])
  {
    assert s[k..][1..] == s[k + 1..];
  }

  lemma SchemaWidthCons(k: Kind, rest: seq<Kind>)
    ensures SchemaWidth([k] + rest) == Width(k) + SchemaWidth(rest)
  {
    assert ([k] + rest)[1..] == rest;
  }

  /** The last two pool fields, funders and programme end, take 168 bytes. */
  lemma PoolTailWidth()
    ensures POOL_SCHEMA[12..] == [KeyArray(FUNDER_SLOTS), U64]
    ensures SchemaWidth(POOL_SCHEMA[12..]) == 168
  {
    SchemaWidthCons(U64, []);
    SchemaWidthCons(KeyArray(FUNDER_SLOTS), [U64]);
    assert [KeyArray(FUNDER_SLOTS)] + [U64] == [KeyArray(FUNDER_SLOTS), U64];
  }

  /** The fields from the reward rate on take 213 bytes. */
  lemma PoolMidWidth()
    ensures POOL_SCHEMA[6..] == [U64, U64, U64, U128, U32, U8, KeyArray(FUNDER_SLOTS), U64]
    ensures SchemaWidth(POOL_SCHEMA[6..]) == 213
  {
    var t := [KeyArray(FUNDER_SLOTS), U64];
    PoolTailWidth();
    SchemaWidthCons(U8, t);
    t := [U8] + t;
    SchemaWidthCons(U32, t);
    t := [U32] + t;
    SchemaWidthCons(U128, t);
    t := [U128] + t;
    SchemaWidthCons(U64, t);
    t := [U64] + t;
    SchemaWidthCons(U64, t);
    t := [U64] + t;
    SchemaWidthCons(U64, t);
    t := [U64] + t;
    assert t == POOL_SCHEMA[6..];
  }

  /** The pool layout: 1 tag byte, five keys, three u64, one u128, one u32,
      one u8, five funder keys with no length prefix, one u64. */
  lemma PoolSchemaWidth()
    ensures SchemaWidth(POOL_SCHEMA) == POOL_STORAGE_TOTAL_BYTES
  {
    var t := POOL_SCHEMA[6..];
    PoolMidWidth();
    SchemaWidthCons(Key, t);
    t := [Key] + t;
    SchemaWidthCons(Key, t);
    t := [Key] + t;
    SchemaWidthCons(Key, t);
    t := [Key] + t;
    SchemaWidthCons(Key, t);
    t := [Key] + t;
    SchemaWidthCons(Key, t);
    t := [Key] + t;
    SchemaWidthCons(U8, t);
    t := [U8] + t;
    assert t == POOL_SCHEMA;
  }

  /** The user layout: 1 tag byte, two keys, u64, u8, u64, u128. */
  lemma UserSchemaWidth()
    ensures SchemaWidth(USER_SCHEMA) == USER_STORAGE_TOTAL_BYTES
  {
    var s := USER_SCHEMA;
    assert s[7..] == [];
    SchemaWidthFrom(s, 6);
    SchemaWidthFrom(s, 5);
    SchemaWidthFrom(s, 4);
    SchemaWidthFrom(s, 3);
    SchemaWidthFrom(s, 2);
    SchemaWidthFrom(s, 1);
    SchemaWidthFrom(s, 0);
    assert s[0..] == s;
  }

  function PoolFields(p: Pool): (vs: seq<Value>)
    ensures FitsAll(POOL_SCHEMA, vs)
  {
    [Int(p.accType), KeyValue(p.ownerWallet), KeyValue(p.stakingVault), KeyValue(p.stakingMint),
     KeyValue(p.rewardVault), KeyValue(p.rewardMint), Int(p.rewardRate), Int(p.rewardDuration),
     Int(p.totalStakeLastUpdateTime), Int(p.rewardPerTokenStored), Int(p.userStakeCount),
     Int(p.pdaNonce), KeysValue(p.funders), Int(p.rewardDurationEnd)]
  }

  function PoolOfFields(vs: seq<Value>): Pool
    requires FitsAll(POOL_SCHEMA, vs)
  {
    Pool(vs[0].n, vs[1].key, vs[2].key, vs[3].key, vs[4].key, vs[5].key,
         vs[6].n, vs[7].n, vs[8].n, vs[9].n, vs[10].n, vs[11].n, vs[12].keys, vs[13].n)
  }

  function UserFields(u: User): (vs: seq<Value>)
    ensures FitsAll(USER_SCHEMA, vs)
  {
    [Int(u.accType), KeyValue(u.userWallet), KeyValue(u.pool), Int(u.balanceStaked),
     Int(u.nonce), Int(u.rewardPerTokenPending), Int(u.rewardPerTokenCompleted)]
  }

  function UserOfFields(vs: seq<Value>): User
    requires FitsAll(USER_SCHEMA, vs)
  {
    User(vs[0].n, vs[1].key, vs[2].key, vs[3].n, vs[4].n, vs[5].n, vs[6].n)
  }

  /** `YourPool::try_to_vec`. */
  function EncodePool(p: Pool): (b: seq<u8>)
    ensures |b| == POOL_STORAGE_TOTAL_BYTES
  {
    PoolSchemaWidth();
    Encode(POOL_SCHEMA, PoolFields(p))
  }

  /** `YourPool::try_from_slice` on exactly 374 bytes; it cannot fail, since
      every field is fixed-width and every byte pattern is a valid value. */
  function DecodePool(b: seq<u8>): Pool
    requires |b| == POOL_STORAGE_TOTAL_BYTES
  {
    PoolSchemaWidth();
    PoolOfFields(Decode(POOL_SCHEMA, b))
  }

  /** `User::try_to_vec`. */
  function EncodeUser(u: User): (b: seq<u8>)
    ensures |b| == USER_STORAGE_TOTAL_BYTES
  {
    UserSchemaWidth();
    Encode(USER_SCHEMA, UserFields(u))
  }

  /** `User::try_from_slice` on exactly 98 bytes; it cannot fail either. */
  function DecodeUser(b: seq<u8>): User
    requires |b| == USER_STORAGE_TOTAL_BYTES
  {
    UserSchemaWidth();
    UserOfFields(Decode(USER_SCHEMA, b))
  }

  // ---------------------------------------------------------------------------
  // Round trips

  lemma PoolRoundTrip(p: Pool)
    ensures DecodePool(EncodePool(p)) == p
  {
    PoolSchemaWidth();
    DecodeEncode(POOL_SCHEMA, PoolFields(p));
  }

  lemma PoolBytesRoundTrip(b: seq<u8>)
    requires |b| == POOL_STORAGE_TOTAL_BYTES
    ensures EncodePool(DecodePool(b)) == b
  {
    PoolSchemaWidth();
    var vs := Decode(POOL_SCHEMA, b);
    assert PoolFields(PoolOfFields(vs)) == vs;
    EncodeDecode(POOL_SCHEMA, b);
  }

  lemma UserRoundTrip(u: User)
    ensures DecodeUser(EncodeUser(u)) == u
  {
    UserSchemaWidth();
    DecodeEncode(USER_SCHEMA, UserFields(u));
  }

  lemma UserBytesRoundTrip(b: seq<u8>)
    requires |b| == USER_STORAGE_TOTAL_BYTES
    ensures EncodeUser(DecodeUser(b)) == b
  {
    UserSchemaWidth();
    var vs := Decode(USER_SCHEMA, b);
    assert UserFields(UserOfFields(vs)) == vs;
    EncodeDecode(USER_SCHEMA, b);
  }

  // ---------------------------------------------------------------------------
  // Where fields sit

  /** The kind tag is the first byte of a pool record. */
  lemma PoolTagIsFirstByte(p: Pool)
    ensures EncodePool(p)[0] == p.accType
  {
    PoolSchemaWidth();
    FieldAtOffset(POOL_SCHEMA, PoolFields(p), 0);
    assert POOL_SCHEMA[..0] == [];
  }

  /** The kind tag is the first byte of a user record. */
  lemma UserTagIsFirstByte(u: User)
    ensures EncodeUser(u)[0] == u.accType
  {
    UserSchemaWidth();
    FieldAtOffset(USER_SCHEMA, UserFields(u), 0);
    assert USER_SCHEMA[..0] == [];
  }

  /** The funders start after 206 bytes: the tag, five keys, three u64, one
      u128, one u32 and one u8. */
  lemma FundersOffset()
    ensures Offset(POOL_SCHEMA, 12) == 206
  {
    PoolSchemaWidth();
    PoolTailWidth();
    SchemaWidthSplit(POOL_SCHEMA, 12);
  }

  /** The five funders occupy bytes 206..366 of the pool record, written back
      to back with no length prefix. */
  lemma FundersUnprefixed(p: Pool)
    ensures EncodePool(p)[206..366] == ConcatKeys(p.funders)
  {
    PoolSchemaWidth();
    FundersOffset();
    var vs := PoolFields(p);
    FieldAtOffset(POOL_SCHEMA, vs, 12);
    assert POOL_SCHEMA[12] == KeyArray(5) && vs[12] == KeysValue(p.funders);
  }
}
