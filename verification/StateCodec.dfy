/** The fixed layouts of mints, token accounts and multisigs, written in place over
    whatever the buffer held before. */
module StateCodec {
  import opened Types
  import opened Bytes

  // Optional values: a four-byte tag and a body that None leaves untouched

  const NONE_TAG: seq<u8> := [0, 0, 0, 0]
  const SOME_TAG: seq<u8> := [1, 0, 0, 0]

  function PackedKeyOption(o: Option<Pubkey>, buf: seq<u8>): (r: seq<u8>)
    requires |buf| == 36
    ensures |r| == 36
  {
    if o.Some? then SOME_TAG + KeyBytes(o.value) else NONE_TAG + buf[4..]
  }

  function UnpackKeyOption(src: seq<u8>): Result<Option<Pubkey>>
    requires |src| == 36
  {
    if src[..4] == NONE_TAG then Ok(None)
    else if src[..4] == SOME_TAG then Ok(Some(KeyOf(src[4..])))
    else Err(InvalidAccountData)
  }

  function PackedU64Option(o: Option<u64>, buf: seq<u8>): (r: seq<u8>)
    requires |buf| == 12
    ensures |r| == 12
  {
    if o.Some? then SOME_TAG + U64Bytes(o.value) else NONE_TAG + buf[4..]
  }

  function UnpackU64Option(src: seq<u8>): Result<Option<u64>>
    requires |src| == 12
  {
    if src[..4] == NONE_TAG then Ok(None)
    else if src[..4] == SOME_TAG then Ok(Some(U64Of(src[4..])))
    else Err(InvalidAccountData)
  }

  lemma KeyOptionRoundTrip(o: Option<Pubkey>, buf: seq<u8>)
    requires |buf| == 36
    ensures UnpackKeyOption(PackedKeyOption(o, buf)) == Ok(o)
    ensures UnpackKeyOption(buf) == Ok(o) ==> PackedKeyOption(o, buf) == buf
  {
    var r := PackedKeyOption(o, buf);
    assert r[..4] == if o.Some? then SOME_TAG else NONE_TAG;
    assert buf == buf[..4] + buf[4..];
    if o.Some? {
      assert r[4..] == KeyBytes(o.value);
      KeyRoundTrip(o.value);
      KeyRoundTripBack(buf[4..]);
    }
  }

  lemma U64OptionRoundTrip(o: Option<u64>, buf: seq<u8>)
    requires |buf| == 12
    ensures UnpackU64Option(PackedU64Option(o, buf)) == Ok(o)
    ensures UnpackU64Option(buf) == Ok(o) ==> PackedU64Option(o, buf) == buf
  {
    var r := PackedU64Option(o, buf);
    assert r[..4] == if o.Some? then SOME_TAG else NONE_TAG;
    assert buf == buf[..4] + buf[4..];
    if o.Some? {
      assert r[4..] == U64Bytes(o.value);
      U64RoundTrip(o.value);
      U64RoundTripBack(buf[4..]);
    }
  }

  // One-byte values

  function FlagByte(b: bool): u8 {
    if b then 1 else 0
  }

  function StateByte(state: AccountState): u8 {
    match state
    case Uninitialized => 0
    case Initialized => 1
    case Frozen => 2
  }

  // Mints: 36 + 8 + 1 + 1 + 36 bytes

  function PackedMint(m: Mint, buf: seq<u8>): (r: seq<u8>)
    requires |buf| == MINT_LEN
    ensures |r| == MINT_LEN
  {
    PackedKeyOption(m.mintAuthority, buf[0..36])
    + U64Bytes(m.supply)
    + [m.decimals, FlagByte(m.isInitialized)]
    + PackedKeyOption(m.freezeAuthority, buf[46..82])
  }

  function ParseMint(src: seq<u8>): Result<Mint>
    requires |src| == MINT_LEN
  {
    var mintAuthority :- UnpackKeyOption(src[0..36]);
    var supply := U64Of(src[36..44]);
    if src[45] > 1 then Err(InvalidAccountData) else
    var freezeAuthority :- UnpackKeyOption(src[46..82]);
    Ok(Mint(mintAuthority, supply, src[44], src[45] == 1, freezeAuthority))
  }

  lemma MintSlices(m: Mint, buf: seq<u8>)
    requires |buf| == MINT_LEN
    ensures var r := PackedMint(m, buf);
            && r[0..36] == PackedKeyOption(m.mintAuthority, buf[0..36])
            && r[36..44] == U64Bytes(m.supply)
            && r[44] == m.decimals
            && r[45] == FlagByte(m.isInitialized)
            && r[46..82] == PackedKeyOption(m.freezeAuthority, buf[46..82])
  {
  }

  /** A mint packed over any buffer is read back unchanged; packing what a buffer holds
      leaves every byte of it alone. */
  lemma MintRoundTrip(m: Mint, buf: seq<u8>)
    requires |buf| == MINT_LEN
    ensures ParseMint(PackedMint(m, buf)) == Ok(m)
    ensures ParseMint(buf) == Ok(m) ==> PackedMint(m, buf) == buf
  {
    MintSlices(m, buf);
    KeyOptionRoundTrip(m.mintAuthority, buf[0..36]);
    KeyOptionRoundTrip(m.freezeAuthority, buf[46..82]);
    U64RoundTrip(m.supply);
    U64RoundTripBack(buf[36..44]);
    assert buf == buf[0..36] + buf[36..44] + [buf[44], buf[45]] + buf[46..82];
  }

  // Token accounts: 32 + 32 + 8 + 36 + 1 + 12 + 8 + 36 bytes

  function PackedAccount(a: Account, buf: seq<u8>): (r: seq<u8>)
    requires |buf| == ACCOUNT_LEN
    ensures |r| == ACCOUNT_LEN
  {
    KeyBytes(a.mint)
    + KeyBytes(a.owner)
    + U64Bytes(a.amount)
    + PackedKeyOption(a.delegate, buf[72..108])
    + [StateByte(a.state)]
    + PackedU64Option(a.isNative, buf[109..121])
    + U64Bytes(a.delegatedAmount)
    + PackedKeyOption(a.closeAuthority, buf[129..165])
  }

  function ParseAccount(src: seq<u8>): Result<Account>
    requires |src| == ACCOUNT_LEN
  {
    var delegate :- UnpackKeyOption(src[72..108]);
    if src[108] > 2 then Err(InvalidAccountData) else
    var state := if src[108] == 0 then Uninitialized else if src[108] == 1 then Initialized else Frozen;
    var isNative :- UnpackU64Option(src[109..121]);
    var closeAuthority :- UnpackKeyOption(src[129..165]);
    Ok(Account(KeyOf(src[0..32]), KeyOf(src[32..64]), U64Of(src[64..72]), delegate, state, isNative,
               U64Of(src[121..129]), closeAuthority))
  }

  lemma AccountSlices(a: Account, buf: seq<u8>)
    requires |buf| == ACCOUNT_LEN
    ensures var r := PackedAccount(a, buf);
            && r[0..32] == KeyBytes(a.mint)
            && r[32..64] == KeyBytes(a.owner)
            && r[64..72] == U64Bytes(a.amount)
            && r[72..108] == PackedKeyOption(a.delegate, buf[72..108])
            && r[108] == StateByte(a.state)
            && r[109..121] == PackedU64Option(a.isNative, buf[109..121])
            && r[121..129] == U64Bytes(a.delegatedAmount)
            && r[129..165] == PackedKeyOption(a.closeAuthority, buf[129..165])
  {
  }

  lemma AccountJoin(b: seq<u8>)
    requires |b| == ACCOUNT_LEN
    ensures b == b[0..32] + b[32..64] + b[64..72] + b[72..108] + [b[108]] + b[109..121] + b[121..129] + b[129..165]
  {
  }

  lemma AccountRoundTrip(a: Account, buf: seq<u8>)
    requires |buf| == ACCOUNT_LEN
    ensures ParseAccount(PackedAccount(a, buf)) == Ok(a)
  {
    AccountSlices(a, buf);
    KeyRoundTrip(a.mint);
    KeyRoundTrip(a.owner);
    U64RoundTrip(a.amount);
    U64RoundTrip(a.delegatedAmount);
    KeyOptionRoundTrip(a.delegate, buf[72..108]);
    U64OptionRoundTrip(a.isNative, buf[109..121]);
    KeyOptionRoundTrip(a.closeAuthority, buf[129..165]);
  }

  lemma AccountRepack(a: Account, buf: seq<u8>)
    requires |buf| == ACCOUNT_LEN && ParseAccount(buf) == Ok(a)
    ensures PackedAccount(a, buf) == buf
  {
    AccountJoin(buf);
    KeyRoundTripBack(buf[0..32]);
    KeyRoundTripBack(buf[32..64]);
    U64RoundTripBack(buf[64..72]);
    U64RoundTripBack(buf[121..129]);
    KeyOptionRoundTrip(a.delegate, buf[72..108]);
    U64OptionRoundTrip(a.isNative, buf[109..121]);
    KeyOptionRoundTrip(a.closeAuthority, buf[129..165]);
  }

  // Multisigs: three single bytes and the eleven keys

  function FlatKeys(keys: seq<Pubkey>): (bytes: seq<u8>)
    ensures |bytes| == 32 * |keys|
  {
    if keys == [] then [] else KeyBytes(keys[0]) + FlatKeys(keys[1..])
  }

  function ChunkKeys(bytes: seq<u8>): (keys: seq<Pubkey>)
    requires |bytes| % 32 == 0
    ensures |keys| == |bytes| / 32
  {
    if bytes == [] then [] else [KeyOf(bytes[..32])] + ChunkKeys(bytes[32..])
  }

  lemma {:induction false} KeysRoundTrip(keys: seq<Pubkey>)
    ensures ChunkKeys(FlatKeys(keys)) == keys
  {
    if keys != [] {
      var bytes := FlatKeys(keys);
      KeyRoundTrip(keys[0]);
      KeysRoundTrip(keys[1..]);
      assert bytes[..32] == KeyBytes(keys[0]) && bytes[32..] == FlatKeys(keys[1..]);
    }
  }

  lemma {:induction false} KeysRepack(bytes: seq<u8>)
    requires |bytes| % 32 == 0
    ensures FlatKeys(ChunkKeys(bytes)) == bytes
  {
    if bytes != [] {
      KeyRoundTripBack(bytes[..32]);
      KeysRepack(bytes[32..]);
      assert bytes == bytes[..32] + bytes[32..];
    }
  }

  function PackedMultisig(ms: Multisig): (r: seq<u8>)
    ensures |r| == MULTISIG_LEN
  {
    [ms.m, ms.n, FlagByte(ms.isInitialized)] + FlatKeys(ms.signers)
  }

  function ParseMultisig(src: seq<u8>): Result<Multisig>
    requires |src| == MULTISIG_LEN
  {
    if src[2] > 1 then Err(InvalidAccountData)
    else Ok(Multisig(src[0], src[1], src[2] == 1, ChunkKeys(src[3..])))
  }

  lemma MultisigRoundTrip(ms: Multisig)
    ensures ParseMultisig(PackedMultisig(ms)) == Ok(ms)
  {
    assert PackedMultisig(ms)[3..] == FlatKeys(ms.signers);
    KeysRoundTrip(ms.signers);
  }

  lemma MultisigRepack(ms: Multisig, buf: seq<u8>)
    requires |buf| == MULTISIG_LEN && ParseMultisig(buf) == Ok(ms)
    ensures PackedMultisig(ms) == buf
  {
    KeysRepack(buf[3..]);
    assert buf == [buf[0], buf[1], buf[2]] + buf[3..];
  }

  // Writing in place

  /** A buffer whose first bytes have been overwritten by `done` and whose rest is as it was. */
  ghost predicate Progress(now: seq<u8>, was: seq<u8>, done: seq<u8>) {
    |done| <= |was| && now == done + was[|done|..]
  }

  method WriteAt(dst: array<u8>, at: nat, bytes: seq<u8>, ghost was: seq<u8>, ghost done: seq<u8>)
    requires at + |bytes| <= dst.Length == |was|
    requires |done| == at && Progress(dst[..], was, done)
    modifies dst
    ensures Progress(dst[..], was, done + bytes)
  {
    var i := 0;
    while i < |bytes|
      invariant 0 <= i <= |bytes|
      invariant forall j :: 0 <= j < i ==> dst[at + j] == bytes[j]
      invariant forall j :: 0 <= j < at ==> dst[j] == done[j]
      invariant forall j :: at + i <= j < dst.Length ==> dst[j] == was[j]
    {
      dst[at + i] := bytes[i];
      i := i + 1;
    }
  }

  method WriteKeyOption(o: Option<Pubkey>, dst: array<u8>, at: nat, ghost was: seq<u8>, ghost done: seq<u8>)
    requires at + 36 <= dst.Length == |was|
    requires |done| == at && Progress(dst[..], was, done)
    modifies dst
    ensures Progress(dst[..], was, done + PackedKeyOption(o, was[at..at + 36]))
  {
    match o
    case Some(key) =>
      WriteAt(dst, at, SOME_TAG, was, done);
      WriteAt(dst, at + 4, KeyBytes(key), was, done + SOME_TAG);
      assert done + SOME_TAG + KeyBytes(key) == done + PackedKeyOption(o, was[at..at + 36]);
    case None =>
      WriteAt(dst, at, NONE_TAG, was, done);
      assert dst[..] == done + PackedKeyOption(o, was[at..at + 36]) + was[at + 36..];
  }

  method WriteU64Option(o: Option<u64>, dst: array<u8>, at: nat, ghost was: seq<u8>, ghost done: seq<u8>)
    requires at + 12 <= dst.Length == |was|
    requires |done| == at && Progress(dst[..], was, done)
    modifies dst
    ensures Progress(dst[..], was, done + PackedU64Option(o, was[at..at + 12]))
  {
    match o
    case Some(x) =>
      WriteAt(dst, at, SOME_TAG, was, done);
      WriteAt(dst, at + 4, U64Bytes(x), was, done + SOME_TAG);
      assert done + SOME_TAG + U64Bytes(x) == done + PackedU64Option(o, was[at..at + 12]);
    case None =>
      WriteAt(dst, at, NONE_TAG, was, done);
      assert dst[..] == done + PackedU64Option(o, was[at..at + 12]) + was[at + 12..];
  }

  /** The mint authority and the supply of a mint. */
  ghost function MintHead(m: Mint, buf: seq<u8>): (r: seq<u8>)
    requires |buf| == MINT_LEN
    ensures |r| == 44
  {
    PackedKeyOption(m.mintAuthority, buf[0..36]) + U64Bytes(m.supply)
  }

  method WriteMintHead(m: Mint, dst: array<u8>, ghost was: seq<u8>)
    requires dst.Length == MINT_LEN == |was| && dst[..] == was
    modifies dst
    ensures Progress(dst[..], was, MintHead(m, was))
  {
    ghost var done := [];
    WriteKeyOption(m.mintAuthority, dst, 0, was, done);
    done := done + PackedKeyOption(m.mintAuthority, was[0..36]);
    WriteAt(dst, 36, U64Bytes(m.supply), was, done);
  }

  method PackMint(m: Mint, dst: array<u8>) returns (r: Result<()>)
    modifies dst
    ensures dst.Length != MINT_LEN ==> r == Err(InvalidAccountData) && dst[..] == old(dst[..])
    ensures dst.Length == MINT_LEN ==> r.Ok? && dst[..] == PackedMint(m, old(dst[..]))
  {
    if dst.Length != MINT_LEN {
      return Err(InvalidAccountData);
    }
    ghost var was := dst[..];
    WriteMintHead(m, dst, was);
    ghost var done := MintHead(m, was);
    WriteAt(dst, 44, [m.decimals], was, done);
    done := done + [m.decimals];
    WriteAt(dst, 45, [FlagByte(m.isInitialized)], was, done);
    done := done + [FlagByte(m.isInitialized)];
    WriteKeyOption(m.freezeAuthority, dst, 46, was, done);
    return Ok(());
  }

  /** The first four fields of a token account. */
  ghost function AccountHead(a: Account, buf: seq<u8>): (r: seq<u8>)
    requires |buf| == ACCOUNT_LEN
    ensures |r| == 108
  {
    KeyBytes(a.mint) + KeyBytes(a.owner) + U64Bytes(a.amount) + PackedKeyOption(a.delegate, buf[72..108])
  }

  method WriteAccountHead(a: Account, dst: array<u8>, ghost was: seq<u8>)
    requires dst.Length == ACCOUNT_LEN == |was| && dst[..] == was
    modifies dst
    ensures Progress(dst[..], was, AccountHead(a, was))
  {
    ghost var done := [];
    WriteAt(dst, 0, KeyBytes(a.mint), was, done);
    done := done + KeyBytes(a.mint);
    WriteAt(dst, 32, KeyBytes(a.owner), was, done);
    done := done + KeyBytes(a.owner);
    WriteAt(dst, 64, U64Bytes(a.amount), was, done);
    done := done + U64Bytes(a.amount);
    WriteKeyOption(a.delegate, dst, 72, was, done);
  }

  method PackAccount(a: Account, dst: array<u8>) returns (r: Result<()>)
    modifies dst
    ensures dst.Length != ACCOUNT_LEN ==> r == Err(InvalidAccountData) && dst[..] == old(dst[..])
    ensures dst.Length == ACCOUNT_LEN ==> r.Ok? && dst[..] == PackedAccount(a, old(dst[..]))
  {
    if dst.Length != ACCOUNT_LEN {
      return Err(InvalidAccountData);
    }
    ghost var was := dst[..];
    WriteAccountHead(a, dst, was);
    ghost var done := AccountHead(a, was);
    WriteAt(dst, 108, [StateByte(a.state)], was, done);
    done := done + [StateByte(a.state)];
    WriteU64Option(a.isNative, dst, 109, was, done);
    done := done + PackedU64Option(a.isNative, was[109..121]);
    WriteAt(dst, 121, U64Bytes(a.delegatedAmount), was, done);
    done := done + U64Bytes(a.delegatedAmount);
    WriteKeyOption(a.closeAuthority, dst, 129, was, done);
    return Ok(());
  }

  lemma {:induction false} FlatPrefix(keys: seq<Pubkey>, i: nat)
    requires i < |keys|
    ensures FlatKeys(keys[..i + 1]) == FlatKeys(keys[..i]) + KeyBytes(keys[i])
  {
    if i > 0 {
      assert keys[..i + 1][1..] == keys[1..][..i] && keys[..i][1..] == keys[1..][..i - 1];
      FlatPrefix(keys[1..], i - 1);
    }
  }

  method WriteKeys(keys: seq<Pubkey>, dst: array<u8>, at: nat, ghost was: seq<u8>, ghost done: seq<u8>)
    requires at + 32 * |keys| <= dst.Length == |was|
    requires |done| == at && Progress(dst[..], was, done)
    modifies dst
    ensures Progress(dst[..], was, done + FlatKeys(keys))
  {
    assert done + FlatKeys(keys[..0]) == done;
    for i := 0 to |keys|
      invariant Progress(dst[..], was, done + FlatKeys(keys[..i]))
    {
      ghost var part := done + FlatKeys(keys[..i]);
      WriteAt(dst, at + 32 * i, KeyBytes(keys[i]), was, part);
      FlatPrefix(keys, i);
      assert part + KeyBytes(keys[i]) == done + FlatKeys(keys[..i + 1]);
    }
    assert keys[..|keys|] == keys;
  }

  method PackMultisig(ms: Multisig, dst: array<u8>) returns (r: Result<()>)
    modifies dst
    ensures dst.Length != MULTISIG_LEN ==> r == Err(InvalidAccountData) && dst[..] == old(dst[..])
    ensures dst.Length == MULTISIG_LEN ==> r.Ok? && dst[..] == PackedMultisig(ms)
  {
    if dst.Length != MULTISIG_LEN {
      return Err(InvalidAccountData);
    }
    ghost var was, done := dst[..], [];
    WriteAt(dst, 0, [ms.m], was, done);
    done := done + [ms.m];
    WriteAt(dst, 1, [ms.n], was, done);
    done := done + [ms.n];
    WriteAt(dst, 2, [FlagByte(ms.isInitialized)], was, done);
    done := done + [FlagByte(ms.isInitialized)];
    WriteKeys(ms.signers, dst, 3, was, done);
    assert done == [ms.m, ms.n, FlagByte(ms.isInitialized)];
    return Ok(());
  }
}
