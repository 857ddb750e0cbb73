/** The tagged, variable-length encoding of instructions. */
module InstructionCodec {
  import opened Types
  import opened Bytes

  // Packing

  function AuthorityByte(kind: AuthorityType): u8 {
    match kind
    case MintTokens => 0
    case FreezeAccounts => 1
    case AccountOwner => 2
    case CloseAccounts => 3
  }

  function OptionBytes(o: Option<Pubkey>): (r: seq<u8>)
    ensures |r| == if o.Some? then 33 else 1
  {
    if o.Some? then [1] + KeyBytes(o.value) else [0]
  }

  function Tag(i: Instruction): u8 {
    match i
    case InitializeMint(_, _, _) => 0
    case InitializeAccount => 1
    case InitializeMultisig(_) => 2
    case Transfer(_) => 3
    case Approve(_) => 4
    case Revoke => 5
    case SetAuthority(_, _) => 6
    case MintTo(_) => 7
    case Burn(_) => 8
    case CloseAccount => 9
    case FreezeAccount => 10
    case ThawAccount => 11
    case TransferChecked(_, _) => 12
    case ApproveChecked(_, _) => 13
    case MintToChecked(_, _) => 14
    case BurnChecked(_, _) => 15
    case InitializeAccount2(_) => 16
    case SyncNative => 17
    case InitializeAccount3(_) => 18
    case InitializeMultisig2(_) => 19
    case InitializeMint2(_, _, _) => 20
  }

  function MintBody(decimals: u8, mintAuthority: Pubkey, freezeAuthority: Option<Pubkey>): seq<u8> {
    [decimals] + KeyBytes(mintAuthority) + OptionBytes(freezeAuthority)
  }

  function CheckedBody(amount: u64, decimals: u8): seq<u8> {
    U64Bytes(amount) + [decimals]
  }

  function Body(i: Instruction): seq<u8> {
    match i
    case InitializeMint(d, m, f) => MintBody(d, m, f)
    case InitializeMint2(d, m, f) => MintBody(d, m, f)
    case InitializeMultisig(m) => [m]
    case InitializeMultisig2(m) => [m]
    case Transfer(amount) => U64Bytes(amount)
    case Approve(amount) => U64Bytes(amount)
    case MintTo(amount) => U64Bytes(amount)
    case Burn(amount) => U64Bytes(amount)
    case SetAuthority(kind, authority) => [AuthorityByte(kind)] + OptionBytes(authority)
    case TransferChecked(amount, d) => CheckedBody(amount, d)
    case ApproveChecked(amount, d) => CheckedBody(amount, d)
    case MintToChecked(amount, d) => CheckedBody(amount, d)
    case BurnChecked(amount, d) => CheckedBody(amount, d)
    case InitializeAccount2(owner) => KeyBytes(owner)
    case InitializeAccount3(owner) => KeyBytes(owner)
    case _ => []
  }

  function Packed(i: Instruction): seq<u8> {
    [Tag(i)] + Body(i)
  }

  // Unpacking

  function UnpackKey(input: seq<u8>): Result<(Pubkey, seq<u8>)> {
    if |input| >= 32 then Ok((KeyOf(input[..32]), input[32..])) else Err(InvalidInstruction)
  }

  function UnpackKeyOption(input: seq<u8>): Result<(Option<Pubkey>, seq<u8>)> {
    if input != [] && input[0] == 0 then Ok((None, input[1..]))
    else if |input| >= 33 && input[0] == 1 then Ok((Some(KeyOf(input[1..33])), input[33..]))
    else Err(InvalidInstruction)
  }

  function UnpackAuthority(b: u8): Result<AuthorityType> {
    match b
    case 0 => Ok(MintTokens)
    case 1 => Ok(FreezeAccounts)
    case 2 => Ok(AccountOwner)
    case 3 => Ok(CloseAccounts)
    case _ => Err(InvalidInstruction)
  }

  function UnpackMintBody(rest: seq<u8>): Result<(u8, Pubkey, Option<Pubkey>)> {
    if rest == [] then Err(InvalidInstruction) else
    var (mintAuthority, more) :- UnpackKey(rest[1..]);
    var (freezeAuthority, _) :- UnpackKeyOption(more);
    Ok((rest[0], mintAuthority, freezeAuthority))
  }

  function UnpackAmount(rest: seq<u8>): Result<u64> {
    if |rest| >= 8 then Ok(U64Of(rest[..8])) else Err(InvalidInstruction)
  }

  /** The checked instructions split off the amount without looking at the length first,
      so a body shorter than an amount aborts instead of being refused. */
  function UnpackChecked(rest: seq<u8>): Result<(u64, u8)> {
    if |rest| < 8 then Err(Panic)
    else if |rest| == 8 then Err(InvalidInstruction)
    else Ok((U64Of(rest[..8]), rest[8]))
  }

  function UnpackByte(rest: seq<u8>): Result<u8> {
    if rest == [] then Err(InvalidInstruction) else Ok(rest[0])
  }

  function Unpack(input: seq<u8>): Result<Instruction> {
    if input == [] then Err(InvalidInstruction) else UnpackBody(input[0], input[1..])
  }

  function UnpackBody(tag: u8, rest: seq<u8>): Result<Instruction> {
    match tag
    case 0 => var (d, m, f) :- UnpackMintBody(rest); Ok(InitializeMint(d, m, f))
    case 1 => Ok(InitializeAccount)
    case 2 => var m :- UnpackByte(rest); Ok(InitializeMultisig(m))
    case 3 => var amount :- UnpackAmount(rest); Ok(Transfer(amount))
    case 4 => var amount :- UnpackAmount(rest); Ok(Approve(amount))
    case 5 => Ok(Revoke)
    case 6 =>
      var b :- UnpackByte(rest);
      var kind :- UnpackAuthority(b);
      var (authority, _) :- UnpackKeyOption(rest[1..]);
      Ok(SetAuthority(kind, authority))
    case 7 => var amount :- UnpackAmount(rest); Ok(MintTo(amount))
    case 8 => var amount :- UnpackAmount(rest); Ok(Burn(amount))
    case 9 => Ok(CloseAccount)
    case 10 => Ok(FreezeAccount)
    case 11 => Ok(ThawAccount)
    case 12 => var (amount, d) :- UnpackChecked(rest); Ok(TransferChecked(amount, d))
    case 13 => var (amount, d) :- UnpackChecked(rest); Ok(ApproveChecked(amount, d))
    case 14 => var (amount, d) :- UnpackChecked(rest); Ok(MintToChecked(amount, d))
    case 15 => var (amount, d) :- UnpackChecked(rest); Ok(BurnChecked(amount, d))
    case 16 => var (owner, _) :- UnpackKey(rest); Ok(InitializeAccount2(owner))
    case 17 => Ok(SyncNative)
    case 18 => var (owner, _) :- UnpackKey(rest); Ok(InitializeAccount3(owner))
    case 19 => var m :- UnpackByte(rest); Ok(InitializeMultisig2(m))
    case 20 => var (d, m, f) :- UnpackMintBody(rest); Ok(InitializeMint2(d, m, f))
    case _ => Err(InvalidInstruction)
  }

  // Fields round trip, with anything behind them

  lemma KeyField(k: Pubkey, tail: seq<u8>)
    ensures UnpackKey(KeyBytes(k) + tail) == Ok((k, tail))
  {
    var b := KeyBytes(k) + tail;
    assert b[..32] == KeyBytes(k) && b[32..] == tail;
    KeyRoundTrip(k);
  }

  lemma OptionField(o: Option<Pubkey>, tail: seq<u8>)
    ensures UnpackKeyOption(OptionBytes(o) + tail) == Ok((o, tail))
  {
    var b := OptionBytes(o) + tail;
    if o.Some? {
      assert b[1..33] == KeyBytes(o.value) && b[33..] == tail;
      KeyRoundTrip(o.value);
    } else {
      assert b[1..] == tail;
    }
  }

  lemma AmountField(amount: u64, tail: seq<u8>)
    ensures UnpackAmount(U64Bytes(amount) + tail) == Ok(amount)
  {
    assert (U64Bytes(amount) + tail)[..8] == U64Bytes(amount);
    U64RoundTrip(amount);
  }

  lemma CheckedField(amount: u64, d: u8, tail: seq<u8>)
    ensures UnpackChecked(CheckedBody(amount, d) + tail) == Ok((amount, d))
  {
    assert (CheckedBody(amount, d) + tail)[..8] == U64Bytes(amount);
    U64RoundTrip(amount);
  }

  lemma MintField(d: u8, m: Pubkey, f: Option<Pubkey>, tail: seq<u8>)
    ensures UnpackMintBody(MintBody(d, m, f) + tail) == Ok((d, m, f))
  {
    assert (MintBody(d, m, f) + tail)[1..] == KeyBytes(m) + (OptionBytes(f) + tail);
    KeyField(m, OptionBytes(f) + tail);
    OptionField(f, tail);
  }

  lemma BodyRoundTrip(i: Instruction, tail: seq<u8>)
    ensures UnpackBody(Tag(i), Body(i) + tail) == Ok(i)
  {
    hide KeyBytes, U64Bytes, OptionBytes, UnpackKeyOption, UnpackKey, UnpackMintBody, MintBody,
         UnpackChecked, CheckedBody, UnpackAmount;
    match i
    case InitializeMint(d, m, f) => MintField(d, m, f, tail);
    case InitializeMint2(d, m, f) => MintField(d, m, f, tail);
    case Transfer(amount) => AmountField(amount, tail);
    case Approve(amount) => AmountField(amount, tail);
    case MintTo(amount) => AmountField(amount, tail);
    case Burn(amount) => AmountField(amount, tail);
    case SetAuthority(kind, authority) => SetAuthorityRoundTrip(kind, authority, tail);
    case TransferChecked(amount, d) => CheckedField(amount, d, tail);
    case ApproveChecked(amount, d) => CheckedField(amount, d, tail);
    case MintToChecked(amount, d) => CheckedField(amount, d, tail);
    case BurnChecked(amount, d) => CheckedField(amount, d, tail);
    case InitializeAccount2(owner) => KeyField(owner, tail);
    case InitializeAccount3(owner) => KeyField(owner, tail);
    case _ =>
  }

  lemma SetAuthorityRoundTrip(kind: AuthorityType, authority: Option<Pubkey>, tail: seq<u8>)
    ensures UnpackBody(6, Body(SetAuthority(kind, authority)) + tail) == Ok(SetAuthority(kind, authority))
  {
    hide OptionBytes, UnpackKeyOption;
    var body := Body(SetAuthority(kind, authority)) + tail;
    assert body[1..] == OptionBytes(authority) + tail;
    OptionField(authority, tail);
  }

  /** Every instruction is read back from its encoding, whatever bytes follow. */
  lemma RoundTrip(i: Instruction, tail: seq<u8>)
    ensures Unpack(Packed(i) + tail) == Ok(i)
  {
    hide UnpackBody, Tag, Body;
    assert (Packed(i) + tail)[1..] == Body(i) + tail;
    BodyRoundTrip(i, tail);
  }

  // Whatever is accepted starts with the encoding of what it is taken for

  lemma KeyPrefix(b: seq<u8>)
    requires UnpackKey(b).Ok?
    ensures KeyBytes(UnpackKey(b).value.0) + UnpackKey(b).value.1 == b
  {
    KeyRoundTripBack(b[..32]);
  }

  lemma OptionPrefix(b: seq<u8>)
    requires UnpackKeyOption(b).Ok?
    ensures OptionBytes(UnpackKeyOption(b).value.0) + UnpackKeyOption(b).value.1 == b
  {
    if b[0] == 1 {
      KeyRoundTripBack(b[1..33]);
    }
  }

  lemma AmountPrefix(b: seq<u8>)
    requires UnpackAmount(b).Ok?
    ensures U64Bytes(UnpackAmount(b).value) <= b
  {
    U64RoundTripBack(b[..8]);
  }

  lemma CheckedPrefix(b: seq<u8>)
    requires UnpackChecked(b).Ok?
    ensures CheckedBody(UnpackChecked(b).value.0, UnpackChecked(b).value.1) <= b
  {
    U64RoundTripBack(b[..8]);
  }

  lemma MintPrefix(b: seq<u8>)
    requires UnpackMintBody(b).Ok?
    ensures var (d, m, f) := UnpackMintBody(b).value; MintBody(d, m, f) <= b
  {
    var more := UnpackKey(b[1..]).value.1;
    KeyPrefix(b[1..]);
    OptionPrefix(more);
    var (d, m, f) := UnpackMintBody(b).value;
    var last := UnpackKeyOption(more).value.1;
    assert b == [b[0]] + b[1..];
    assert b == MintBody(d, m, f) + last;
  }

  lemma BodyPrefix(tag: u8, rest: seq<u8>)
    requires UnpackBody(tag, rest).Ok?
    ensures Tag(UnpackBody(tag, rest).value) == tag && Body(UnpackBody(tag, rest).value) <= rest
  {
    hide KeyBytes, U64Bytes, OptionBytes, UnpackKeyOption, UnpackKey, UnpackMintBody, MintBody,
         UnpackChecked, CheckedBody, UnpackAmount;
    if tag == 0 || tag == 20 {
      MintPrefix(rest);
    } else if tag == 3 || tag == 4 || tag == 7 || tag == 8 {
      AmountPrefix(rest);
    } else if tag == 6 {
      OptionPrefix(rest[1..]);
      assert rest == [rest[0]] + rest[1..];
    } else if 12 <= tag <= 15 {
      CheckedPrefix(rest);
    } else if tag == 16 || tag == 18 {
      KeyPrefix(rest);
    }
  }

  /** Every accepted byte string starts with the encoding of the instruction it yields. */
  lemma AcceptedStartsWithPacked(b: seq<u8>)
    requires Unpack(b).Ok?
    ensures Packed(Unpack(b).value) <= b
  {
    hide UnpackBody, Body;
    BodyPrefix(b[0], b[1..]);
    assert b == [b[0]] + b[1..];
  }

  /** No encoding starts with another one: encodings are injective and prefix free. */
  lemma PrefixFree(i: Instruction, j: Instruction)
    requires Packed(i) <= Packed(j)
    ensures i == j
  {
    hide Unpack, Packed;
    var tail := Packed(j)[|Packed(i)|..];
    assert Packed(j) == Packed(i) + tail;
    RoundTrip(i, tail);
    RoundTrip(j, []);
    assert Packed(j) + [] == Packed(j);
  }

  // Building the encoding by appending to a buffer

  method PackOption(o: Option<Pubkey>, buf: seq<u8>) returns (r: seq<u8>)
    ensures r == buf + OptionBytes(o)
  {
    match o
    case Some(key) =>
      r := buf + [1];
      r := r + KeyBytes(key);
    case None =>
      r := buf + [0];
  }

  method PackMintBody(d: u8, m: Pubkey, f: Option<Pubkey>, buf: seq<u8>) returns (r: seq<u8>)
    ensures r == buf + MintBody(d, m, f)
  {
    r := buf + [d];
    r := r + KeyBytes(m);
    r := PackOption(f, r);
  }

  method PackChecked(amount: u64, d: u8, buf: seq<u8>) returns (r: seq<u8>)
    ensures r == buf + CheckedBody(amount, d)
  {
    r := buf + U64Bytes(amount);
    r := r + [d];
  }

  method Pack(i: Instruction) returns (buf: seq<u8>)
    ensures buf == Packed(i)
  {
    hide KeyBytes, U64Bytes, OptionBytes, MintBody, CheckedBody;
    match i
    case InitializeMint(d, m, f) => buf := PackMintBody(d, m, f, [0]);
    case InitializeAccount => buf := [1];
    case InitializeMultisig(m) => buf := [2] + [m];
    case Transfer(amount) => buf := [3] + U64Bytes(amount);
    case Approve(amount) => buf := [4] + U64Bytes(amount);
    case MintTo(amount) => buf := [7] + U64Bytes(amount);
    case Burn(amount) => buf := [8] + U64Bytes(amount);
    case Revoke => buf := [5];
    case SetAuthority(kind, authority) => buf := PackOption(authority, [6] + [AuthorityByte(kind)]);
    case CloseAccount => buf := [9];
    case FreezeAccount => buf := [10];
    case ThawAccount => buf := [11];
    case TransferChecked(amount, d) => buf := PackChecked(amount, d, [12]);
    case ApproveChecked(amount, d) => buf := PackChecked(amount, d, [13]);
    case MintToChecked(amount, d) => buf := PackChecked(amount, d, [14]);
    case BurnChecked(amount, d) => buf := PackChecked(amount, d, [15]);
    case InitializeAccount2(owner) => buf := [16] + KeyBytes(owner);
    case SyncNative => buf := [17];
    case InitializeAccount3(owner) => buf := [18] + KeyBytes(owner);
    case InitializeMultisig2(m) => buf := [19] + [m];
    case InitializeMint2(d, m, f) => buf := PackMintBody(d, m, f, [20]);
  }
}
