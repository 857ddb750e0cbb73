/** What the bytes are: the layouts of instructions and records, given position by position. */
module Layout {
  import opened Types
  import opened Bytes
  import opened StateCodec
  import InstructionCodec

  // Digits

  lemma {:induction false} MultiplesLieApart(d: nat, x: nat, y: nat)
    requires x < y
    ensures d * x + d <= d * y
  {
    if x + 1 < y {
      MultiplesLieApart(d, x, y - 1);
    }
  }

  lemma QuotientIsUnique(d: nat, p: nat, m: nat, q: nat, r: nat)
    requires m < d && r < d && d * p + m == d * q + r
    ensures p == q
  {
    if p < q {
      MultiplesLieApart(d, p, q);
    } else if q < p {
      MultiplesLieApart(d, q, p);
    }
  }

  lemma DivisionIsUnique(n: nat, d: nat, q: nat, r: nat)
    requires r < d && n == d * q + r
    ensures n / d == q
  {
    QuotientIsUnique(d, n / d, n % d, q, r);
  }

  lemma ShiftTwice(n: nat, p: nat)
    requires p > 0
    ensures n / 0x100 / p == n / (0x100 * p)
  {
    var x := n / 0x100;
    var y := x / p;
    assert n == 0x100 * x + n % 0x100 && x == p * y + x % p;
    assert n == (0x100 * p) * y + (0x100 * (x % p) + n % 0x100);
    DivisionIsUnique(n, 0x100 * p, y, 0x100 * (x % p) + n % 0x100);
  }

  lemma {:induction false} DigitOf(n: nat, width: nat, j: nat)
    requires j < width
    ensures ToLE(n, width)[j] == n / Pow256(j) % 0x100
  {
    if j > 0 {
      DigitOf(n / 0x100, width - 1, j - 1);
      ShiftTwice(n, Pow256(j - 1));
    }
  }

  /** The bytes from position `at` on spell x in base 256, least significant byte first. */
  ghost predicate Spells(b: seq<u8>, at: nat, width: nat, x: nat) {
    at + width <= |b| && forall j :: 0 <= j < width ==> b[at + j] == x / Pow256(j) % 0x100
  }

  lemma SpelledOut(b: seq<u8>, at: nat, width: nat, x: nat)
    requires at + width <= |b|
    ensures Spells(b, at, width, x) <==> b[at..at + width] == ToLE(x, width)
  {
    forall j | 0 <= j < width
      ensures ToLE(x, width)[j] == x / Pow256(j) % 0x100
    {
      DigitOf(x, width, j);
    }
    hide Pow256, ToLE;
    assert |b[at..at + width]| == width;
  }

  // Instructions

  ghost predicate OptionalKeyAt(b: seq<u8>, at: nat, o: Option<Pubkey>) {
    && |b| == at + (if o.Some? then 33 else 1)
    && b[at] == (if o.Some? then 1 else 0)
    && (o.Some? ==> Spells(b, at + 1, 32, o.value))
  }

  ghost predicate AmountAfter(b: seq<u8>, tag: u8, amount: u64) {
    |b| == 9 && b[0] == tag && Spells(b, 1, 8, amount)
  }

  ghost predicate CheckedAfter(b: seq<u8>, tag: u8, amount: u64, decimals: u8) {
    |b| == 10 && b[0] == tag && Spells(b, 1, 8, amount) && b[9] == decimals
  }

  ghost predicate MintAfter(b: seq<u8>, tag: u8, decimals: u8, mintAuthority: Pubkey, freezeAuthority: Option<Pubkey>) {
    && |b| >= 34 && b[0] == tag && b[1] == decimals
    && Spells(b, 2, 32, mintAuthority) && OptionalKeyAt(b, 34, freezeAuthority)
  }

  ghost predicate KeyAfter(b: seq<u8>, tag: u8, k: Pubkey) {
    |b| == 33 && b[0] == tag && Spells(b, 1, 32, k)
  }

  ghost predicate AuthorityAfter(b: seq<u8>, kind: u8, authority: Option<Pubkey>) {
    |b| >= 2 && b[0] == 6 && b[1] == kind && OptionalKeyAt(b, 2, authority)
  }

  /** The wire format, byte by byte. */
  ghost predicate Wire(i: Instruction, b: seq<u8>) {
    match i
    case InitializeMint(d, m, f) => MintAfter(b, 0, d, m, f)
    case InitializeAccount => b == [1]
    case InitializeMultisig(m) => b == [2, m]
    case Transfer(amount) => AmountAfter(b, 3, amount)
    case Approve(amount) => AmountAfter(b, 4, amount)
    case Revoke => b == [5]
    case SetAuthority(MintTokens, authority) => AuthorityAfter(b, 0, authority)
    case SetAuthority(FreezeAccounts, authority) => AuthorityAfter(b, 1, authority)
    case SetAuthority(AccountOwner, authority) => AuthorityAfter(b, 2, authority)
    case SetAuthority(CloseAccounts, authority) => AuthorityAfter(b, 3, authority)
    case MintTo(amount) => AmountAfter(b, 7, amount)
    case Burn(amount) => AmountAfter(b, 8, amount)
    case CloseAccount => b == [9]
    case FreezeAccount => b == [10]
    case ThawAccount => b == [11]
    case TransferChecked(amount, d) => CheckedAfter(b, 12, amount, d)
    case ApproveChecked(amount, d) => CheckedAfter(b, 13, amount, d)
    case MintToChecked(amount, d) => CheckedAfter(b, 14, amount, d)
    case BurnChecked(amount, d) => CheckedAfter(b, 15, amount, d)
    case InitializeAccount2(owner) => KeyAfter(b, 16, owner)
    case SyncNative => b == [17]
    case InitializeAccount3(owner) => KeyAfter(b, 18, owner)
    case InitializeMultisig2(m) => b == [19, m]
    case InitializeMint2(d, m, f) => MintAfter(b, 20, d, m, f)
  }

  lemma AmountFormat(b: seq<u8>, tag: u8, amount: u64)
    ensures AmountAfter(b, tag, amount) <==> b == [tag] + U64Bytes(amount)
  {
    hide ToLE, Spells;
    if |b| == 9 {
      SpelledOut(b, 1, 8, amount);
      assert b == [b[0]] + b[1..9];
    }
  }

  lemma CheckedFormat(b: seq<u8>, tag: u8, amount: u64, d: u8)
    ensures CheckedAfter(b, tag, amount, d) <==> b == [tag] + InstructionCodec.CheckedBody(amount, d)
  {
    hide ToLE, Spells;
    if |b| == 10 {
      SpelledOut(b, 1, 8, amount);
      assert b == [b[0]] + (b[1..9] + [b[9]]);
      var c := [tag] + InstructionCodec.CheckedBody(amount, d);
      assert c[1..9] == U64Bytes(amount) && c[9] == d;
    }
  }

  lemma KeyFormat(b: seq<u8>, tag: u8, k: Pubkey)
    ensures KeyAfter(b, tag, k) <==> b == [tag] + KeyBytes(k)
  {
    hide ToLE, Spells;
    if |b| == 33 {
      SpelledOut(b, 1, 32, k);
      assert b == [b[0]] + b[1..33];
    }
  }

  lemma OptionFormat(b: seq<u8>, at: nat, o: Option<Pubkey>)
    requires at <= |b|
    ensures OptionalKeyAt(b, at, o) <==> b[at..] == InstructionCodec.OptionBytes(o)
  {
    hide ToLE, Spells;
    if |b| == at + (if o.Some? then 33 else 1) {
      assert b[at..][0] == b[at];
      if o.Some? {
        SpelledOut(b, at + 1, 32, o.value);
        assert b[at..] == [b[at]] + b[at + 1..at + 33];
      } else {
        assert b[at..] == [b[at]];
      }
    }
  }

  lemma MintFormat(b: seq<u8>, tag: u8, d: u8, m: Pubkey, f: Option<Pubkey>)
    ensures MintAfter(b, tag, d, m, f) <==> b == [tag] + InstructionCodec.MintBody(d, m, f)
  {
    hide ToLE, Spells, OptionalKeyAt, InstructionCodec.OptionBytes;
    var c := [tag] + InstructionCodec.MintBody(d, m, f);
    assert c[0] == tag && c[1] == d && c[2..34] == KeyBytes(m) && c[34..] == InstructionCodec.OptionBytes(f);
    if |b| >= 34 {
      SpelledOut(b, 2, 32, m);
      OptionFormat(b, 34, f);
      assert b == [b[0]] + ([b[1]] + b[2..34] + b[34..]);
    }
  }

  lemma AuthorityFormat(b: seq<u8>, kind: u8, o: Option<Pubkey>)
    ensures AuthorityAfter(b, kind, o) <==> b == [6] + ([kind] + InstructionCodec.OptionBytes(o))
  {
    hide OptionalKeyAt, InstructionCodec.OptionBytes;
    var c := [6] + ([kind] + InstructionCodec.OptionBytes(o));
    assert c[2..] == InstructionCodec.OptionBytes(o);
    if |b| >= 2 {
      OptionFormat(b, 2, o);
      assert b == [b[0]] + ([b[1]] + b[2..]);
    }
  }

  /** The encoding of an instruction is the one byte string in the wire format. */
  lemma WireFormat(i: Instruction, b: seq<u8>)
    ensures Wire(i, b) <==> b == InstructionCodec.Packed(i)
  {
    hide AmountAfter, CheckedAfter, MintAfter, KeyAfter, AuthorityAfter, InstructionCodec.MintBody,
         InstructionCodec.CheckedBody, InstructionCodec.OptionBytes, U64Bytes, KeyBytes;
    match i {
      case InitializeMint(d, m, f) => MintFormat(b, 0, d, m, f);
      case InitializeMint2(d, m, f) => MintFormat(b, 20, d, m, f);
      case Transfer(amount) => AmountFormat(b, 3, amount);
      case Approve(amount) => AmountFormat(b, 4, amount);
      case MintTo(amount) => AmountFormat(b, 7, amount);
      case Burn(amount) => AmountFormat(b, 8, amount);
      case TransferChecked(amount, d) => CheckedFormat(b, 12, amount, d);
      case ApproveChecked(amount, d) => CheckedFormat(b, 13, amount, d);
      case MintToChecked(amount, d) => CheckedFormat(b, 14, amount, d);
      case BurnChecked(amount, d) => CheckedFormat(b, 15, amount, d);
      case InitializeAccount2(owner) => KeyFormat(b, 16, owner);
      case InitializeAccount3(owner) => KeyFormat(b, 18, owner);
      case SetAuthority(kind, authority) => AuthorityFormat(b, InstructionCodec.AuthorityByte(kind), authority);
      case _ =>
    }
  }

  /** Input is taken for an instruction exactly when it starts with that instruction in the
      wire format; bytes behind it are ignored. */
  lemma DecodesExactly(input: seq<u8>, i: Instruction)
    ensures InstructionCodec.Unpack(input) == Ok(i) <==> exists n :: 0 <= n <= |input| && Wire(i, input[..n])
  {
    hide Wire, InstructionCodec.Unpack, InstructionCodec.Packed;
    var p := InstructionCodec.Packed(i);
    WireFormat(i, p);
    if InstructionCodec.Unpack(input) == Ok(i) {
      InstructionCodec.AcceptedStartsWithPacked(input);
      assert input[..|p|] == p;
    }
    if n :| 0 <= n <= |input| && Wire(i, input[..n]) {
      WireFormat(i, input[..n]);
      InstructionCodec.RoundTrip(i, input[n..]);
      assert input == p + input[n..];
    }
  }

  // Records

  /** An optional number: a four-byte tag, and a body that is left as it was when there is none. */
  ghost predicate TaggedAt(b: seq<u8>, at: nat, width: nat, o: Option<nat>, buf: seq<u8>) {
    && at + 4 + width <= |b| == |buf|
    && b[at] == (if o.Some? then 1 else 0) && b[at + 1] == 0 && b[at + 2] == 0 && b[at + 3] == 0
    && (o.Some? ==> Spells(b, at + 4, width, o.value))
    && (o.None? ==> forall j :: at + 4 <= j < at + 4 + width ==> b[j] == buf[j])
  }

  lemma TagFormat(b: seq<u8>, at: nat, width: nat, o: Option<nat>, buf: seq<u8>)
    requires at + 4 + width <= |b| == |buf|
    ensures TaggedAt(b, at, width, o, buf) <==>
            b[at..at + 4 + width]
            == if o.Some? then SOME_TAG + ToLE(o.value, width) else NONE_TAG + buf[at + 4..at + 4 + width]
  {
    hide ToLE, Spells;
    var c, d := b[at + 4..at + 4 + width], buf[at + 4..at + 4 + width];
    assert b[at..at + 4 + width] == [b[at], b[at + 1], b[at + 2], b[at + 3]] + c;
    if o.Some? {
      SpelledOut(b, at + 4, width, o.value);
    } else {
      forall j | at + 4 <= j < at + 4 + width
        ensures c[j - at - 4] == b[j] && d[j - at - 4] == buf[j]
      {
      }
      assert TaggedAt(b, at, width, o, buf) ==> c == d;
      assert NONE_TAG + d == [b[at], b[at + 1], b[at + 2], b[at + 3]] + c ==> c == (NONE_TAG + d)[4..];
    }
  }

  lemma KeyTagFormat(b: seq<u8>, at: nat, o: Option<Pubkey>, buf: seq<u8>)
    requires at + 36 <= |b| == |buf|
    ensures TaggedAt(b, at, 32, o, buf) <==> b[at..at + 36] == PackedKeyOption(o, buf[at..at + 36])
  {
    hide ToLE, TaggedAt;
    TagFormat(b, at, 32, o, buf);
    assert buf[at..at + 36][4..] == buf[at + 4..at + 36];
  }

  lemma U64TagFormat(b: seq<u8>, at: nat, o: Option<u64>, buf: seq<u8>)
    requires at + 12 <= |b| == |buf|
    ensures TaggedAt(b, at, 8, o, buf) <==> b[at..at + 12] == PackedU64Option(o, buf[at..at + 12])
  {
    hide ToLE, TaggedAt;
    TagFormat(b, at, 8, o, buf);
    assert buf[at..at + 12][4..] == buf[at + 4..at + 12];
  }

  /** A mint's 82 bytes, written over `buf`. */
  ghost predicate MintBytes(m: Mint, buf: seq<u8>, b: seq<u8>) {
    && |b| == MINT_LEN
    && TaggedAt(b, 0, 32, m.mintAuthority, buf)
    && Spells(b, 36, 8, m.supply)
    && b[44] == m.decimals
    && b[45] == (if m.isInitialized then 1 else 0)
    && TaggedAt(b, 46, 32, m.freezeAuthority, buf)
  }

  lemma MintLayout(m: Mint, buf: seq<u8>, b: seq<u8>)
    requires |buf| == MINT_LEN
    ensures MintBytes(m, buf, b) <==> b == PackedMint(m, buf)
  {
    hide ToLE, Spells, TaggedAt, PackedKeyOption;
    MintSlices(m, buf);
    if |b| == MINT_LEN {
      KeyTagFormat(b, 0, m.mintAuthority, buf);
      SpelledOut(b, 36, 8, m.supply);
      KeyTagFormat(b, 46, m.freezeAuthority, buf);
      assert b == b[0..36] + b[36..44] + [b[44], b[45]] + b[46..82];
    }
  }

  /** A token account's 165 bytes, written over `buf`. */
  ghost predicate AccountBytes(a: Account, buf: seq<u8>, b: seq<u8>) {
    && |b| == ACCOUNT_LEN
    && Spells(b, 0, 32, a.mint)
    && Spells(b, 32, 32, a.owner)
    && Spells(b, 64, 8, a.amount)
    && TaggedAt(b, 72, 32, a.delegate, buf)
    && b[108] == (match a.state case Uninitialized => 0 case Initialized => 1 case Frozen => 2)
    && TaggedAt(b, 109, 8, a.isNative, buf)
    && Spells(b, 121, 8, a.delegatedAmount)
    && TaggedAt(b, 129, 32, a.closeAuthority, buf)
  }

  lemma AccountLayout(a: Account, buf: seq<u8>, b: seq<u8>)
    requires |buf| == ACCOUNT_LEN
    ensures AccountBytes(a, buf, b) <==> b == PackedAccount(a, buf)
  {
    hide ToLE, Spells, TaggedAt, PackedKeyOption, PackedU64Option;
    AccountSlices(a, buf);
    if |b| == ACCOUNT_LEN {
      SpelledOut(b, 0, 32, a.mint);
      SpelledOut(b, 32, 32, a.owner);
      SpelledOut(b, 64, 8, a.amount);
      KeyTagFormat(b, 72, a.delegate, buf);
      U64TagFormat(b, 109, a.isNative, buf);
      SpelledOut(b, 121, 8, a.delegatedAmount);
      KeyTagFormat(b, 129, a.closeAuthority, buf);
      AccountJoin(b);
    }
  }

  /** The keys stand one after the other, 32 bytes each. */
  ghost predicate KeysAt(b: seq<u8>, at: nat, keys: seq<Pubkey>)
    decreases keys
  {
    keys == [] || (Spells(b, at, 32, keys[0]) && KeysAt(b, at + 32, keys[1..]))
  }

  /** A multisig's 355 bytes. */
  ghost predicate MultisigBytes(ms: Multisig, b: seq<u8>) {
    && |b| == MULTISIG_LEN && b[0] == ms.m && b[1] == ms.n && b[2] == (if ms.isInitialized then 1 else 0)
    && KeysAt(b, 3, ms.signers)
  }

  lemma {:induction false} FlatFormat(b: seq<u8>, at: nat, keys: seq<Pubkey>)
    requires at + 32 * |keys| <= |b|
    ensures KeysAt(b, at, keys) <==> b[at..at + 32 * |keys|] == FlatKeys(keys)
    decreases keys
  {
    hide ToLE, Spells;
    if keys != [] {
      var rest, n := keys[1..], at + 32 * |keys|;
      SpelledOut(b, at, 32, keys[0]);
      FlatFormat(b, at + 32, rest);
      assert b[at..n] == b[at..at + 32] + b[at + 32..n];
      assert FlatKeys(keys)[..32] == KeyBytes(keys[0]) && FlatKeys(keys)[32..] == FlatKeys(rest);
    }
  }

  lemma MultisigLayout(ms: Multisig, b: seq<u8>)
    ensures MultisigBytes(ms, b) <==> b == PackedMultisig(ms)
  {
    hide ToLE, Spells, FlatKeys, KeysAt;
    if |b| == MULTISIG_LEN {
      FlatFormat(b, 3, ms.signers);
      assert b == [b[0], b[1], b[2]] + b[3..355];
    }
  }

  // Reading

  /** Bytes are read as a record exactly when they lay it out. */
  lemma RecordsReadExactly(b: seq<u8>, m: Mint, a: Account, ms: Multisig)
    ensures |b| == MINT_LEN ==> (ParseMint(b) == Ok(m) <==> MintBytes(m, b, b))
    ensures |b| == ACCOUNT_LEN ==> (ParseAccount(b) == Ok(a) <==> AccountBytes(a, b, b))
    ensures |b| == MULTISIG_LEN ==> (ParseMultisig(b) == Ok(ms) <==> MultisigBytes(ms, b))
  {
    hide MintBytes, AccountBytes, MultisigBytes, ParseMint, ParseAccount, ParseMultisig, PackedMint, PackedAccount,
         PackedMultisig;
    if |b| == MINT_LEN {
      MintLayout(m, b, b);
      MintRoundTrip(m, b);
    } else if |b| == ACCOUNT_LEN {
      AccountLayout(a, b, b);
      AccountRoundTrip(a, b);
      if ParseAccount(b) == Ok(a) {
        AccountRepack(a, b);
      }
    } else if |b| == MULTISIG_LEN {
      MultisigLayout(ms, b);
      MultisigRoundTrip(ms);
      if ParseMultisig(b) == Ok(ms) {
        MultisigRepack(ms, b);
      }
    }
  }
}
