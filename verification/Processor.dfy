/** The token program's handlers, working on raw accounts as the runtime presents them. */
module Processor {
  import opened Types
  import opened Ledger
  import opened Authority
  import opened Rules
  import opened Bytes
  import opened StateCodec
  import opened Memory
  import opened Specification
  import opened Conformance
  import InstructionCodec

  /** The bytes of a cell changed only if its decoded value did. */
  ghost predicate UnhiddenAt(before: RawStore, after: RawStore, k: Pubkey) {
    Decode(RawAt(after, k).data) == Decode(RawAt(before, k).data) ==> RawAt(after, k).data == RawAt(before, k).data
  }

  ghost predicate Unhidden(before: RawStore, after: RawStore) {
    forall k: Pubkey :: UnhiddenAt(before, after, k)
  }

  /** No cell but k was written, and k not without showing. */
  ghost predicate Rewrote(before: RawStore, after: RawStore, k: Pubkey) {
    && (forall j: Pubkey :: j != k ==> RawAt(after, j) == RawAt(before, j))
    && UnhiddenAt(before, after, k)
  }

  /** A handler did what was decided: the event's effect, or an error and nothing else. */
  ghost predicate Carried(before: RawStore, after: RawStore, decided: Result<Event>, r: Result<()>) {
    match decided
    case Ok(e) => r.Ok? && Ready(View(before), e) && View(after) == Apply(View(before), e) && Unhidden(before, after)
    case Err(error) => r == Err(error) && after == before
  }

  lemma UnhiddenSame(cells: RawStore)
    ensures Unhidden(cells, cells)
  {
  }

  lemma UnhiddenOne(before: RawStore, after: RawStore, k: Pubkey)
    requires Rewrote(before, after, k)
    ensures Unhidden(before, after)
  {
    hide Decode;
  }

  lemma UnhiddenTwo(before: RawStore, middle: RawStore, after: RawStore, j: Pubkey, k: Pubkey)
    requires j != k && Rewrote(before, middle, j) && Rewrote(middle, after, k)
    ensures Unhidden(before, after)
  {
    hide Decode;
    forall i: Pubkey
      ensures UnhiddenAt(before, after, i)
    {
      assert i != k ==> RawAt(after, i) == RawAt(middle, i);
      assert i != j ==> RawAt(middle, i) == RawAt(before, i);
    }
  }

  ghost predicate SameData(before: RawStore, after: RawStore) {
    forall k: Pubkey :: RawAt(after, k).data == RawAt(before, k).data
  }

  lemma UnhiddenFrom(before: RawStore, moved: RawStore, after: RawStore)
    requires SameData(before, moved) && Unhidden(moved, after)
    ensures Unhidden(before, after)
  {
    hide Decode;
    forall k: Pubkey
      ensures UnhiddenAt(before, after, k)
    {
      assert UnhiddenAt(moved, after, k);
    }
  }

  /** The raw accounts after a debit of lamports that nothing balances. */
  function DebitOnly(cells: RawStore, source: Pubkey, amount: u64): RawStore
    requires amount <= RawAt(cells, source).lamports
  {
    cells[source := RawAt(cells, source).(lamports := RawAt(cells, source).lamports - amount)]
  }

  /** The destination of a native transfer cannot hold the lamports the source can give. */
  predicate NoRoom(s: Store, source: Pubkey, dest: Pubkey, amount: u64) {
    && source != dest
    && AccountAt(s, source).isNative.Some?
    && AccountAt(s, dest).amount + amount <= U64_MAX
    && amount <= At(s, source).lamports
    && At(s, dest).lamports + amount > U64_MAX
  }

  /** The one way a handler leaves something behind on failure: a native transfer that
      passes every check up to and including the approval debits the source and then finds
      no room at the destination. */
  ghost predicate Stranded(s: Store, metas: seq<Meta>, amount: u64, expectedDecimals: Option<u8>) {
    var d := if expectedDecimals.Some? then 1 else 0;
    && |metas| >= 3 + d
    && var source, dest := metas[0].key, metas[1 + d].key;
    && Usable(s, source) && Usable(s, dest)
    && var a := AccountAt(s, source);
    && amount <= a.amount && a.mint == AccountAt(s, dest).mint
    && CheckMint(s, metas[1].key, a.mint, expectedDecimals).Ok?
    && DecideSpend(s, a, amount, metas[2 + d], metas[3 + d..]).Ok?
    && NoRoom(s, source, dest, amount)
  }

  /** Stranding is one of the overflows of a transfer, and the only one without room. */
  lemma StrandedIsOverflow(s: Store, metas: seq<Meta>, amount: u64, expectedDecimals: Option<u8>)
    ensures var d := if expectedDecimals.Some? then 1 else 0;
            Stranded(s, metas, amount, expectedDecimals) <==>
              && DecideTransfer(s, metas, amount, expectedDecimals) == Err(Overflow)
              && NoRoom(s, metas[0].key, metas[1 + d].key, amount)
  {
    hide CheckMint, DecideSpend;
  }

  /** What the program decides about an instruction it receives as bytes. */
  ghost function DecideInput(s: Store, sys: Sysvars, metas: seq<Meta>, input: seq<u8>): Result<Event> {
    var i :- InstructionCodec.Unpack(input);
    Decide(s, sys, metas, i)
  }

  ghost predicate StrandedInput(s: Store, metas: seq<Meta>, input: seq<u8>) {
    match InstructionCodec.Unpack(input)
    case Ok(Transfer(amount)) => Stranded(s, metas, amount, None)
    case Ok(TransferChecked(amount, d)) => Stranded(s, metas, amount, Some(d))
    case _ => false
  }

  /** The amount a stranded transfer takes from its source. */
  function AmountOf(input: seq<u8>): u64 {
    match InstructionCodec.Unpack(input)
    case Ok(Transfer(amount)) => amount
    case Ok(TransferChecked(amount, _)) => amount
    case _ => 0
  }

  lemma StrandedFails(s: Store, sys: Sysvars, metas: seq<Meta>, input: seq<u8>)
    requires StrandedInput(s, metas, input)
    ensures DecideInput(s, sys, metas, input) == Err(Overflow)
  {
    hide DecideTransfer, Stranded;
    match InstructionCodec.Unpack(input) {
      case Ok(Transfer(amount)) => StrandedIsOverflow(s, metas, amount, None);
      case Ok(TransferChecked(amount, d)) => StrandedIsOverflow(s, metas, amount, Some(d));
    }
  }

  class Accounts {
    var cells: RawStore

    // Access to one account

    method PeekAccount(k: Pubkey) returns (r: Result<Account>)
      ensures var d := At(View(cells), k).data;
              r == if d.AccountData? then Ok(d.account) else Err(InvalidAccountData)
    {
      ViewAt(cells, k);
      var data := RawAt(cells, k).data;
      if |data| != ACCOUNT_LEN {
        return Err(InvalidAccountData);
      }
      return ParseAccount(data);
    }

    method PeekMint(k: Pubkey) returns (r: Result<Mint>)
      ensures var d := At(View(cells), k).data;
              r == if d.MintData? then Ok(d.mint) else Err(InvalidAccountData)
    {
      ViewAt(cells, k);
      var data := RawAt(cells, k).data;
      if |data| != MINT_LEN {
        return Err(InvalidAccountData);
      }
      return ParseMint(data);
    }

    method PeekMultisig(k: Pubkey) returns (r: Result<Multisig>)
      ensures var d := At(View(cells), k).data;
              r == if d.MultisigData? then Ok(d.multisig) else Err(InvalidAccountData)
    {
      ViewAt(cells, k);
      var data := RawAt(cells, k).data;
      if |data| != MULTISIG_LEN {
        return Err(InvalidAccountData);
      }
      return ParseMultisig(data);
    }

    method LoadAccount(k: Pubkey) returns (r: Result<Account>)
      ensures r == UnpackAccount(At(View(cells), k).data)
    {
      hide View;
      var a :- PeekAccount(k);
      if a.state.Uninitialized? {
        return Err(UninitializedAccount);
      }
      return Ok(a);
    }

    method LoadMint(k: Pubkey) returns (r: Result<Mint>)
      ensures r == UnpackMint(At(View(cells), k).data)
    {
      hide View;
      var m :- PeekMint(k);
      if !m.isInitialized {
        return Err(UninitializedAccount);
      }
      return Ok(m);
    }

    method Lamports(k: Pubkey) returns (lamports: u64)
      ensures lamports == At(View(cells), k).lamports
    {
      ViewAt(cells, k);
      return RawAt(cells, k).lamports;
    }

    method DataLen(k: Pubkey) returns (len: nat)
      ensures len == At(View(cells), k).data.Len()
    {
      ViewAt(cells, k);
      DecodeLen(RawAt(cells, k).data);
      return |RawAt(cells, k).data|;
    }

    method StoreAccount(k: Pubkey, a: Account)
      requires At(View(cells), k).data.AccountData?
      modifies this
      ensures View(cells) == SetData(old(View(cells)), k, AccountData(a))
      ensures Rewrote(old(cells), cells, k)
    {
      ViewAt(cells, k);
      var c := RawAt(cells, k);
      DecodeLen(c.data);
      var buf := new u8[|c.data|](i requires 0 <= i < |c.data| => c.data[i]);
      assert buf[..] == c.data;
      var _ := PackAccount(a, buf);
      DecodePackedAccount(a, c.data);
      ViewUpdate(cells, k, c.(data := buf[..]));
      cells := cells[k := c.(data := buf[..])];
    }

    method StoreMint(k: Pubkey, m: Mint)
      requires At(View(cells), k).data.MintData?
      modifies this
      ensures View(cells) == SetData(old(View(cells)), k, MintData(m))
      ensures Rewrote(old(cells), cells, k)
    {
      ViewAt(cells, k);
      var c := RawAt(cells, k);
      DecodeLen(c.data);
      var buf := new u8[|c.data|](i requires 0 <= i < |c.data| => c.data[i]);
      assert buf[..] == c.data;
      var _ := PackMint(m, buf);
      DecodePackedMint(m, c.data);
      ViewUpdate(cells, k, c.(data := buf[..]));
      cells := cells[k := c.(data := buf[..])];
    }

    method StoreMultisig(k: Pubkey, ms: Multisig)
      requires At(View(cells), k).data.MultisigData?
      modifies this
      ensures View(cells) == SetData(old(View(cells)), k, MultisigData(ms))
      ensures Rewrote(old(cells), cells, k)
    {
      ViewAt(cells, k);
      var c := RawAt(cells, k);
      DecodeLen(c.data);
      var buf := new u8[|c.data|](i requires 0 <= i < |c.data| => c.data[i]);
      assert buf[..] == c.data;
      var _ := PackMultisig(ms, buf);
      DecodePackedMultisig(ms, c.data);
      ViewUpdate(cells, k, c.(data := buf[..]));
      cells := cells[k := c.(data := buf[..])];
    }

    method StoreLamports(k: Pubkey, lamports: u64)
      modifies this
      ensures View(cells) == SetLamports(old(View(cells)), k, lamports)
      ensures cells == old(cells)[k := RawAt(old(cells), k).(lamports := lamports)]
    {
      ViewAt(cells, k);
      var c := RawAt(cells, k).(lamports := lamports);
      ViewUpdate(cells, k, c);
      cells := cells[k := c];
    }

    /** Overwrites an account's data with zeros. */
    method Wipe(k: Pubkey)
      requires At(View(cells), k).data.AccountData?
      requires !At(View(cells), k).data.account.state.Uninitialized?
      modifies this
      ensures View(cells) == SetData(old(View(cells)), k, AccountData(ZERO_ACCOUNT))
      ensures Rewrote(old(cells), cells, k)
    {
      ViewAt(cells, k);
      var c := RawAt(cells, k);
      DecodeLen(c.data);
      var wiped := c.(data := Zeros(ACCOUNT_LEN));
      ZeroAccount(wiped.data);
      ViewUpdate(cells, k, wiped);
      cells := cells[k := wiped];
    }

    method CheckAccountOwner(k: Pubkey) returns (r: Result<()>)
      ensures r == CheckOwned(View(cells), k)
    {
      ViewAt(cells, k);
      if RawAt(cells, k).owner != TOKEN_PROGRAM {
        return Err(IncorrectProgramId);
      }
      return Ok(());
    }

    method ValidateOwner(expected: Pubkey, who: Meta, signers: seq<Meta>) returns (r: Result<()>)
      ensures r == OwnerOutcome(View(cells), expected, who, signers)
    {
      hide View, Decode;
      if expected != who.key {
        return Err(OwnerMismatch);
      }
      ViewAt(cells, who.key);
      var len := DataLen(who.key);
      if RawAt(cells, who.key).owner == TOKEN_PROGRAM && len == MULTISIG_LEN {
        var ms :- PeekMultisig(who.key);
        if !ms.isInitialized {
          return Err(UninitializedAccount);
        }
        r := MatchSigners(ms, signers);
        return r;
      } else if !who.isSigner {
        return Err(MissingRequiredSignature);
      }
      return Ok(());
    }

    // Initialization

    method ProcessInitializeMint(sys: Sysvars, metas: seq<Meta>, decimals: u8, mintAuthority: Pubkey,
                                 freezeAuthority: Option<Pubkey>, rentAccount: bool) returns (r: Result<()>)
      modifies this
      ensures Carried(old(cells), cells,
                      DecideInitializeMint(View(old(cells)), sys, metas, decimals, mintAuthority, freezeAuthority,
                                           rentAccount), r)
      ensures r.Ok? ==>
                && |metas| >= 1
                && var supply := MintAt(View(old(cells)), metas[0].key).supply;
                MintBecomes(View(old(cells)), View(cells), metas[0].key,
                            Mint(Some(mintAuthority), supply, decimals, true, freezeAuthority))
    {
      hide View, Decode, RawAt, MintBecomes;
      if DecideInitializeMint(View(cells), sys, metas, decimals, mintAuthority, freezeAuthority, rentAccount).Ok? {
        CreateHasEffect(View(cells), sys, metas, decimals, mintAuthority, freezeAuthority, rentAccount);
      }
      if |metas| < 1 {
        return Err(NotEnoughAccountKeys);
      }
      var k := metas[0].key;
      var rent :- GetRent(sys, metas, 1, rentAccount);
      var mint :- PeekMint(k);
      if mint.isInitialized {
        return Err(AlreadyInUse);
      }
      var lamports := Lamports(k);
      if lamports < rent.minimumBalance(MINT_LEN) {
        return Err(NotRentExempt);
      }
      mint := mint.(mintAuthority := Some(mintAuthority));
      mint := mint.(decimals := decimals);
      mint := mint.(isInitialized := true);
      mint := mint.(freezeAuthority := freezeAuthority);
      StoreMint(k, mint);
      UnhiddenOne(old(cells), cells, k);
      return Ok(());
    }

    method ProcessInitializeAccount(sys: Sysvars, metas: seq<Meta>, owner: Option<Pubkey>, rentAccount: bool)
      returns (r: Result<()>)
      modifies this
      ensures Carried(old(cells), cells, DecideInitializeAccount(View(old(cells)), sys, metas, owner, rentAccount), r)
      ensures var fixed := if owner.Some? then 2 else 3;
              r.Ok? ==>
                && |metas| >= fixed
                && OpenEffect(View(old(cells)), View(cells), metas[0].key, metas[1].key,
                              if owner.Some? then owner.value else metas[2].key,
                              if rentAccount then RentAt(sys, metas, fixed) else sys.rentSyscall)
    {
      hide View, Decode, RawAt, OpenEffect;
      if DecideInitializeAccount(View(cells), sys, metas, owner, rentAccount).Ok? {
        OpenHasEffect(View(cells), sys, metas, owner, rentAccount);
      }
      var fixed := if owner.Some? then 2 else 3;
      if |metas| < fixed {
        return Err(NotEnoughAccountKeys);
      }
      var k, mint := metas[0].key, metas[1].key;
      var holder := if owner.Some? then owner.value else metas[2].key;
      var rent :- GetRent(sys, metas, fixed, rentAccount);
      var a :- PeekAccount(k);
      if !a.state.Uninitialized? {
        return Err(AlreadyInUse);
      }
      var lamports := Lamports(k);
      if lamports < rent.minimumBalance(ACCOUNT_LEN) {
        return Err(NotRentExempt);
      }
      if mint != NATIVE_MINT {
        var _ :- CheckAccountOwner(mint);
        var m := LoadMint(mint);
        if m.Err? {
          return Err(InvalidMint);
        }
      }
      a := a.(mint := mint, owner := holder, delegate := None, delegatedAmount := 0, state := Initialized);
      if mint == NATIVE_MINT {
        var reserve := rent.minimumBalance(ACCOUNT_LEN);
        a := a.(isNative := Some(reserve));
        // The subtraction cannot underflow: the account was found rent exempt.
        a := a.(amount := lamports - reserve);
      } else {
        a := a.(isNative := None);
        a := a.(amount := 0);
      }
      StoreAccount(k, a);
      UnhiddenOne(old(cells), cells, k);
      return Ok(());
    }

    /** Writes the listed keys over the front of the key array; aborts past its end. */
    method FillSigners(ms: Multisig, infos: seq<Meta>) returns (r: Result<Multisig>)
      ensures r == if |infos| <= MAX_SIGNERS
                   then Ok(ms.(signers := Keys(infos) + ms.signers[|infos|..]))
                   else Err(Panic)
    {
      var out := ms;
      var i := 0;
      while i < |infos|
        invariant 0 <= i <= |infos| && i <= MAX_SIGNERS
        invariant out == ms.(signers := Keys(infos)[..i] + ms.signers[i..])
      {
        if i >= MAX_SIGNERS {
          return Err(Panic);
        }
        out := out.(signers := out.signers[i := infos[i].key]);
        i := i + 1;
      }
      assert Keys(infos)[..|infos|] == Keys(infos);
      return Ok(out);
    }

    method ProcessInitializeMultisig(sys: Sysvars, metas: seq<Meta>, m: u8, rentAccount: bool) returns (r: Result<()>)
      modifies this
      ensures Carried(old(cells), cells, DecideInitializeMultisig(View(old(cells)), sys, metas, m, rentAccount), r)
      ensures var fixed := if rentAccount then 2 else 1;
              r.Ok? ==> |metas| >= fixed && MultisigEffect(View(old(cells)), View(cells), metas, fixed, m)
    {
      hide View, Decode, RawAt, MultisigEffect;
      if DecideInitializeMultisig(View(cells), sys, metas, m, rentAccount).Ok? {
        MultisigHasEffect(View(cells), sys, metas, m, rentAccount);
      }
      if |metas| < 1 {
        return Err(NotEnoughAccountKeys);
      }
      var k := metas[0].key;
      var rent :- GetRent(sys, metas, 1, rentAccount);
      var ms :- PeekMultisig(k);
      if ms.isInitialized {
        return Err(AlreadyInUse);
      }
      var lamports := Lamports(k);
      if lamports < rent.minimumBalance(MULTISIG_LEN) {
        return Err(NotRentExempt);
      }
      var infos := metas[if rentAccount then 2 else 1..];
      ms := ms.(m := m);
      ms := ms.(n := |infos| % 0x100);
      if !IsValidSignerIndex(ms.n) {
        return Err(InvalidNumberOfProvidedSigners);
      }
      if !IsValidSignerIndex(ms.m) {
        return Err(InvalidNumberOfRequiredSigners);
      }
      ms :- FillSigners(ms, infos);
      ms := ms.(isInitialized := true);
      StoreMultisig(k, ms);
      UnhiddenOne(old(cells), cells, k);
      return Ok(());
    }

    // Moving tokens

    /** The mint check of the instructions that name the mint they expect. */
    method CheckExpectedMint(key: Pubkey, mint: Pubkey, expectedDecimals: Option<u8>) returns (r: Result<()>)
      ensures r == CheckMint(View(cells), key, mint, expectedDecimals)
    {
      hide View;
      if expectedDecimals.Some? {
        if key != mint {
          return Err(MintMismatch);
        }
        var m :- LoadMint(key);
        if expectedDecimals.value != m.decimals {
          return Err(MintDecimalsMismatch);
        }
      }
      return Ok(());
    }

    /** The authorization of a transfer or burn; yields the account with its allowance reduced. */
    method AuthorizeSpend(a: Account, amount: u64, keepAllowance: bool, authority: Meta, signers: seq<Meta>)
      returns (r: Result<Account>)
      ensures var d := DecideSpend(View(cells), a, amount, authority, signers);
              && r.Err? == d.Err?
              && (d.Err? ==> r == Err(d.error))
              && (d.Ok? && amount <= a.amount ==>
                    r == Ok(if keepAllowance then a else Debited(a, amount, d.value).(amount := a.amount)))
    {
      hide View;
      if a.delegate == Some(authority.key) {
        var _ :- ValidateOwner(authority.key, authority, signers);
        if a.delegatedAmount < amount {
          return Err(InsufficientFunds);
        }
        if keepAllowance {
          return Ok(a);
        }
        var b := a.(delegatedAmount := a.delegatedAmount - amount);
        if b.delegatedAmount == 0 {
          b := b.(delegate := None);
        }
        return Ok(b);
      }
      var _ :- ValidateOwner(a.owner, authority, signers);
      return Ok(a);
    }

    /** Moves lamports along with the tokens of a native transfer. The source is debited
        before the destination is checked. */
    method MoveLamports(source: Pubkey, dest: Pubkey, amount: u64) returns (r: Result<()>)
      requires source != dest
      modifies this
      ensures var s := View(old(cells));
              var from, to := At(s, source).lamports, At(s, dest).lamports;
              if from < amount then r == Err(Overflow) && cells == old(cells)
              else if to + amount > U64_MAX then
                && r == Err(Overflow)
                && amount <= RawAt(old(cells), source).lamports && cells == DebitOnly(old(cells), source, amount)
              else
                && r.Ok? && SameData(old(cells), cells)
                && View(cells) == SetLamports(SetLamports(s, source, from - amount), dest, to + amount)
    {
      ViewAt(cells, source);
      hide View, Decode;
      var from := Lamports(source);
      if from < amount {
        return Err(Overflow);
      }
      StoreLamports(source, from - amount);
      var to := Lamports(dest);
      if to + amount > U64_MAX {
        return Err(Overflow);
      }
      StoreLamports(dest, to + amount);
      return Ok(());
    }

    /** The end of a transfer: lamports, for native accounts, and then both records. */
    method Settle(source: Pubkey, dest: Pubkey, a: Account, b: Account, amount: u64) returns (r: Result<()>)
      requires source != dest
      requires At(View(cells), source).data.AccountData? && At(View(cells), dest).data.AccountData?
      modifies this
      ensures var s := View(old(cells));
              var from, to := At(s, source), At(s, dest);
              if a.isNative.Some? && from.lamports < amount then r == Err(Overflow) && cells == old(cells)
              else if a.isNative.Some? && to.lamports + amount > U64_MAX then
                && r == Err(Overflow)
                && amount <= RawAt(old(cells), source).lamports && cells == DebitOnly(old(cells), source, amount)
              else
                var moved: u64 := if a.isNative.Some? then amount else 0;
                && r.Ok? && Unhidden(old(cells), cells)
                && View(cells) == s[source := from.(lamports := from.lamports - moved, data := AccountData(a))]
                                   [dest := to.(lamports := to.lamports + moved, data := AccountData(b))]
    {
      hide View, Decode, RawAt;
      if a.isNative.Some? {
        var _ :- MoveLamports(source, dest, amount);
      }
      ghost var moved := cells;
      StoreAccount(source, a);
      ghost var half := cells;
      StoreAccount(dest, b);
      UnhiddenTwo(moved, half, cells, source, dest);
      assert SameData(old(cells), moved);
      UnhiddenFrom(old(cells), moved, cells);
      return Ok(());
    }

    /** The part of a transfer that follows its authorization. */
    method CompleteTransfer(source: Pubkey, dest: Pubkey, a: Account, b: Account, amount: u64, ghost byDelegate: bool)
      returns (r: Result<()>)
      requires CanSpend(View(cells), source, amount, byDelegate) && Usable(View(cells), dest)
      requires AccountAt(View(cells), source).mint == AccountAt(View(cells), dest).mint
      requires b == AccountAt(View(cells), dest)
      requires var was := AccountAt(View(cells), source);
               source != dest ==> a == Debited(was, amount, byDelegate).(amount := was.amount)
      modifies this
      ensures var s := View(old(cells));
              if NoRoom(s, source, dest, amount) then
                && r == Err(Overflow)
                && amount <= RawAt(old(cells), source).lamports && cells == DebitOnly(old(cells), source, amount)
              else
                Carried(old(cells), cells, DecideMove(s, source, dest, amount, byDelegate), r)
      ensures var s, t := View(old(cells)), View(cells);
              r.Ok? && source != dest ==>
                && AccountAt(t, source).amount == AccountAt(s, source).amount - amount
                && AccountAt(t, dest) == b.(amount := AccountAt(t, dest).amount)
                && AccountAt(t, dest).amount == b.amount + amount
    {
      hide View, Decode, RawAt, UnhiddenAt, Unhidden;
      var selfTransfer := source == dest;
      if selfTransfer || amount == 0 {
        var _ :- CheckAccountOwner(source);
        var _ :- CheckAccountOwner(dest);
      }
      if selfTransfer {
        UnhiddenSame(cells);
        return Ok(());
      }
      if b.amount + amount > U64_MAX {
        return Err(Overflow);
      }
      r := Settle(source, dest, a.(amount := a.amount - amount), b.(amount := b.amount + amount), amount);
    }

    method ProcessTransfer(metas: seq<Meta>, amount: u64, expectedDecimals: Option<u8>) returns (r: Result<()>)
      modifies this
      ensures !Stranded(View(old(cells)), metas, amount, expectedDecimals) ==>
                Carried(old(cells), cells, DecideTransfer(View(old(cells)), metas, amount, expectedDecimals), r)
      ensures Stranded(View(old(cells)), metas, amount, expectedDecimals) ==>
                && r == Err(Overflow) && amount <= RawAt(old(cells), metas[0].key).lamports
                && cells == DebitOnly(old(cells), metas[0].key, amount)
      ensures var d := if expectedDecimals.Some? then 1 else 0;
              r.Ok? ==>
                && |metas| >= 3 + d
                && TransferEffect(View(old(cells)), View(cells), metas[0].key, metas[1 + d].key, amount,
                                  metas[2 + d].key)
    {
      hide View, Decode, RawAt, CheckMint, DecideSpend, Unhidden, Apply, Enabled, TransferEffect;
      if DecideTransfer(View(cells), metas, amount, expectedDecimals).Ok? {
        TransferHasEffect(View(cells), metas, amount, expectedDecimals);
      }
      var d := if expectedDecimals.Some? then 1 else 0;
      if |metas| < 3 + d {
        return Err(NotEnoughAccountKeys);
      }
      var source, dest, authority := metas[0].key, metas[1 + d].key, metas[2 + d];
      var a :- LoadAccount(source);
      var b :- LoadAccount(dest);
      if a.state.Frozen? || b.state.Frozen? {
        return Err(AccountFrozen);
      }
      if a.amount < amount {
        return Err(InsufficientFunds);
      }
      if a.mint != b.mint {
        return Err(MintMismatch);
      }
      var _ :- CheckExpectedMint(metas[1].key, a.mint, expectedDecimals);
      ghost var decided := DecideSpend(View(cells), a, amount, authority, metas[3 + d..]);
      a :- AuthorizeSpend(a, amount, source == dest, authority, metas[3 + d..]);
      r := CompleteTransfer(source, dest, a, b, amount, decided.value);
    }

    // Authorities

    method ProcessApprove(metas: seq<Meta>, amount: u64, expectedDecimals: Option<u8>) returns (r: Result<()>)
      modifies this
      ensures Carried(old(cells), cells, DecideApprove(View(old(cells)), metas, amount, expectedDecimals), r)
      ensures var d := if expectedDecimals.Some? then 1 else 0;
              r.Ok? ==>
                && |metas| >= 3 + d
                && var a := AccountAt(View(old(cells)), metas[0].key);
                Becomes(View(old(cells)), View(cells), metas[0].key,
                        a.(delegate := Some(metas[1 + d].key), delegatedAmount := amount))
    {
      hide View, Decode, RawAt, OwnerOutcome, CheckMint, Unhidden, Becomes;
      if DecideApprove(View(cells), metas, amount, expectedDecimals).Ok? {
        ApproveHasEffect(View(cells), metas, amount, expectedDecimals);
      }
      var d := if expectedDecimals.Some? then 1 else 0;
      if |metas| < 3 + d {
        return Err(NotEnoughAccountKeys);
      }
      var source, delegate, owner := metas[0].key, metas[1 + d].key, metas[2 + d];
      var a :- LoadAccount(source);
      if a.state.Frozen? {
        return Err(AccountFrozen);
      }
      var _ :- CheckExpectedMint(metas[1].key, a.mint, expectedDecimals);
      var _ :- ValidateOwner(a.owner, owner, metas[3 + d..]);
      a := a.(delegate := Some(delegate));
      a := a.(delegatedAmount := amount);
      StoreAccount(source, a);
      UnhiddenOne(old(cells), cells, source);
      return Ok(());
    }

    method ProcessRevoke(metas: seq<Meta>) returns (r: Result<()>)
      modifies this
      ensures Carried(old(cells), cells, DecideRevoke(View(old(cells)), metas), r)
      ensures r.Ok? ==>
                && |metas| >= 2
                && var a := AccountAt(View(old(cells)), metas[0].key);
                Becomes(View(old(cells)), View(cells), metas[0].key, a.(delegate := None, delegatedAmount := 0))
    {
      hide View, Decode, RawAt, OwnerOutcome, Unhidden, Becomes;
      if DecideRevoke(View(cells), metas).Ok? {
        RevokeHasEffect(View(cells), metas);
      }
      if |metas| < 1 {
        return Err(NotEnoughAccountKeys);
      }
      var source := metas[0].key;
      var a :- LoadAccount(source);
      if |metas| < 2 {
        return Err(NotEnoughAccountKeys);
      }
      if a.state.Frozen? {
        return Err(AccountFrozen);
      }
      var _ :- ValidateOwner(a.owner, metas[1], metas[2..]);
      a := a.(delegate := None);
      a := a.(delegatedAmount := 0);
      StoreAccount(source, a);
      UnhiddenOne(old(cells), cells, source);
      return Ok(());
    }

    method ProcessSetAuthority(metas: seq<Meta>, kind: AuthorityType, authority: Option<Pubkey>) returns (r: Result<()>)
      modifies this
      ensures Carried(old(cells), cells, DecideSetAuthority(View(old(cells)), metas, kind, authority), r)
      ensures r.Ok? ==> |metas| >= 2 && AuthorityEffect(View(old(cells)), View(cells), metas[0].key, kind, authority)
    {
      hide View, Decode, RawAt, OwnerOutcome, Unhidden, AuthorityEffect;
      if DecideSetAuthority(View(cells), metas, kind, authority).Ok? {
        AuthorityHasEffect(View(cells), metas, kind, authority);
      }
      if |metas| < 2 {
        return Err(NotEnoughAccountKeys);
      }
      var k := metas[0].key;
      var len := DataLen(k);
      if len == ACCOUNT_LEN {
        var a :- LoadAccount(k);
        if a.state.Frozen? {
          return Err(AccountFrozen);
        }
        match kind {
        case AccountOwner =>
          var _ :- ValidateOwner(a.owner, metas[1], metas[2..]);
          if authority.None? {
            return Err(InvalidInstruction);
          }
          a := a.(owner := authority.value);
          a := a.(delegate := None);
          a := a.(delegatedAmount := 0);
          if a.isNative.Some? {
            a := a.(closeAuthority := None);
          }
        case CloseAccounts =>
          var _ :- ValidateOwner(a.Closer(), metas[1], metas[2..]);
          a := a.(closeAuthority := authority);
        case _ =>
          return Err(AuthorityTypeNotSupported);
        }
        StoreAccount(k, a);
      } else if len == MINT_LEN {
        var m :- LoadMint(k);
        match kind {
        case MintTokens =>
          if m.mintAuthority.None? {
            return Err(FixedSupply);
          }
          var _ :- ValidateOwner(m.mintAuthority.value, metas[1], metas[2..]);
          m := m.(mintAuthority := authority);
        case FreezeAccounts =>
          if m.freezeAuthority.None? {
            return Err(MintCannotFreeze);
          }
          var _ :- ValidateOwner(m.freezeAuthority.value, metas[1], metas[2..]);
          m := m.(freezeAuthority := authority);
        case _ =>
          return Err(AuthorityTypeNotSupported);
        }
        StoreMint(k, m);
      } else {
        return Err(InvalidArgument);
      }
      UnhiddenOne(old(cells), cells, k);
      return Ok(());
    }

    // Supply

    method ProcessMintTo(metas: seq<Meta>, amount: u64, expectedDecimals: Option<u8>) returns (r: Result<()>)
      modifies this
      ensures Carried(old(cells), cells, DecideMintTo(View(old(cells)), metas, amount, expectedDecimals), r)
      ensures r.Ok? ==> |metas| >= 3 && IssueEffect(View(old(cells)), View(cells), metas[0].key, metas[1].key, amount)
    {
      hide View, Decode, RawAt, OwnerOutcome, Unhidden, IssueEffect;
      if DecideMintTo(View(cells), metas, amount, expectedDecimals).Ok? {
        IssueHasEffect(View(cells), metas, amount, expectedDecimals);
      }
      if |metas| < 3 {
        return Err(NotEnoughAccountKeys);
      }
      var mint, dest := metas[0].key, metas[1].key;
      var b :- LoadAccount(dest);
      if b.state.Frozen? {
        return Err(AccountFrozen);
      }
      if b.isNative.Some? {
        return Err(NativeNotSupported);
      }
      if mint != b.mint {
        return Err(MintMismatch);
      }
      var m :- LoadMint(mint);
      if expectedDecimals.Some? && expectedDecimals.value != m.decimals {
        return Err(MintDecimalsMismatch);
      }
      if m.mintAuthority.None? {
        return Err(FixedSupply);
      }
      var _ :- ValidateOwner(m.mintAuthority.value, metas[2], metas[3..]);
      if amount == 0 {
        var _ :- CheckAccountOwner(mint);
        var _ :- CheckAccountOwner(dest);
      }
      if b.amount + amount > U64_MAX {
        return Err(Overflow);
      }
      b := b.(amount := b.amount + amount);
      if m.supply + amount > U64_MAX {
        return Err(Overflow);
      }
      m := m.(supply := m.supply + amount);
      StoreAccount(dest, b);
      ghost var half := cells;
      StoreMint(mint, m);
      UnhiddenTwo(old(cells), half, cells, dest, mint);
      return Ok(());
    }

    method ProcessBurn(metas: seq<Meta>, amount: u64, expectedDecimals: Option<u8>) returns (r: Result<()>)
      modifies this
      ensures Carried(old(cells), cells, DecideBurn(View(old(cells)), metas, amount, expectedDecimals), r)
      ensures r.Ok? ==>
                && |metas| >= 3
                && DestroyEffect(View(old(cells)), View(cells), metas[0].key, metas[1].key, amount, metas[2].key)
    {
      hide View, Decode, RawAt, DecideSpend, Unhidden, DestroyEffect;
      if DecideBurn(View(cells), metas, amount, expectedDecimals).Ok? {
        DestroyHasEffect(View(cells), metas, amount, expectedDecimals);
      }
      if |metas| < 3 {
        return Err(NotEnoughAccountKeys);
      }
      var source, mint := metas[0].key, metas[1].key;
      var a :- LoadAccount(source);
      var m :- LoadMint(mint);
      if a.state.Frozen? {
        return Err(AccountFrozen);
      }
      if a.isNative.Some? {
        return Err(NativeNotSupported);
      }
      if a.amount < amount {
        return Err(InsufficientFunds);
      }
      if mint != a.mint {
        return Err(MintMismatch);
      }
      if expectedDecimals.Some? && expectedDecimals.value != m.decimals {
        return Err(MintDecimalsMismatch);
      }
      a :- AuthorizeSpend(a, amount, false, metas[2], metas[3..]);
      if amount == 0 {
        var _ :- CheckAccountOwner(source);
        var _ :- CheckAccountOwner(mint);
      }
      a := a.(amount := a.amount - amount);
      if m.supply < amount {
        return Err(Overflow);
      }
      m := m.(supply := m.supply - amount);
      StoreAccount(source, a);
      ghost var half := cells;
      StoreMint(mint, m);
      UnhiddenTwo(old(cells), half, cells, source, mint);
      return Ok(());
    }

    // Closing, freezing, syncing

    method ProcessCloseAccount(metas: seq<Meta>) returns (r: Result<()>)
      modifies this
      ensures Carried(old(cells), cells, DecideCloseAccount(View(old(cells)), metas), r)
      ensures r.Ok? ==> |metas| >= 3 && CloseEffect(View(old(cells)), View(cells), metas[0].key, metas[1].key)
    {
      hide View, Decode, OwnerOutcome, Unhidden, Approves, CloseEffect;
      if DecideCloseAccount(View(cells), metas).Ok? {
        CloseHasEffect(View(cells), metas);
      }
      if |metas| < 3 {
        return Err(NotEnoughAccountKeys);
      }
      var source, dest := metas[0].key, metas[1].key;
      if source == dest {
        return Err(InvalidAccountData);
      }
      var a :- LoadAccount(source);
      if a.isNative.None? && a.amount != 0 {
        return Err(NonNativeHasBalance);
      }
      var _ :- ValidateOwner(a.Closer(), metas[2], metas[3..]);
      var to := Lamports(dest);
      var from := Lamports(source);
      if to + from > U64_MAX {
        return Err(Overflow);
      }
      StoreLamports(dest, to + from);
      StoreLamports(source, 0);
      ghost var moved := cells;
      Wipe(source);
      UnhiddenOne(moved, cells, source);
      UnhiddenFrom(old(cells), moved, cells);
      return Ok(());
    }

    method ProcessToggleFreezeAccount(metas: seq<Meta>, freeze: bool) returns (r: Result<()>)
      modifies this
      ensures Carried(old(cells), cells, DecideToggleFreeze(View(old(cells)), metas, freeze), r)
      ensures r.Ok? ==>
                && |metas| >= 3
                && var a := AccountAt(View(old(cells)), metas[0].key);
                Becomes(View(old(cells)), View(cells), metas[0].key, a.(state := if freeze then Frozen else Initialized))
    {
      hide View, Decode, RawAt, OwnerOutcome, Unhidden, Becomes;
      if DecideToggleFreeze(View(cells), metas, freeze).Ok? {
        ToggleHasEffect(View(cells), metas, freeze);
      }
      if |metas| < 3 {
        return Err(NotEnoughAccountKeys);
      }
      var k, mint := metas[0].key, metas[1].key;
      var a :- LoadAccount(k);
      if (freeze && a.state.Frozen?) || (!freeze && !a.state.Frozen?) {
        return Err(InvalidState);
      }
      if a.isNative.Some? {
        return Err(NativeNotSupported);
      }
      if mint != a.mint {
        return Err(MintMismatch);
      }
      var m :- LoadMint(mint);
      if m.freezeAuthority.None? {
        return Err(MintCannotFreeze);
      }
      var _ :- ValidateOwner(m.freezeAuthority.value, metas[2], metas[3..]);
      a := a.(state := if freeze then Frozen else Initialized);
      StoreAccount(k, a);
      UnhiddenOne(old(cells), cells, k);
      return Ok(());
    }

    method ProcessSyncNative(metas: seq<Meta>) returns (r: Result<()>)
      modifies this
      ensures Carried(old(cells), cells, DecideSyncNative(View(old(cells)), metas), r)
      ensures r.Ok? ==> metas != [] && SyncEffect(View(old(cells)), View(cells), metas[0].key)
    {
      hide View, Decode, RawAt, Unhidden, SyncEffect;
      if DecideSyncNative(View(cells), metas).Ok? {
        SyncHasEffect(View(cells), metas);
      }
      if |metas| < 1 {
        return Err(NotEnoughAccountKeys);
      }
      var k := metas[0].key;
      var _ :- CheckAccountOwner(k);
      var a :- LoadAccount(k);
      if a.isNative.None? {
        return Err(NonNativeNotSupported);
      }
      var reserve := a.isNative.value;
      var lamports := Lamports(k);
      if lamports < reserve {
        return Err(Overflow);
      }
      if lamports - reserve < a.amount {
        return Err(InvalidState);
      }
      a := a.(amount := lamports - reserve);
      StoreAccount(k, a);
      UnhiddenOne(old(cells), cells, k);
      return Ok(());
    }

    // Dispatch

    method Dispatch(sys: Sysvars, metas: seq<Meta>, i: Instruction) returns (r: Result<()>)
      requires !i.Transfer? && !i.TransferChecked?
      modifies this
      ensures Carried(old(cells), cells, Decide(View(old(cells)), sys, metas, i), r)
    {
      hide View, Carried, DecideInitializeMint, DecideInitializeAccount, DecideInitializeMultisig, DecideApprove,
           DecideRevoke, DecideSetAuthority, DecideMintTo, DecideBurn, DecideCloseAccount, DecideToggleFreeze,
           DecideSyncNative;
      match i
      case InitializeMint(d, m, f) => r := ProcessInitializeMint(sys, metas, d, m, f, true);
      case InitializeMint2(d, m, f) => r := ProcessInitializeMint(sys, metas, d, m, f, false);
      case InitializeAccount => r := ProcessInitializeAccount(sys, metas, None, true);
      case InitializeAccount2(owner) => r := ProcessInitializeAccount(sys, metas, Some(owner), true);
      case InitializeAccount3(owner) => r := ProcessInitializeAccount(sys, metas, Some(owner), false);
      case InitializeMultisig(m) => r := ProcessInitializeMultisig(sys, metas, m, true);
      case InitializeMultisig2(m) => r := ProcessInitializeMultisig(sys, metas, m, false);
      case Approve(amount) => r := ProcessApprove(metas, amount, None);
      case ApproveChecked(amount, d) => r := ProcessApprove(metas, amount, Some(d));
      case Revoke => r := ProcessRevoke(metas);
      case SetAuthority(kind, authority) => r := ProcessSetAuthority(metas, kind, authority);
      case MintTo(amount) => r := ProcessMintTo(metas, amount, None);
      case MintToChecked(amount, d) => r := ProcessMintTo(metas, amount, Some(d));
      case Burn(amount) => r := ProcessBurn(metas, amount, None);
      case BurnChecked(amount, d) => r := ProcessBurn(metas, amount, Some(d));
      case CloseAccount => r := ProcessCloseAccount(metas);
      case FreezeAccount => r := ProcessToggleFreezeAccount(metas, true);
      case ThawAccount => r := ProcessToggleFreezeAccount(metas, false);
      case SyncNative => r := ProcessSyncNative(metas);
    }

    /** The entry point. It carries out what is decided, and a failure leaves every account
        exactly as it was unless the debit of a native transfer is stranded. */
    method Process(sys: Sysvars, metas: seq<Meta>, input: seq<u8>) returns (r: Result<()>)
      modifies this
      ensures !StrandedInput(View(old(cells)), metas, input) ==>
                Carried(old(cells), cells, DecideInput(View(old(cells)), sys, metas, input), r)
      ensures StrandedInput(View(old(cells)), metas, input) ==>
                && r == Err(Overflow) && AmountOf(input) <= RawAt(old(cells), metas[0].key).lamports
                && cells == DebitOnly(old(cells), metas[0].key, AmountOf(input))
      ensures r.Err? ==> (cells == old(cells) <==> !StrandedInput(View(old(cells)), metas, input))
      ensures var i := InstructionCodec.Unpack(input);
              r.Ok? ==> i.Ok? && Effect(View(old(cells)), sys, metas, i.value, View(cells))
    {
      hide View, DecideTransfer, Unhidden, Effect;
      var i :- InstructionCodec.Unpack(input);
      if Decide(View(cells), sys, metas, i).Ok? {
        SuccessHasEffect(View(cells), sys, metas, i);
      }
      match i
      case Transfer(amount) => r := ProcessTransfer(metas, amount, None);
      case TransferChecked(amount, d) => r := ProcessTransfer(metas, amount, Some(d));
      case _ => r := Dispatch(sys, metas, i);
    }
  }
}
