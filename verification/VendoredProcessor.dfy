/** The vendored 3.1.0 handlers that differ from the 3.3.0 ones, on raw accounts. The others
    it has for the shared instructions read the same in both versions. */
module VendoredProcessor {
  import opened Types
  import opened Ledger
  import opened Authority
  import opened Rules
  import opened Memory
  import opened Processor
  import opened Specification
  import opened Versions

  /** The part of a transfer that follows its authorization. */
  method OldCompleteTransfer(accounts: Accounts, source: Pubkey, dest: Pubkey, a: Account, b: Account, amount: u64,
                             ghost byDelegate: bool) returns (r: Result<()>)
    requires CanSpend(View(accounts.cells), source, amount, byDelegate) && Usable(View(accounts.cells), dest)
    requires AccountAt(View(accounts.cells), source).mint == AccountAt(View(accounts.cells), dest).mint
    requires b == AccountAt(View(accounts.cells), dest)
    requires var was := AccountAt(View(accounts.cells), source);
             source != dest ==> a == Debited(was, amount, byDelegate).(amount := was.amount)
    modifies accounts
    ensures var s := View(old(accounts.cells));
            if NoRoom(s, source, dest, amount) then
              && r == Err(Overflow)
              && amount <= RawAt(old(accounts.cells), source).lamports
              && accounts.cells == DebitOnly(old(accounts.cells), source, amount)
            else
              Carried(old(accounts.cells), accounts.cells, OldMove(s, source, dest, amount, byDelegate), r)
    ensures var s, t := View(old(accounts.cells)), View(accounts.cells);
            r.Ok? && source != dest ==>
              && AccountAt(t, source).amount == AccountAt(s, source).amount - amount
              && AccountAt(t, dest) == b.(amount := AccountAt(t, dest).amount)
              && AccountAt(t, dest).amount == b.amount + amount
  {
    hide View, Decode, RawAt, UnhiddenAt, Unhidden;
    if source == dest {
      UnhiddenSame(accounts.cells);
      return Ok(());
    }
    if b.amount + amount > U64_MAX {
      return Err(Overflow);
    }
    r := accounts.Settle(source, dest, a.(amount := a.amount - amount), b.(amount := b.amount + amount), amount);
  }

  method OldProcessTransfer(accounts: Accounts, metas: seq<Meta>, amount: u64, expectedDecimals: Option<u8>)
    returns (r: Result<()>)
    modifies accounts
    ensures !Stranded(View(old(accounts.cells)), metas, amount, expectedDecimals) ==>
              Carried(old(accounts.cells), accounts.cells,
                              OldTransfer(View(old(accounts.cells)), metas, amount, expectedDecimals), r)
    ensures Stranded(View(old(accounts.cells)), metas, amount, expectedDecimals) ==>
              && r == Err(Overflow) && amount <= RawAt(old(accounts.cells), metas[0].key).lamports
              && accounts.cells == DebitOnly(old(accounts.cells), metas[0].key, amount)
    ensures var d := if expectedDecimals.Some? then 1 else 0;
            r.Ok? ==>
              && |metas| >= 3 + d
              && TransferEffect(View(old(accounts.cells)), View(accounts.cells), metas[0].key, metas[1 + d].key, amount,
                                metas[2 + d].key)
  {
    hide View, Decode, RawAt, CheckMint, DecideSpend, Unhidden, Apply, Ready, TransferEffect;
    if OldTransfer(View(accounts.cells), metas, amount, expectedDecimals).Ok? {
      OldTransferHasEffect(View(accounts.cells), metas, amount, expectedDecimals);
    }
    var d := if expectedDecimals.Some? then 1 else 0;
    if |metas| < 3 + d {
      return Err(NotEnoughAccountKeys);
    }
    var source, dest, authority := metas[0].key, metas[1 + d].key, metas[2 + d];
    var a :- accounts.LoadAccount(source);
    var b :- accounts.LoadAccount(dest);
    if a.state.Frozen? || b.state.Frozen? {
      return Err(AccountFrozen);
    }
    if a.amount < amount {
      return Err(InsufficientFunds);
    }
    if a.mint != b.mint {
      return Err(MintMismatch);
    }
    var _ :- accounts.CheckExpectedMint(metas[1].key, a.mint, expectedDecimals);
    ghost var decided := DecideSpend(View(accounts.cells), a, amount, authority, metas[3 + d..]);
    a :- accounts.AuthorizeSpend(a, amount, source == dest, authority, metas[3 + d..]);
    r := OldCompleteTransfer(accounts, source, dest, a, b, amount, decided.value);
  }

  method OldProcessMintTo(accounts: Accounts, metas: seq<Meta>, amount: u64, expectedDecimals: Option<u8>)
    returns (r: Result<()>)
    modifies accounts
    ensures Carried(old(accounts.cells), accounts.cells,
                    OldMintTo(View(old(accounts.cells)), metas, amount, expectedDecimals), r)
    ensures r.Ok? ==>
              && |metas| >= 3
              && IssueEffect(View(old(accounts.cells)), View(accounts.cells), metas[0].key, metas[1].key, amount)
  {
    hide View, Decode, RawAt, OwnerOutcome, Unhidden, IssueEffect;
    if OldMintTo(View(accounts.cells), metas, amount, expectedDecimals).Ok? {
      OldIssueHasEffect(View(accounts.cells), metas, amount, expectedDecimals);
    }
    if |metas| < 3 {
      return Err(NotEnoughAccountKeys);
    }
    var mint, dest := metas[0].key, metas[1].key;
    var b :- accounts.LoadAccount(dest);
    if b.state.Frozen? {
      return Err(AccountFrozen);
    }
    if b.isNative.Some? {
      return Err(NativeNotSupported);
    }
    if mint != b.mint {
      return Err(MintMismatch);
    }
    var m :- accounts.LoadMint(mint);
    if expectedDecimals.Some? && expectedDecimals.value != m.decimals {
      return Err(MintDecimalsMismatch);
    }
    if m.mintAuthority.None? {
      return Err(FixedSupply);
    }
    var _ :- accounts.ValidateOwner(m.mintAuthority.value, metas[2], metas[3..]);
    if b.amount + amount > U64_MAX {
      return Err(Overflow);
    }
    b := b.(amount := b.amount + amount);
    if m.supply + amount > U64_MAX {
      return Err(Overflow);
    }
    m := m.(supply := m.supply + amount);
    accounts.StoreAccount(dest, b);
    ghost var half := accounts.cells;
    accounts.StoreMint(mint, m);
    UnhiddenTwo(old(accounts.cells), half, accounts.cells, dest, mint);
    return Ok(());
  }

  method OldProcessBurn(accounts: Accounts, metas: seq<Meta>, amount: u64, expectedDecimals: Option<u8>)
    returns (r: Result<()>)
    modifies accounts
    ensures Carried(old(accounts.cells), accounts.cells,
                    OldBurn(View(old(accounts.cells)), metas, amount, expectedDecimals), r)
    ensures r.Ok? ==>
              && |metas| >= 3
              && DestroyEffect(View(old(accounts.cells)), View(accounts.cells), metas[0].key, metas[1].key, amount,
                               metas[2].key)
  {
    hide View, Decode, RawAt, DecideSpend, Unhidden, DestroyEffect;
    if OldBurn(View(accounts.cells), metas, amount, expectedDecimals).Ok? {
      OldDestroyHasEffect(View(accounts.cells), metas, amount, expectedDecimals);
    }
    if |metas| < 3 {
      return Err(NotEnoughAccountKeys);
    }
    var source, mint := metas[0].key, metas[1].key;
    var a :- accounts.LoadAccount(source);
    var m :- accounts.LoadMint(mint);
    if a.state.Frozen? {
      return Err(AccountFrozen);
    }
    if a.isNative.Some? {
      return Err(NativeNotSupported);
    }
    if a.amount < amount {
      return Err(InsufficientFunds);
    }
    if mint != a.mint {
      return Err(MintMismatch);
    }
    if expectedDecimals.Some? && expectedDecimals.value != m.decimals {
      return Err(MintDecimalsMismatch);
    }
    a :- accounts.AuthorizeSpend(a, amount, false, metas[2], metas[3..]);
    a := a.(amount := a.amount - amount);
    if m.supply < amount {
      return Err(Overflow);
    }
    m := m.(supply := m.supply - amount);
    accounts.StoreAccount(source, a);
    ghost var half := accounts.cells;
    accounts.StoreMint(mint, m);
    UnhiddenTwo(old(accounts.cells), half, accounts.cells, source, mint);
    return Ok(());
  }
}
