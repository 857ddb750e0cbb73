/** What an approved request can count on: in a reachable store nothing but the conditions
    the program names can make it fail. */
module Availability {
  import opened Types
  import opened Ledger
  import opened Authority
  import opened Rules
  import opened Steps
  import opened Balances
  import opened Circulation

  /** The account list of a request: two accounts, whoever approves, and further signers. */
  function Request(first: Pubkey, second: Pubkey, who: Meta, signers: seq<Meta>): (metas: seq<Meta>)
    ensures |metas| == 3 + |signers|
    ensures metas[0].key == first && metas[1].key == second && metas[2] == who && metas[3..] == signers
  {
    [Meta(first, false), Meta(second, false), who] + signers
  }

  /** An owner's transfer between different unfrozen accounts of one mint, within the balance,
      commits unless the owner is also the delegate and exceeds the allowance: whoever is the
      delegate is treated as the delegate. */
  lemma ApprovedTransferCommits(s: Store, sys: Sysvars, source: Pubkey, dest: Pubkey, amount: u64,
                                who: Meta, signers: seq<Meta>)
    requires Reachable(s) && source != dest
    requires LiveAccount(s, source) && LiveAccount(s, dest) && Usable(s, source) && Usable(s, dest)
    requires AccountAt(s, source).mint == AccountAt(s, dest).mint && amount <= AccountAt(s, source).amount
    requires OwnerOutcome(s, AccountAt(s, source).owner, who, signers).Ok?
    ensures var a := AccountAt(s, source);
            var byDelegate := a.delegate == Some(who.key);
            Committed(s, sys, Request(source, dest, who, signers), Transfer(amount))
            == if byDelegate ==> amount <= a.delegatedAmount then Some(Transferred(source, dest, amount, byDelegate))
               else None
  {
    var metas := Request(source, dest, who, signers);
    var byDelegate := AccountAt(s, source).delegate == Some(who.key);
    TransferNeverOverflows(s, metas, amount, None);
    assert AccountAt(s, source).owner == who.key;
    hide Request, Reachable, Consistent, OwnerOutcome, Committed;
    if byDelegate ==> amount <= AccountAt(s, source).delegatedAmount {
      assert DecideTransfer(s, metas, amount, None) == Ok(Transferred(source, dest, amount, byDelegate));
      DecidedCommits(s, sys, metas, Transfer(amount), Transferred(source, dest, amount, byDelegate));
    } else {
      assert DecideTransfer(s, metas, amount, None) == Err(InsufficientFunds);
      RefusedDoesNotCommit(s, sys, metas, Transfer(amount));
    }
  }

  /** The same holds of burning from an ordinary account. */
  lemma ApprovedBurnCommits(s: Store, sys: Sysvars, source: Pubkey, amount: u64, who: Meta, signers: seq<Meta>)
    requires Reachable(s) && LiveAccount(s, source) && Usable(s, source)
    requires AccountAt(s, source).isNative.None? && amount <= AccountAt(s, source).amount
    requires OwnerOutcome(s, AccountAt(s, source).owner, who, signers).Ok?
    ensures var a := AccountAt(s, source);
            var byDelegate := a.delegate == Some(who.key);
            Committed(s, sys, Request(source, a.mint, who, signers), Burn(amount))
            == if byDelegate ==> amount <= a.delegatedAmount then Some(Burned(source, a.mint, amount, byDelegate))
               else None
  {
    var mint := AccountAt(s, source).mint;
    var metas := Request(source, mint, who, signers);
    var byDelegate := AccountAt(s, source).delegate == Some(who.key);
    BurnNeverOverflows(s, metas, amount, None);
    AccountsAreWellFormed(s, source);
    assert AccountAt(s, source).owner == who.key;
    hide Request, Reachable, Consistent, OwnerOutcome, Committed;
    if byDelegate ==> amount <= AccountAt(s, source).delegatedAmount {
      assert DecideBurn(s, metas, amount, None) == Ok(Burned(source, mint, amount, byDelegate));
      DecidedCommits(s, sys, metas, Burn(amount), Burned(source, mint, amount, byDelegate));
    } else {
      assert DecideBurn(s, metas, amount, None) == Err(InsufficientFunds);
      RefusedDoesNotCommit(s, sys, metas, Burn(amount));
    }
  }

  /** Where that happens: an owner who approved themself can neither move nor burn more than
      the allowance, however much is there. */
  lemma OwnerDelegateIsHeldToTheAllowance(sys: Sysvars, balance: u64, allowance: u64, amount: u64)
    requires allowance < amount <= balance
    ensures var s := Circulating(balance, Some(OWNER), allowance);
            && Reachable(s) && Usable(s, HOLDER) && Usable(s, OTHER)
            && AccountAt(s, HOLDER).owner == OWNER && AccountAt(s, HOLDER).amount == balance
            && Decide(s, sys, Request(HOLDER, OTHER, Meta(OWNER, true), []), Transfer(amount)) == Err(InsufficientFunds)
            && Decide(s, sys, Request(HOLDER, MINT, Meta(OWNER, true), []), Burn(amount)) == Err(InsufficientFunds)
  {
    hide Reachable;
    EveryApprovalIsReachable(balance, OWNER, allowance);
    assert OwnerOutcome(Circulating(balance, Some(OWNER), allowance), OWNER, Meta(OWNER, true), []).Ok?;
    hide OwnerOutcome;
  }

  /** Wrapped SOL can always be unwrapped: closing a native account to any other account commits,
      and hands over at least the balance and the reserve. */
  lemma WrappedSolCanBeUnwrapped(s: Store, sys: Sysvars, k: Pubkey, dest: Pubkey, who: Meta, signers: seq<Meta>)
    requires Reachable(s) && k != dest && LiveAccount(s, k) && AccountAt(s, k).isNative.Some?
    requires OwnerOutcome(s, AccountAt(s, k).Closer(), who, signers).Ok?
    ensures var metas := Request(k, dest, who, signers);
            && Committed(s, sys, metas, CloseAccount) == Some(Closed(k, dest))
            && At(Execute(s, sys, metas, CloseAccount), dest).lamports
               >= At(s, dest).lamports + AccountAt(s, k).amount + AccountAt(s, k).isNative.value
  {
    var metas := Request(k, dest, who, signers);
    CloseNeverOverflows(s, metas);
    WrappedSolIsBacked(s, k);
    hide Request, Reachable, Consistent, OwnerOutcome, Committed, Execute;
    assert DecideCloseAccount(s, metas) == Ok(Closed(k, dest));
    DecidedCommits(s, sys, metas, CloseAccount, Closed(k, dest));
  }

  lemma FrozenIsOrdinary(s: Store, k: Pubkey)
    requires Reachable(s) && LiveAccount(s, k) && AccountAt(s, k).state.Frozen?
    ensures AccountAt(s, k).isNative.None? && LiveMint(s, AccountAt(s, k).mint)
  {
    ReachableIsConsistent(s);
    assert CellOk(At(s, k)) && Linked(s, k);
  }

  /** With its mint's freeze authority's approval, an initialized ordinary account can be
      frozen, which changes nothing else about it. */
  lemma ApprovedFreezeCommits(s: Store, sys: Sysvars, k: Pubkey, who: Meta, signers: seq<Meta>)
    requires Reachable(s) && LiveAccount(s, k) && Usable(s, k) && AccountAt(s, k).isNative.None?
    requires var m := MintAt(s, AccountAt(s, k).mint);
             m.freezeAuthority.Some? && OwnerOutcome(s, m.freezeAuthority.value, who, signers).Ok?
    ensures var metas := Request(k, AccountAt(s, k).mint, who, signers);
            && Committed(s, sys, metas, FreezeAccount) == Some(FreezeSet(k, AccountAt(s, k).mint, true))
            && AccountAt(Execute(s, sys, metas, FreezeAccount), k) == AccountAt(s, k).(state := Frozen)
  {
    var mint := AccountAt(s, k).mint;
    var metas := Request(k, mint, who, signers);
    AccountsAreWellFormed(s, k);
    hide Request, Reachable, OwnerOutcome, Committed, Execute;
    assert DecideToggleFreeze(s, metas, true) == Ok(FreezeSet(k, mint, true));
    DecidedCommits(s, sys, metas, FreezeAccount, FreezeSet(k, mint, true));
  }

  /** A frozen account's owner can act again once it is thawed, and only its mint's freeze
      authority can thaw it: with that approval thawing commits. */
  lemma ApprovedThawCommits(s: Store, sys: Sysvars, k: Pubkey, who: Meta, signers: seq<Meta>)
    requires Reachable(s) && LiveAccount(s, k) && AccountAt(s, k).state.Frozen?
    requires var m := MintAt(s, AccountAt(s, k).mint);
             m.freezeAuthority.Some? && OwnerOutcome(s, m.freezeAuthority.value, who, signers).Ok?
    ensures var metas := Request(k, AccountAt(s, k).mint, who, signers);
            && Committed(s, sys, metas, ThawAccount) == Some(FreezeSet(k, AccountAt(s, k).mint, false))
            && Usable(Execute(s, sys, metas, ThawAccount), k)
  {
    var mint := AccountAt(s, k).mint;
    var metas := Request(k, mint, who, signers);
    FrozenIsOrdinary(s, k);
    hide Request, Reachable, OwnerOutcome, Committed, Execute;
    assert DecideToggleFreeze(s, metas, false) == Ok(FreezeSet(k, mint, false));
    DecidedCommits(s, sys, metas, ThawAccount, FreezeSet(k, mint, false));
  }
}
