/** What the invariant says about supplies, wrapped SOL and overflow. */
module Balances {
  import opened Types
  import opened Ledger
  import opened Authority
  import opened Rules
  import opened Steps

  /** In every reachable state an ordinary mint's supply is the sum of the balances of
      its live accounts. */
  lemma SupplyIsSumOfBalances(s: Store, mint: Pubkey)
    requires Reachable(s) && LiveMint(s, mint) && mint != NATIVE_MINT
    ensures MintAt(s, mint).supply == Total(BalanceOf(mint), s)
  {
    ReachableIsConsistent(s);
    assert Backed(s, mint);
  }

  /** In every reachable state the accounts of the native mint, and only they, are native,
      and each holds lamports for its reserve and for its whole balance. */
  lemma WrappedSolIsBacked(s: Store, k: Pubkey)
    requires Reachable(s) && LiveAccount(s, k)
    ensures AccountAt(s, k).isNative.Some? <==> AccountAt(s, k).mint == NATIVE_MINT
    ensures AccountAt(s, k).isNative.Some? ==>
              AccountAt(s, k).isNative.value + AccountAt(s, k).amount <= At(s, k).lamports
    ensures 0 < At(s, k).lamports
  {
    ReachableIsConsistent(s);
    assert CellOk(At(s, k));
  }

  /** All wrapped SOL together is covered by the lamports there are. */
  lemma WrappedSolIsSolvent(s: Store)
    requires Reachable(s)
    ensures Total(BalanceOf(NATIVE_MINT), s) <= Total(Lamports, s)
  {
    ReachableIsConsistent(s);
    forall k | k in s.Keys
      ensures Weight(BalanceOf(NATIVE_MINT), At(s, k)) <= Weight(Lamports, At(s, k))
    {
      assert CellOk(At(s, k));
    }
    SumDominated(BalanceOf(NATIVE_MINT), Lamports, s, s.Keys);
  }

  /** Every live account of an ordinary mint refers to a live mint; and an account without a
      delegate has no allowance left over. */
  lemma AccountsAreWellFormed(s: Store, k: Pubkey)
    requires Reachable(s) && LiveAccount(s, k)
    ensures AccountAt(s, k).isNative.None? ==> LiveMint(s, AccountAt(s, k).mint)
    ensures AccountAt(s, k).delegate.None? ==> AccountAt(s, k).delegatedAmount == 0
  {
    ReachableIsConsistent(s);
    assert CellOk(At(s, k)) && Linked(s, k);
  }

  /** Syncing cannot fail on the arithmetic, and brings the balance up to the lamports
      above the reserve. */
  lemma SyncOnlyRaises(s: Store, metas: seq<Meta>)
    requires Reachable(s)
    ensures DecideSyncNative(s, metas) != Err(Overflow)
    ensures DecideSyncNative(s, metas) != Err(InvalidState)
    ensures DecideSyncNative(s, metas).Ok? ==>
              var k, t := metas[0].key, Apply(s, DecideSyncNative(s, metas).value);
              && AccountAt(s, k).isNative.Some?
              && AccountAt(s, k).amount <= AccountAt(t, k).amount
              && AccountAt(t, k).amount + AccountAt(s, k).isNative.value == At(t, k).lamports
  {
    ReachableIsConsistent(s);
    if metas != [] {
      assert CellOk(At(s, metas[0].key));
    }
  }

  // Overflow

  /** Two accounts of one mint hold at most 64 bits together. */
  lemma PairFits(s: Store, j: Pubkey, k: Pubkey)
    requires Consistent(s) && LiveAccount(s, j) && LiveAccount(s, k) && j != k
    requires AccountAt(s, j).mint == AccountAt(s, k).mint
    ensures AccountAt(s, j).amount + AccountAt(s, k).amount <= U64_MAX
  {
    var mint := AccountAt(s, j).mint;
    assert CellOk(At(s, j)) && CellOk(At(s, k));
    if mint == NATIVE_MINT {
      TotalBoundsPair(Lamports, s, j, k);
    } else {
      assert Linked(s, j) && Backed(s, mint);
      TotalBoundsPair(BalanceOf(mint), s, j, k);
    }
  }

  /** A balance never exceeds its mint's supply. */
  lemma BalanceWithinSupply(s: Store, k: Pubkey)
    requires Consistent(s) && LiveAccount(s, k) && AccountAt(s, k).mint != NATIVE_MINT
    ensures LiveMint(s, AccountAt(s, k).mint)
    ensures AccountAt(s, k).amount <= MintAt(s, AccountAt(s, k).mint).supply
  {
    var mint := AccountAt(s, k).mint;
    assert Linked(s, k) && Backed(s, mint);
    TotalBounds(BalanceOf(mint), s, k);
  }

  lemma TransferNeverOverflows(s: Store, metas: seq<Meta>, amount: u64, expectedDecimals: Option<u8>)
    requires Reachable(s)
    requires var d := if expectedDecimals.Some? then 1 else 0;
             |metas| >= 3 + d ==> Owned(s, metas[0].key) && Owned(s, metas[1 + d].key)
    ensures DecideTransfer(s, metas, amount, expectedDecimals) != Err(Overflow)
  {
    ReachableIsConsistent(s);
    var d := if expectedDecimals.Some? then 1 else 0;
    if |metas| >= 3 + d {
      var source, dest := metas[0].key, metas[1 + d].key;
      assert CellOk(At(s, source));
      if source != dest && LiveAccount(s, source) && LiveAccount(s, dest)
         && AccountAt(s, source).mint == AccountAt(s, dest).mint
      {
        PairFits(s, source, dest);
        TotalBoundsPair(Lamports, s, source, dest);
      }
    }
  }

  lemma BurnNeverOverflows(s: Store, metas: seq<Meta>, amount: u64, expectedDecimals: Option<u8>)
    requires Reachable(s)
    requires metas != [] ==> Owned(s, metas[0].key)
    ensures DecideBurn(s, metas, amount, expectedDecimals) != Err(Overflow)
  {
    ReachableIsConsistent(s);
    if metas != [] {
      var source := metas[0].key;
      assert CellOk(At(s, source));
      if LiveAccount(s, source) && AccountAt(s, source).mint != NATIVE_MINT {
        BalanceWithinSupply(s, source);
      }
    }
  }

  lemma CloseNeverOverflows(s: Store, metas: seq<Meta>)
    requires Reachable(s)
    ensures DecideCloseAccount(s, metas) != Err(Overflow)
  {
    ReachableIsConsistent(s);
    if |metas| >= 3 && metas[0].key != metas[1].key {
      TotalBoundsPair(Lamports, s, metas[0].key, metas[1].key);
    }
  }

  lemma OwnerCheckNeverOverflows(s: Store)
    ensures forall expected, who, signers :: OwnerOutcome(s, expected, who, signers) != Err(Overflow)
  {
  }

  /** A mint instruction in which everything but the amount is in order. */
  ghost predicate CanMint(s: Store, metas: seq<Meta>, expectedDecimals: Option<u8>) {
    && |metas| >= 3
    && var mint, dest := metas[0].key, metas[1].key;
    && Mints(s, mint) && Usable(s, dest) && AccountAt(s, dest).isNative.None? && AccountAt(s, dest).mint == mint
    && (expectedDecimals.Some? ==> expectedDecimals.value == MintAt(s, mint).decimals)
    && MintAt(s, mint).mintAuthority.Some?
    && OwnerOutcome(s, MintAt(s, mint).mintAuthority.value, metas[2], metas[3..]).Ok?
  }

  /** Then minting overflows exactly when the new supply would not fit; the destination's
      balance never overflows first. */
  lemma MintOverflowsExactlyOnSupply(s: Store, metas: seq<Meta>, amount: u64, expectedDecimals: Option<u8>)
    requires Reachable(s)
    requires |metas| >= 2 ==> Owned(s, metas[1].key)
    ensures DecideMintTo(s, metas, amount, expectedDecimals) == Err(Overflow) <==>
            CanMint(s, metas, expectedDecimals) && MintAt(s, metas[0].key).supply + amount > U64_MAX
  {
    ReachableIsConsistent(s);
    OwnerCheckNeverOverflows(s);
    hide OwnerOutcome, Reachable, Enabled, Approves;
    if |metas| >= 2 {
      var dest := metas[1].key;
      assert CellOk(At(s, dest));
      if LiveAccount(s, dest) && AccountAt(s, dest).mint != NATIVE_MINT {
        BalanceWithinSupply(s, dest);
      }
    }
  }
}
