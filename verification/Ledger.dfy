/** Reading the account store, and totals over it. */
module Ledger {
  import opened Types

  function At(s: Store, k: Pubkey): Cell {
    if k in s then s[k] else EMPTY_CELL
  }

  predicate Owned(s: Store, k: Pubkey) {
    At(s, k).owner == TOKEN_PROGRAM
  }

  function MintAt(s: Store, k: Pubkey): Mint {
    var d := At(s, k).data;
    if d.MintData? then d.mint else ZERO_MINT
  }

  function AccountAt(s: Store, k: Pubkey): Account {
    var d := At(s, k).data;
    if d.AccountData? then d.account else ZERO_ACCOUNT
  }

  function MultisigAt(s: Store, k: Pubkey): Multisig {
    var d := At(s, k).data;
    if d.MultisigData? then d.multisig else ZERO_MULTISIG
  }

  /** An initialized mint that belongs to the token program. */
  predicate LiveMint(s: Store, k: Pubkey) {
    Owned(s, k) && MintAt(s, k).isInitialized
  }

  /** An initialized or frozen token account that belongs to the token program. */
  predicate LiveAccount(s: Store, k: Pubkey) {
    Owned(s, k) && !AccountAt(s, k).state.Uninitialized?
  }

  function SetData(s: Store, k: Pubkey, d: Data): Store {
    s[k := At(s, k).(data := d)]
  }

  function SetLamports(s: Store, k: Pubkey, lamports: u64): Store {
    s[k := At(s, k).(lamports := lamports)]
  }

  // Totals

  /** The quantities that are summed over the store. */
  datatype Measure = Lamports | BalanceOf(mint: Pubkey)

  function Weight(w: Measure, c: Cell): nat {
    match w
    case Lamports => c.lamports
    case BalanceOf(mint) =>
      if c.owner == TOKEN_PROGRAM && c.data.AccountData? && !c.data.account.state.Uninitialized?
         && c.data.account.mint == mint
      then c.data.account.amount
      else 0
  }

  ghost function Sum(w: Measure, s: Store, keys: set<Pubkey>): nat
    decreases |keys|
  {
    if keys == {} then 0 else
    var k :| k in keys;
    Weight(w, At(s, k)) + Sum(w, s, keys - {k})
  }

  ghost function Total(w: Measure, s: Store): nat {
    Sum(w, s, s.Keys)
  }

  lemma {:induction false} SumRemove(w: Measure, s: Store, keys: set<Pubkey>, k: Pubkey)
    requires k in keys
    ensures Sum(w, s, keys) == Weight(w, At(s, k)) + Sum(w, s, keys - {k})
    decreases |keys|
  {
    var j :| j in keys && Sum(w, s, keys) == Weight(w, At(s, j)) + Sum(w, s, keys - {j});
    if j != k {
      SumRemove(w, s, keys - {j}, k);
      SumRemove(w, s, keys - {k}, j);
      assert keys - {j} - {k} == keys - {k} - {j};
    }
  }

  lemma {:induction false} SumAgree(w: Measure, s: Store, t: Store, keys: set<Pubkey>)
    requires forall k :: k in keys ==> Weight(w, At(s, k)) == Weight(w, At(t, k))
    ensures Sum(w, s, keys) == Sum(w, t, keys)
    decreases |keys|
  {
    if keys != {} {
      var k :| k in keys;
      SumRemove(w, s, keys, k);
      SumRemove(w, t, keys, k);
      SumAgree(w, s, t, keys - {k});
    }
  }

  lemma {:induction false} SumExtend(w: Measure, s: Store, keys: set<Pubkey>, more: set<Pubkey>)
    requires forall k :: k in more && k !in keys ==> Weight(w, At(s, k)) == 0
    ensures Sum(w, s, keys + more) == Sum(w, s, keys)
    decreases |more|
  {
    if more == {} {
      assert keys + more == keys;
    } else {
      var k :| k in more;
      SumExtend(w, s, keys, more - {k});
      if k in keys {
        assert keys + more == keys + (more - {k});
      } else {
        SumRemove(w, s, keys + more, k);
        assert keys + more - {k} == keys + (more - {k});
      }
    }
  }

  /** Totals depend only on the weights of the cells, not on which keys are mapped. */
  lemma TotalAgree(w: Measure, s: Store, t: Store)
    requires forall k: Pubkey :: Weight(w, At(s, k)) == Weight(w, At(t, k))
    ensures Total(w, s) == Total(w, t)
  {
    SumExtend(w, s, s.Keys, t.Keys);
    SumExtend(w, t, t.Keys, s.Keys);
    assert s.Keys + t.Keys == t.Keys + s.Keys;
    SumAgree(w, s, t, s.Keys + t.Keys);
  }

  /** Replacing one cell changes a total by the difference of the two weights. */
  lemma TotalUpdate(w: Measure, s: Store, k: Pubkey, c: Cell)
    ensures Total(w, s[k := c]) == Total(w, s) - Weight(w, At(s, k)) + Weight(w, c)
  {
    var t := s[k := c];
    assert t.Keys == s.Keys + {k};
    SumExtend(w, s, s.Keys, {k});
    SumRemove(w, s, t.Keys, k);
    SumRemove(w, t, t.Keys, k);
    SumAgree(w, s, t, t.Keys - {k});
  }

  lemma TotalUpdateTwo(w: Measure, s: Store, j: Pubkey, c: Cell, k: Pubkey, d: Cell)
    requires j != k
    ensures Total(w, s[j := c][k := d])
         == Total(w, s) - Weight(w, At(s, j)) - Weight(w, At(s, k)) + Weight(w, c) + Weight(w, d)
  {
    TotalUpdate(w, s, j, c);
    TotalUpdate(w, s[j := c], k, d);
  }

  /** A total bounds the joint weight of any two different cells. */
  lemma TotalBoundsPair(w: Measure, s: Store, j: Pubkey, k: Pubkey)
    requires j != k
    ensures Weight(w, At(s, j)) + Weight(w, At(s, k)) <= Total(w, s)
  {
    SumExtend(w, s, s.Keys, {j, k});
    var keys := s.Keys + {j, k};
    SumRemove(w, s, keys, j);
    SumRemove(w, s, keys - {j}, k);
  }

  lemma TotalBounds(w: Measure, s: Store, k: Pubkey)
    ensures Weight(w, At(s, k)) <= Total(w, s)
  {
    SumExtend(w, s, s.Keys, {k});
    SumRemove(w, s, s.Keys + {k}, k);
  }

  lemma {:induction false} SumDominated(v: Measure, w: Measure, s: Store, keys: set<Pubkey>)
    requires forall k :: k in keys ==> Weight(v, At(s, k)) <= Weight(w, At(s, k))
    ensures Sum(v, s, keys) <= Sum(w, s, keys)
    decreases |keys|
  {
    if keys != {} {
      var k :| k in keys;
      SumRemove(v, s, keys, k);
      SumRemove(w, s, keys, k);
      SumDominated(v, w, s, keys - {k});
    }
  }

  lemma {:induction false} SumZero(w: Measure, s: Store, keys: set<Pubkey>)
    requires forall k :: k in keys ==> Weight(w, At(s, k)) == 0
    ensures Sum(w, s, keys) == 0
    decreases |keys|
  {
    if keys != {} {
      var k :| k in keys;
      SumRemove(w, s, keys, k);
      SumZero(w, s, keys - {k});
    }
  }
}
