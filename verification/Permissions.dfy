/** Who can bring a change about: what one committed instruction does to a live account
    or mint, and whose approval it then carried. */
module Permissions {
  import opened Types
  import opened Ledger
  import opened Authority
  import opened Rules
  import opened Steps

  /** A balance falls only with the approval of the account's owner, of its delegate
      within the allowance, or, when a native account is closed, of its closer. */
  ghost predicate DecreaseApproved(s: Store, t: Store, metas: seq<Meta>, k: Pubkey) {
    var a, b := AccountAt(s, k), AccountAt(t, k);
    b.amount < a.amount ==>
      || SignedBy(s, metas, a.owner)
      || (KeySigned(s, metas, a.delegate) && a.amount - b.amount <= a.delegatedAmount)
      || (a.isNative.Some? && !LiveAccount(t, k) && SignedBy(s, metas, a.Closer()))
  }

  /** The fields of a live account change only with the approval of whoever controls them:
      a delegate can use up its allowance, by exactly what leaves the account, and is dropped
      when nothing is left of it; a change of owner resets a native account's close authority. */
  ghost predicate FieldsApproved(s: Store, t: Store, metas: seq<Meta>, k: Pubkey) {
    var a, b := AccountAt(s, k), AccountAt(t, k);
    && b.mint == a.mint && b.isNative == a.isNative
    && (b.owner != a.owner ==> SignedBy(s, metas, a.owner))
    && (b.delegate != a.delegate ==>
          || SignedBy(s, metas, a.owner)
          || (KeySigned(s, metas, a.delegate) && b.delegate.None? && b.delegatedAmount == 0))
    && (b.delegatedAmount != a.delegatedAmount ==>
          || SignedBy(s, metas, a.owner)
          || (KeySigned(s, metas, a.delegate) && a.delegatedAmount - b.delegatedAmount == a.amount - b.amount))
    && (b.closeAuthority != a.closeAuthority ==>
          || SignedBy(s, metas, a.Closer())
          || (a.isNative.Some? && b.closeAuthority.None? && SignedBy(s, metas, a.owner)))
    && (b.state != a.state ==>
          LiveMint(s, a.mint) && a.isNative.None? && KeySigned(s, metas, MintAt(s, a.mint).freezeAuthority))
  }

  lemma SpendIsApproved(s: Store, e: Event, metas: seq<Meta>, k: Pubkey)
    requires e.Transferred? || e.Burned?
    requires Consistent(s) && Commits(s, e) && Approves(s, metas, e) && LiveAccount(s, k)
    ensures LiveAccount(Apply(s, e), k)
    ensures DecreaseApproved(s, Apply(s, e), metas, k) && FieldsApproved(s, Apply(s, e), metas, k)
  {
    hide Linked, Backed, Total, SignedBy;
  }

  lemma CloseIsApproved(s: Store, source: Pubkey, dest: Pubkey, metas: seq<Meta>, k: Pubkey)
    requires var e := Closed(source, dest); Commits(s, e) && Approves(s, metas, e)
    requires Consistent(s) && LiveAccount(s, k)
    ensures var t := Apply(s, Closed(source, dest));
            && DecreaseApproved(s, t, metas, k)
            && (LiveAccount(t, k) ==> AccountAt(t, k) == AccountAt(s, k))
            && (!LiveAccount(t, k) ==> k == source && SignedBy(s, metas, AccountAt(s, k).Closer()))
  {
  }

  lemma OtherIsApproved(s: Store, e: Event, metas: seq<Meta>, k: Pubkey)
    requires !e.Transferred? && !e.Burned? && !e.Closed?
    requires Consistent(s) && Commits(s, e) && Approves(s, metas, e) && LiveAccount(s, k)
    ensures var t := Apply(s, e);
            && LiveAccount(t, k)
            && AccountAt(s, k).amount <= AccountAt(t, k).amount
            && FieldsApproved(s, t, metas, k)
  {
    assert Linked(s, k) && CellOk(At(s, k));
  }

  /** A live account changes as approved, and stops being live only when it is closed, by
      its closer, with nothing but wrapped SOL in it. */
  ghost predicate ChangeApproved(s: Store, t: Store, metas: seq<Meta>, k: Pubkey) {
    && DecreaseApproved(s, t, metas, k)
    && (LiveAccount(t, k) ==> FieldsApproved(s, t, metas, k))
    && (!LiveAccount(t, k) ==>
          && SignedBy(s, metas, AccountAt(s, k).Closer())
          && (AccountAt(s, k).isNative.None? ==> AccountAt(s, k).amount == 0))
  }

  lemma EventIsApproved(s: Store, e: Event, metas: seq<Meta>, k: Pubkey)
    requires Consistent(s) && Commits(s, e) && Approves(s, metas, e) && LiveAccount(s, k)
    ensures ChangeApproved(s, Apply(s, e), metas, k)
  {
    match e
    case Closed(source, dest) => CloseIsApproved(s, source, dest, metas, k);
    case Transferred(_, _, _, _) => SpendIsApproved(s, e, metas, k);
    case Burned(_, _, _, _) => SpendIsApproved(s, e, metas, k);
    case _ => OtherIsApproved(s, e, metas, k);
  }

  /** Whatever an instruction does to a live account was approved. */
  lemma AccountChangesAreApproved(s: Store, sys: Sysvars, metas: seq<Meta>, i: Instruction, k: Pubkey)
    requires Reachable(s) && LiveAccount(s, k)
    ensures ChangeApproved(s, Execute(s, sys, metas, i), metas, k)
  {
    ReachableIsConsistent(s);
    hide Decide, Apply, Consistent, Reachable;
    var e := Committed(s, sys, metas, i);
    if e.Some? {
      DecidedIsApproved(s, sys, metas, i);
      EventIsApproved(s, e.value, metas, k);
    }
  }

  /** A live mint stays live with its decimals; its supply grows and its authorities
      change only with the approval of the authority in place. */
  ghost predicate MintChangeApproved(s: Store, t: Store, metas: seq<Meta>, k: Pubkey) {
    var m, n := MintAt(s, k), MintAt(t, k);
    && LiveMint(t, k) && n.decimals == m.decimals
    && (n.supply > m.supply ==> KeySigned(s, metas, m.mintAuthority))
    && (n.mintAuthority != m.mintAuthority ==> KeySigned(s, metas, m.mintAuthority))
    && (n.freezeAuthority != m.freezeAuthority ==> KeySigned(s, metas, m.freezeAuthority))
  }

  lemma MintEventIsApproved(s: Store, e: Event, metas: seq<Meta>, k: Pubkey)
    requires Commits(s, e) && Approves(s, metas, e) && LiveMint(s, k)
    ensures MintChangeApproved(s, Apply(s, e), metas, k)
  {
    hide Accepts, SignedBy;
  }

  lemma MintChangesAreApproved(s: Store, sys: Sysvars, metas: seq<Meta>, i: Instruction, k: Pubkey)
    requires LiveMint(s, k)
    ensures MintChangeApproved(s, Execute(s, sys, metas, i), metas, k)
  {
    var e := Committed(s, sys, metas, i);
    if e.Some? {
      DecidedIsApproved(s, sys, metas, i);
      MintEventIsApproved(s, e.value, metas, k);
    }
  }

  /** The keys of the account list that sign. */
  ghost predicate Signs(metas: seq<Meta>, key: Pubkey) {
    Meta(key, true) in metas
  }

  /** What an approval amounts to in a reachable state: the key itself signs, or it is a
      multisig of the token program and keys at m different positions of it, m being at
      least one, sign. */
  lemma ApprovalCarriesSignatures(s: Store, metas: seq<Meta>, key: Pubkey)
    requires Reachable(s) && SignedBy(s, metas, key)
    ensures
      || Signs(metas, key)
      || (var ms := MultisigAt(s, key);
          && Owned(s, key) && ms.isInitialized && 1 <= ms.m && ms.n <= MAX_SIGNERS
          && exists p: set<nat> :: |p| >= ms.m && forall i :: i in p ==> i < ms.n && Signs(metas, ms.signers[i]))
  {
    ReachableIsConsistent(s);
    assert CellOk(At(s, key));
    var j :| 0 <= j < |metas| && OwnerOutcome(s, key, metas[j], metas[j + 1..]).Ok?;
    var ms, rest := MultisigAt(s, key), metas[j + 1..];
    if Owned(s, key) && At(s, key).data.Len() == MULTISIG_LEN {
      var p := Positions(ms, ms.n, rest);
      forall i | i in p
        ensures i < ms.n && Signs(metas, ms.signers[i])
      {
        var u := FirstUse(ms.signers[i], rest);
        assert !Unsigned(ms.signers[i], rest);
        assert rest[u] == metas[j + 1 + u];
      }
    }
  }
}
