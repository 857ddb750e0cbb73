/** The program meets the specification: it succeeds exactly when everything is in order, and
    a success has exactly the stated effect. */
module Conformance {
  import opened Types
  import opened Ledger
  import opened Authority
  import opened Rules
  import opened Steps
  import opened Specification

  // Success

  lemma TransferSucceeds(s: Store, sys: Sysvars, metas: seq<Meta>, i: Instruction)
    requires i.Transfer? || i.TransferChecked?
    ensures DecideTransfer(s, metas, AmountIn(i), DecimalsIn(i)).Ok? <==> InOrder(s, sys, metas, i, true)
  {
    hide OwnerOutcome, Enabled;
  }

  lemma IssueSucceeds(s: Store, sys: Sysvars, metas: seq<Meta>, i: Instruction)
    requires i.MintTo? || i.MintToChecked?
    ensures DecideMintTo(s, metas, AmountIn(i), DecimalsIn(i)).Ok? <==> InOrder(s, sys, metas, i, true)
  {
    hide OwnerOutcome, Enabled, Approves;
  }

  lemma DestroySucceeds(s: Store, sys: Sysvars, metas: seq<Meta>, i: Instruction)
    requires i.Burn? || i.BurnChecked?
    ensures DecideBurn(s, metas, AmountIn(i), DecimalsIn(i)).Ok? <==> InOrder(s, sys, metas, i, true)
  {
    hide OwnerOutcome, Enabled;
  }

  lemma SetupSucceeds(s: Store, sys: Sysvars, metas: seq<Meta>, i: Instruction)
    requires !NeedsApproval(i)
    ensures Decide(s, sys, metas, i).Ok? <==> InOrder(s, sys, metas, i, true)
  {
    hide Enabled;
  }

  lemma ControlSucceeds(s: Store, sys: Sysvars, metas: seq<Meta>, i: Instruction)
    requires i.Approve? || i.ApproveChecked? || i.Revoke? || i.CloseAccount? || i.FreezeAccount? || i.ThawAccount?
    ensures Decide(s, sys, metas, i).Ok? <==> InOrder(s, sys, metas, i, true)
  {
    hide OwnerOutcome, Enabled, Approves;
  }

  lemma AuthoritySucceeds(s: Store, sys: Sysvars, metas: seq<Meta>, i: Instruction)
    requires i.SetAuthority?
    ensures Decide(s, sys, metas, i).Ok? <==> InOrder(s, sys, metas, i, true)
  {
    hide OwnerOutcome, Enabled;
  }

  /** From every store, the program succeeds exactly when everything is in order. */
  lemma SucceedsExactly(s: Store, sys: Sysvars, metas: seq<Meta>, i: Instruction)
    ensures Decide(s, sys, metas, i).Ok? <==> InOrder(s, sys, metas, i, true)
  {
    if i.Transfer? || i.TransferChecked? {
      hide DecideTransfer, InOrder;
      TransferSucceeds(s, sys, metas, i);
    } else if i.MintTo? || i.MintToChecked? {
      hide DecideMintTo, InOrder;
      IssueSucceeds(s, sys, metas, i);
    } else if i.Burn? || i.BurnChecked? {
      hide DecideBurn, InOrder;
      DestroySucceeds(s, sys, metas, i);
    } else if i.SetAuthority? {
      hide Decide, InOrder;
      AuthoritySucceeds(s, sys, metas, i);
    } else if NeedsApproval(i) {
      hide Decide, InOrder;
      ControlSucceeds(s, sys, metas, i);
    } else {
      hide Decide, InOrder;
      SetupSucceeds(s, sys, metas, i);
    }
  }

  // Effects

  lemma TransferredEffect(s: Store, source: Pubkey, dest: Pubkey, amount: u64, byDelegate: bool, presented: Pubkey)
    requires Ready(s, Transferred(source, dest, amount, byDelegate))
    requires byDelegate == (AccountAt(s, source).delegate == Some(presented))
    ensures TransferEffect(s, Apply(s, Transferred(source, dest, amount, byDelegate)), source, dest, amount, presented)
  {
  }

  lemma SelfTransferEffect(s: Store, k: Pubkey, amount: u64, presented: Pubkey)
    ensures TransferEffect(s, s, k, k, amount, presented)
  {
  }

  lemma TransferHasEffect(s: Store, metas: seq<Meta>, amount: u64, expectedDecimals: Option<u8>)
    requires DecideTransfer(s, metas, amount, expectedDecimals).Ok?
    ensures var d := if expectedDecimals.Some? then 1 else 0;
            && |metas| >= 3 + d
            && TransferEffect(s, Apply(s, DecideTransfer(s, metas, amount, expectedDecimals).value),
                              metas[0].key, metas[1 + d].key, amount, metas[2 + d].key)
  {
    hide OwnerOutcome, CheckMint, TransferEffect;
    var d := if expectedDecimals.Some? then 1 else 0;
    var e := DecideTransfer(s, metas, amount, expectedDecimals).value;
    if e.Transferred? {
      hide Apply, Ready;
      TransferredEffect(s, e.source, e.dest, e.amount, e.byDelegate, metas[2 + d].key);
    } else {
      SelfTransferEffect(s, metas[0].key, amount, metas[2 + d].key);
    }
  }

  lemma IssueHasEffect(s: Store, metas: seq<Meta>, amount: u64, expectedDecimals: Option<u8>)
    requires DecideMintTo(s, metas, amount, expectedDecimals).Ok?
    ensures && |metas| >= 3
            && IssueEffect(s, Apply(s, DecideMintTo(s, metas, amount, expectedDecimals).value),
                           metas[0].key, metas[1].key, amount)
  {
    hide OwnerOutcome, Approves;
  }

  lemma DestroyHasEffect(s: Store, metas: seq<Meta>, amount: u64, expectedDecimals: Option<u8>)
    requires DecideBurn(s, metas, amount, expectedDecimals).Ok?
    ensures && |metas| >= 3
            && DestroyEffect(s, Apply(s, DecideBurn(s, metas, amount, expectedDecimals).value),
                             metas[0].key, metas[1].key, amount, metas[2].key)
  {
    hide OwnerOutcome;
  }

  lemma ApproveHasEffect(s: Store, metas: seq<Meta>, amount: u64, expectedDecimals: Option<u8>)
    requires DecideApprove(s, metas, amount, expectedDecimals).Ok?
    ensures var d := if expectedDecimals.Some? then 1 else 0;
            && |metas| >= 3 + d
            && var a := AccountAt(s, metas[0].key);
            Becomes(s, Apply(s, DecideApprove(s, metas, amount, expectedDecimals).value), metas[0].key,
                    a.(delegate := Some(metas[1 + d].key), delegatedAmount := amount))
  {
    hide OwnerOutcome, Approves, CheckMint;
  }

  lemma RevokeHasEffect(s: Store, metas: seq<Meta>)
    requires DecideRevoke(s, metas).Ok?
    ensures && |metas| >= 2
            && Becomes(s, Apply(s, DecideRevoke(s, metas).value), metas[0].key,
                       AccountAt(s, metas[0].key).(delegate := None, delegatedAmount := 0))
  {
    hide OwnerOutcome, Approves;
  }

  lemma AuthorityHasEffect(s: Store, metas: seq<Meta>, kind: AuthorityType, authority: Option<Pubkey>)
    requires DecideSetAuthority(s, metas, kind, authority).Ok?
    ensures && |metas| >= 2
            && AuthorityEffect(s, Apply(s, DecideSetAuthority(s, metas, kind, authority).value), metas[0].key, kind,
                               authority)
  {
    hide OwnerOutcome;
  }

  lemma CloseHasEffect(s: Store, metas: seq<Meta>)
    requires DecideCloseAccount(s, metas).Ok?
    ensures && |metas| >= 3
            && CloseEffect(s, Apply(s, DecideCloseAccount(s, metas).value), metas[0].key, metas[1].key)
  {
    hide OwnerOutcome, Approves;
  }

  lemma ToggleHasEffect(s: Store, metas: seq<Meta>, freeze: bool)
    requires DecideToggleFreeze(s, metas, freeze).Ok?
    ensures && |metas| >= 3
            && Becomes(s, Apply(s, DecideToggleFreeze(s, metas, freeze).value), metas[0].key,
                       AccountAt(s, metas[0].key).(state := if freeze then Frozen else Initialized))
  {
    hide OwnerOutcome, Approves;
  }

  lemma SyncHasEffect(s: Store, metas: seq<Meta>)
    requires DecideSyncNative(s, metas).Ok?
    ensures metas != [] && SyncEffect(s, Apply(s, DecideSyncNative(s, metas).value), metas[0].key)
  {
  }

  lemma CreateHasEffect(s: Store, sys: Sysvars, metas: seq<Meta>, decimals: u8, mintAuthority: Pubkey,
                        freezeAuthority: Option<Pubkey>, rentAccount: bool)
    requires DecideInitializeMint(s, sys, metas, decimals, mintAuthority, freezeAuthority, rentAccount).Ok?
    ensures && |metas| >= (if rentAccount then 2 else 1)
            && var e := DecideInitializeMint(s, sys, metas, decimals, mintAuthority, freezeAuthority, rentAccount).value;
            MintBecomes(s, Apply(s, e), metas[0].key,
                        Mint(Some(mintAuthority), MintAt(s, metas[0].key).supply, decimals, true, freezeAuthority))
  {
  }

  lemma OpenHasEffect(s: Store, sys: Sysvars, metas: seq<Meta>, owner: Option<Pubkey>, rentAccount: bool)
    requires DecideInitializeAccount(s, sys, metas, owner, rentAccount).Ok?
    ensures var fixed := if owner.Some? then 2 else 3;
            && |metas| >= (if rentAccount then fixed + 1 else fixed)
            && OpenEffect(s, Apply(s, DecideInitializeAccount(s, sys, metas, owner, rentAccount).value),
                          metas[0].key, metas[1].key, if owner.Some? then owner.value else metas[2].key,
                          if rentAccount then RentAt(sys, metas, fixed) else sys.rentSyscall)
  {
  }

  lemma MultisigHasEffect(s: Store, sys: Sysvars, metas: seq<Meta>, m: u8, rentAccount: bool)
    requires DecideInitializeMultisig(s, sys, metas, m, rentAccount).Ok?
    ensures var fixed := if rentAccount then 2 else 1;
            && |metas| >= fixed
            && MultisigEffect(s, Apply(s, DecideInitializeMultisig(s, sys, metas, m, rentAccount).value), metas, fixed, m)
  {
  }

  /** Every success has the stated effect. */
  lemma SuccessHasEffect(s: Store, sys: Sysvars, metas: seq<Meta>, i: Instruction)
    requires Decide(s, sys, metas, i).Ok?
    ensures Effect(s, sys, metas, i, Apply(s, Decide(s, sys, metas, i).value))
  {
    hide DecideTransfer, DecideMintTo, DecideBurn, DecideApprove, DecideRevoke, DecideSetAuthority, DecideCloseAccount,
         DecideToggleFreeze, DecideSyncNative, DecideInitializeMint, DecideInitializeAccount, DecideInitializeMultisig,
         TransferEffect, IssueEffect, DestroyEffect, Becomes, AuthorityEffect, CloseEffect, SyncEffect, MintBecomes,
         OpenEffect, MultisigEffect, Apply, Ready;
    match i {
      case Transfer(amount) => TransferHasEffect(s, metas, amount, None);
      case TransferChecked(amount, d) => TransferHasEffect(s, metas, amount, Some(d));
      case MintTo(amount) => IssueHasEffect(s, metas, amount, None);
      case MintToChecked(amount, d) => IssueHasEffect(s, metas, amount, Some(d));
      case Burn(amount) => DestroyHasEffect(s, metas, amount, None);
      case BurnChecked(amount, d) => DestroyHasEffect(s, metas, amount, Some(d));
      case Approve(amount) => ApproveHasEffect(s, metas, amount, None);
      case ApproveChecked(amount, d) => ApproveHasEffect(s, metas, amount, Some(d));
      case Revoke => RevokeHasEffect(s, metas);
      case SetAuthority(kind, authority) => AuthorityHasEffect(s, metas, kind, authority);
      case CloseAccount => CloseHasEffect(s, metas);
      case FreezeAccount => ToggleHasEffect(s, metas, true);
      case ThawAccount => ToggleHasEffect(s, metas, false);
      case SyncNative => SyncHasEffect(s, metas);
      case InitializeMint(d, m, f) => CreateHasEffect(s, sys, metas, d, m, f, true);
      case InitializeMint2(d, m, f) => CreateHasEffect(s, sys, metas, d, m, f, false);
      case InitializeAccount => OpenHasEffect(s, sys, metas, None, true);
      case InitializeAccount2(owner) => OpenHasEffect(s, sys, metas, Some(owner), true);
      case InitializeAccount3(owner) => OpenHasEffect(s, sys, metas, Some(owner), false);
      case InitializeMultisig(m) => MultisigHasEffect(s, sys, metas, m, true);
      case InitializeMultisig2(m) => MultisigHasEffect(s, sys, metas, m, false);
    }
  }

  // Completeness

  lemma MultisigIsComplete(s: Store, t: Store, u: Store, metas: seq<Meta>, fixed: nat, m: u8, k: Pubkey)
    requires 1 <= fixed <= |metas|
    requires MultisigEffect(s, t, metas, fixed, m) && MultisigEffect(s, u, metas, fixed, m)
    ensures At(t, k) == At(u, k)
  {
    if k == metas[0].key {
      var now, too := MultisigAt(t, k).signers, MultisigAt(u, k).signers;
      assert forall j :: 0 <= j < MAX_SIGNERS ==> now[j] == too[j];
      assert now == too;
    }
  }

  lemma TransferIsComplete(s: Store, t: Store, u: Store, source: Pubkey, dest: Pubkey, amount: u64, who: Pubkey, k: Pubkey)
    requires TransferEffect(s, t, source, dest, amount, who) && TransferEffect(s, u, source, dest, amount, who)
    ensures At(t, k) == At(u, k)
  {
  }

  lemma IssueIsComplete(s: Store, t: Store, u: Store, mint: Pubkey, dest: Pubkey, amount: u64, k: Pubkey)
    requires IssueEffect(s, t, mint, dest, amount) && IssueEffect(s, u, mint, dest, amount)
    ensures At(t, k) == At(u, k)
  {
  }

  lemma DestroyIsComplete(s: Store, t: Store, u: Store, source: Pubkey, mint: Pubkey, amount: u64, who: Pubkey, k: Pubkey)
    requires DestroyEffect(s, t, source, mint, amount, who) && DestroyEffect(s, u, source, mint, amount, who)
    ensures At(t, k) == At(u, k)
  {
  }

  lemma OpenIsComplete(s: Store, t: Store, u: Store, k: Pubkey, mint: Pubkey, owner: Pubkey, rent: Option<Rent>, j: Pubkey)
    requires OpenEffect(s, t, k, mint, owner, rent) && OpenEffect(s, u, k, mint, owner, rent)
    ensures At(t, j) == At(u, j)
  {
  }

  lemma AuthorityIsComplete(s: Store, t: Store, u: Store, k: Pubkey, kind: AuthorityType, authority: Option<Pubkey>,
                            j: Pubkey)
    requires AuthorityEffect(s, t, k, kind, authority) && AuthorityEffect(s, u, k, kind, authority)
    ensures At(t, j) == At(u, j)
  {
  }

  /** The specification leaves nothing open: at most one store, read account by account, has
      the stated effect. */
  lemma EffectIsComplete(s: Store, sys: Sysvars, metas: seq<Meta>, i: Instruction, t: Store, u: Store, k: Pubkey)
    requires Effect(s, sys, metas, i, t) && Effect(s, sys, metas, i, u)
    ensures At(t, k) == At(u, k)
  {
    hide TransferEffect, IssueEffect, DestroyEffect, AuthorityEffect, OpenEffect, MultisigEffect;
    var j, rent := metas[0].key, RentFor(sys, metas, i);
    match i {
      case Transfer(amount) => TransferIsComplete(s, t, u, j, metas[1].key, amount, metas[2].key, k);
      case TransferChecked(amount, _) => TransferIsComplete(s, t, u, j, metas[2].key, amount, metas[3].key, k);
      case MintTo(amount) => IssueIsComplete(s, t, u, j, metas[1].key, amount, k);
      case MintToChecked(amount, _) => IssueIsComplete(s, t, u, j, metas[1].key, amount, k);
      case Burn(amount) => DestroyIsComplete(s, t, u, j, metas[1].key, amount, metas[2].key, k);
      case BurnChecked(amount, _) => DestroyIsComplete(s, t, u, j, metas[1].key, amount, metas[2].key, k);
      case SetAuthority(kind, authority) => AuthorityIsComplete(s, t, u, j, kind, authority, k);
      case InitializeAccount => OpenIsComplete(s, t, u, j, metas[1].key, metas[2].key, rent, k);
      case InitializeAccount2(owner) => OpenIsComplete(s, t, u, j, metas[1].key, owner, rent, k);
      case InitializeAccount3(owner) => OpenIsComplete(s, t, u, j, metas[1].key, owner, rent, k);
      case InitializeMultisig(m) => MultisigIsComplete(s, t, u, metas, 2, m, k);
      case InitializeMultisig2(m) => MultisigIsComplete(s, t, u, metas, 1, m, k);
      case _ =>
    }
  }

  // Committed instructions

  /** The runtime lets the stated effect through. */
  ghost predicate Permitted(s: Store, sys: Sysvars, metas: seq<Meta>, i: Instruction) {
    exists t :: Effect(s, sys, metas, i, t) && Accepts(s, t)
  }

  lemma SameEffectSamePermission(s: Store, sys: Sysvars, metas: seq<Meta>, i: Instruction, t: Store, u: Store)
    requires Effect(s, sys, metas, i, t) && Effect(s, sys, metas, i, u) && Accepts(s, t)
    ensures Accepts(s, u)
  {
    hide Effect, At;
    forall k: Pubkey
      ensures At(t, k) == At(u, k)
    {
      EffectIsComplete(s, sys, metas, i, t, u, k);
    }
  }

  /** From every store, an instruction commits exactly when everything is in order and the
      runtime lets its effect through, and then it has that effect; otherwise nothing changes. */
  lemma CommitsExactly(s: Store, sys: Sysvars, metas: seq<Meta>, i: Instruction)
    ensures Committed(s, sys, metas, i).Some? <==> InOrder(s, sys, metas, i, true) && Permitted(s, sys, metas, i)
    ensures var t := Execute(s, sys, metas, i);
            if Committed(s, sys, metas, i).Some? then Effect(s, sys, metas, i, t) && Accepts(s, t) else t == s
  {
    hide Decide, InOrder, Effect, Apply, Accepts, Ready;
    SucceedsExactly(s, sys, metas, i);
    var r := Decide(s, sys, metas, i);
    if r.Ok? {
      SuccessHasEffect(s, sys, metas, i);
      if Permitted(s, sys, metas, i) {
        var t :| Effect(s, sys, metas, i, t) && Accepts(s, t);
        SameEffectSamePermission(s, sys, metas, i, t, Apply(s, r.value));
      }
    }
  }
}
