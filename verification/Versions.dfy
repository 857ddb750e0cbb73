/** The vendored 3.1.0 handlers for moving, approving, minting, burning and freezing,
    compared with the 3.3.0 ones. */
module Versions {
  import opened Types
  import opened Ledger
  import opened Authority
  import opened Rules
  import opened Steps
  import opened Frames
  import opened Specification
  import opened Conformance
  import opened Circulation

  // The older handlers; they look at no account's owner

  function OldMove(s: Store, source: Pubkey, dest: Pubkey, amount: u64, byDelegate: bool): (r: Result<Event>)
    requires CanSpend(s, source, amount, byDelegate) && Usable(s, dest)
    requires AccountAt(s, source).mint == AccountAt(s, dest).mint
    ensures r.Ok? ==> Ready(s, r.value)
    ensures r.Err? <==> source != dest && !Fits(s, source, dest, amount)
    ensures r.Err? ==> r == Err(Overflow)
  {
    if source == dest then Ok(TransferredToSelf(source, amount, byDelegate)) else
    var native := AccountAt(s, source).isNative.Some?;
    var _ :- Need(AccountAt(s, dest).amount + amount <= U64_MAX, Overflow);
    var _ :- Need(native ==> amount <= At(s, source).lamports, Overflow);
    var _ :- Need(native ==> At(s, dest).lamports + amount <= U64_MAX, Overflow);
    Ok(Transferred(source, dest, amount, byDelegate))
  }

  ghost function OldTransfer(s: Store, metas: seq<Meta>, amount: u64, expectedDecimals: Option<u8>): (r: Result<Event>)
    ensures r.Ok? ==> Ready(s, r.value)
  {
    var d := if expectedDecimals.Some? then 1 else 0;
    var _ :- Need(|metas| >= 3 + d, NotEnoughAccountKeys);
    var source, dest, authority := metas[0].key, metas[1 + d].key, metas[2 + d];
    var a :- UnpackAccount(At(s, source).data);
    var b :- UnpackAccount(At(s, dest).data);
    var _ :- Need(!a.state.Frozen? && !b.state.Frozen?, AccountFrozen);
    var _ :- Need(amount <= a.amount, InsufficientFunds);
    var _ :- Need(a.mint == b.mint, MintMismatch);
    var _ :- CheckMint(s, metas[1].key, a.mint, expectedDecimals);
    var byDelegate :- DecideSpend(s, a, amount, authority, metas[3 + d..]);
    OldMove(s, source, dest, amount, byDelegate)
  }

  ghost function OldMintTo(s: Store, metas: seq<Meta>, amount: u64, expectedDecimals: Option<u8>): (r: Result<Event>)
    ensures r.Ok? ==> Ready(s, r.value)
  {
    var _ :- Need(|metas| >= 3, NotEnoughAccountKeys);
    var mint, dest := metas[0].key, metas[1].key;
    var b :- UnpackAccount(At(s, dest).data);
    var _ :- Need(!b.state.Frozen?, AccountFrozen);
    var _ :- Need(b.isNative.None?, NativeNotSupported);
    var _ :- Need(mint == b.mint, MintMismatch);
    var m :- UnpackMint(At(s, mint).data);
    var _ :- Need(expectedDecimals.Some? ==> expectedDecimals.value == m.decimals, MintDecimalsMismatch);
    var _ :- Need(m.mintAuthority.Some?, FixedSupply);
    var _ :- OwnerOutcome(s, m.mintAuthority.value, metas[2], metas[3..]);
    var _ :- Need(b.amount + amount <= U64_MAX, Overflow);
    var _ :- Need(m.supply + amount <= U64_MAX, Overflow);
    Ok(Minted(mint, dest, amount))
  }

  ghost function OldBurn(s: Store, metas: seq<Meta>, amount: u64, expectedDecimals: Option<u8>): (r: Result<Event>)
    ensures r.Ok? ==> Ready(s, r.value)
  {
    var _ :- Need(|metas| >= 3, NotEnoughAccountKeys);
    var source, mint := metas[0].key, metas[1].key;
    var a :- UnpackAccount(At(s, source).data);
    var m :- UnpackMint(At(s, mint).data);
    var _ :- Need(!a.state.Frozen?, AccountFrozen);
    var _ :- Need(a.isNative.None?, NativeNotSupported);
    var _ :- Need(amount <= a.amount, InsufficientFunds);
    var _ :- Need(mint == a.mint, MintMismatch);
    var _ :- Need(expectedDecimals.Some? ==> expectedDecimals.value == m.decimals, MintDecimalsMismatch);
    var byDelegate :- DecideSpend(s, a, amount, metas[2], metas[3..]);
    var _ :- Need(amount <= m.supply, Overflow);
    Ok(Burned(source, mint, amount, byDelegate))
  }

  /** The instructions both versions have and handle alike but for the owner checks. */
  predicate Shared(i: Instruction) {
    || i.Transfer? || i.TransferChecked? || i.Approve? || i.ApproveChecked? || i.Revoke?
    || i.MintTo? || i.MintToChecked? || i.Burn? || i.BurnChecked? || i.FreezeAccount? || i.ThawAccount?
  }

  ghost function OldDecide(s: Store, metas: seq<Meta>, i: Instruction): (r: Result<Event>)
    requires Shared(i)
    ensures r.Ok? ==> Ready(s, r.value)
  {
    match i
    case Transfer(amount) => OldTransfer(s, metas, amount, None)
    case TransferChecked(amount, d) => OldTransfer(s, metas, amount, Some(d))
    case MintTo(amount) => OldMintTo(s, metas, amount, None)
    case MintToChecked(amount, d) => OldMintTo(s, metas, amount, Some(d))
    case Burn(amount) => OldBurn(s, metas, amount, None)
    case BurnChecked(amount, d) => OldBurn(s, metas, amount, Some(d))
    case Approve(amount) => DecideApprove(s, metas, amount, None)
    case ApproveChecked(amount, d) => DecideApprove(s, metas, amount, Some(d))
    case Revoke => DecideRevoke(s, metas)
    case FreezeAccount => DecideToggleFreeze(s, metas, true)
    case ThawAccount => DecideToggleFreeze(s, metas, false)
  }

  ghost function OldExecute(s: Store, metas: seq<Meta>, i: Instruction): Store
    requires Shared(i)
  {
    var r := OldDecide(s, metas, i);
    if r.Ok? && Accepts(s, Apply(s, r.value)) then Apply(s, r.value) else s
  }

  // Decisions

  /** How the two decisions relate: the same errors, and the same events but for those that
      fail the newer version's owner check. */
  ghost predicate Narrows(s: Store, older: Result<Event>, newer: Result<Event>) {
    match older
    case Ok(e) => newer == if OwnerChecked(s, e) then Ok(e) else Err(IncorrectProgramId)
    case Err(error) => newer == Err(error)
  }

  lemma TransferNarrows(s: Store, metas: seq<Meta>, amount: u64, expectedDecimals: Option<u8>)
    ensures Narrows(s, OldTransfer(s, metas, amount, expectedDecimals), DecideTransfer(s, metas, amount, expectedDecimals))
  {
    hide DecideSpend, CheckMint;
  }

  lemma MintToNarrows(s: Store, metas: seq<Meta>, amount: u64, expectedDecimals: Option<u8>)
    ensures Narrows(s, OldMintTo(s, metas, amount, expectedDecimals), DecideMintTo(s, metas, amount, expectedDecimals))
  {
    hide OwnerOutcome;
  }

  lemma BurnNarrows(s: Store, metas: seq<Meta>, amount: u64, expectedDecimals: Option<u8>)
    ensures Narrows(s, OldBurn(s, metas, amount, expectedDecimals), DecideBurn(s, metas, amount, expectedDecimals))
  {
    hide DecideSpend;
  }

  /** The newer program succeeds exactly when the older one does and the owner checks
      pass, and then with the same event. */
  lemma NewerNarrowsOlder(s: Store, sys: Sysvars, metas: seq<Meta>, i: Instruction)
    requires Shared(i)
    ensures Narrows(s, OldDecide(s, metas, i), Decide(s, sys, metas, i))
  {
    hide OldTransfer, OldMintTo, OldBurn, DecideTransfer, DecideMintTo, DecideBurn, DecideApprove, DecideRevoke,
         DecideToggleFreeze;
    match i
    case Transfer(amount) => TransferNarrows(s, metas, amount, None);
    case TransferChecked(amount, d) => TransferNarrows(s, metas, amount, Some(d));
    case MintTo(amount) => MintToNarrows(s, metas, amount, None);
    case MintToChecked(amount, d) => MintToNarrows(s, metas, amount, Some(d));
    case Burn(amount) => BurnNarrows(s, metas, amount, None);
    case BurnChecked(amount, d) => BurnNarrows(s, metas, amount, Some(d));
    case _ => SettledIsOwnerChecked(s, metas, i);
  }

  lemma SettledIsOwnerChecked(s: Store, metas: seq<Meta>, i: Instruction)
    requires i.Approve? || i.ApproveChecked? || i.Revoke? || i.FreezeAccount? || i.ThawAccount?
    ensures OldDecide(s, metas, i).Ok? ==> OwnerChecked(s, OldDecide(s, metas, i).value)
  {
  }

  // Specification

  lemma OldTransferSucceeds(s: Store, sys: Sysvars, metas: seq<Meta>, i: Instruction)
    requires i.Transfer? || i.TransferChecked?
    ensures OldTransfer(s, metas, AmountIn(i), DecimalsIn(i)).Ok? <==> InOrder(s, sys, metas, i, false)
  {
    hide OwnerOutcome, Ready;
  }

  lemma OldIssueSucceeds(s: Store, sys: Sysvars, metas: seq<Meta>, i: Instruction)
    requires i.MintTo? || i.MintToChecked?
    ensures OldMintTo(s, metas, AmountIn(i), DecimalsIn(i)).Ok? <==> InOrder(s, sys, metas, i, false)
  {
    hide OwnerOutcome, Ready;
  }

  lemma OldDestroySucceeds(s: Store, sys: Sysvars, metas: seq<Meta>, i: Instruction)
    requires i.Burn? || i.BurnChecked?
    ensures OldBurn(s, metas, AmountIn(i), DecimalsIn(i)).Ok? <==> InOrder(s, sys, metas, i, false)
  {
    hide OwnerOutcome, Ready;
  }

  /** Only transfers, mints and burns look at owners. */
  lemma OthersAreNeverStrict(s: Store, sys: Sysvars, metas: seq<Meta>, i: Instruction)
    requires !i.Transfer? && !i.TransferChecked? && !i.MintTo? && !i.MintToChecked? && !i.Burn? && !i.BurnChecked?
    ensures InOrder(s, sys, metas, i, false) == InOrder(s, sys, metas, i, true)
  {
  }

  lemma OldTransferHasEffect(s: Store, metas: seq<Meta>, amount: u64, expectedDecimals: Option<u8>)
    requires OldTransfer(s, metas, amount, expectedDecimals).Ok?
    ensures var d := if expectedDecimals.Some? then 1 else 0;
            && |metas| >= 3 + d
            && TransferEffect(s, Apply(s, OldTransfer(s, metas, amount, expectedDecimals).value),
                              metas[0].key, metas[1 + d].key, amount, metas[2 + d].key)
  {
    hide OwnerOutcome, CheckMint, TransferEffect;
    var d := if expectedDecimals.Some? then 1 else 0;
    var e := OldTransfer(s, metas, amount, expectedDecimals).value;
    if e.Transferred? {
      hide Apply, Ready;
      TransferredEffect(s, e.source, e.dest, e.amount, e.byDelegate, metas[2 + d].key);
    } else {
      SelfTransferEffect(s, metas[0].key, amount, metas[2 + d].key);
    }
  }

  lemma OldIssueHasEffect(s: Store, metas: seq<Meta>, amount: u64, expectedDecimals: Option<u8>)
    requires OldMintTo(s, metas, amount, expectedDecimals).Ok?
    ensures && |metas| >= 3
            && IssueEffect(s, Apply(s, OldMintTo(s, metas, amount, expectedDecimals).value),
                           metas[0].key, metas[1].key, amount)
  {
    hide OwnerOutcome;
  }

  lemma OldDestroyHasEffect(s: Store, metas: seq<Meta>, amount: u64, expectedDecimals: Option<u8>)
    requires OldBurn(s, metas, amount, expectedDecimals).Ok?
    ensures && |metas| >= 3
            && DestroyEffect(s, Apply(s, OldBurn(s, metas, amount, expectedDecimals).value),
                             metas[0].key, metas[1].key, amount, metas[2].key)
  {
    hide OwnerOutcome;
  }

  /** The older version succeeds exactly when all is in order that the newer one asks for,
      but for the owner checks, and a success has the same effect. */
  lemma OldMeetsSpecification(s: Store, sys: Sysvars, metas: seq<Meta>, i: Instruction)
    requires Shared(i)
    ensures OldDecide(s, metas, i).Ok? <==> InOrder(s, sys, metas, i, false)
    ensures OldDecide(s, metas, i).Ok? ==> Effect(s, sys, metas, i, Apply(s, OldDecide(s, metas, i).value))
  {
    hide OldTransfer, OldMintTo, OldBurn, InOrder, Apply, Ready, DecideApprove, DecideRevoke, DecideToggleFreeze,
         TransferEffect, IssueEffect, DestroyEffect, Becomes;
    var amount, d := AmountIn(i), DecimalsIn(i);
    if i.Transfer? || i.TransferChecked? {
      OldTransferSucceeds(s, sys, metas, i);
      if OldTransfer(s, metas, amount, d).Ok? {
        OldTransferHasEffect(s, metas, amount, d);
      }
    } else if i.MintTo? || i.MintToChecked? {
      OldIssueSucceeds(s, sys, metas, i);
      if OldMintTo(s, metas, amount, d).Ok? {
        OldIssueHasEffect(s, metas, amount, d);
      }
    } else if i.Burn? || i.BurnChecked? {
      OldDestroySucceeds(s, sys, metas, i);
      if OldBurn(s, metas, amount, d).Ok? {
        OldDestroyHasEffect(s, metas, amount, d);
      }
    } else {
      OthersAreNeverStrict(s, sys, metas, i);
      SucceedsExactly(s, sys, metas, i);
      if Decide(s, sys, metas, i).Ok? {
        SuccessHasEffect(s, sys, metas, i);
      }
    }
  }

  // Committed effects

  /** The one event that the older program commits and the newer one refuses: a spend of
      nothing by a delegate whose allowance is nothing, which drops the delegate of an
      account of the token program while the other account belongs to someone else. */
  predicate Slips(s: Store, e: Event) {
    match e
    case Transferred(source, dest, amount, byDelegate) =>
      && amount == 0 && byDelegate && AccountAt(s, source).delegatedAmount == 0
      && Owned(s, source) && !Owned(s, dest)
    case Burned(source, mint, amount, byDelegate) =>
      && amount == 0 && byDelegate && AccountAt(s, source).delegatedAmount == 0
      && Owned(s, source) && !Owned(s, mint)
    case _ => false
  }

  lemma UncheckedChangesNothing(s: Store, e: Event)
    requires Ready(s, e) && !OwnerChecked(s, e) && Accepts(s, Apply(s, e))
    ensures Apply(s, e) == s <==> !Slips(s, e)
  {
    var t := Apply(s, e);
    if Slips(s, e) {
      assert AccountAt(t, e.source).delegate.None? && AccountAt(s, e.source).delegate.Some?;
    } else {
      match e
      case Transferred(source, dest, _, _) =>
        assert At(t, source) == At(s, source) && At(t, dest) == At(s, dest);
      case Burned(source, mint, _, _) =>
        assert At(t, source) == At(s, source) && At(t, mint) == At(s, mint);
      case _ =>
    }
  }

  lemma SlipIsAccepted(s: Store, e: Event)
    requires Ready(s, e) && Slips(s, e)
    ensures Accepts(s, Apply(s, e))
  {
  }

  lemma CheckedNeverSlips(s: Store, e: Event)
    requires OwnerChecked(s, e)
    ensures !Slips(s, e)
  {
  }

  // When that happens, by what the caller can look at beforehand

  /** A transfer of nothing from an account of the program to a foreign look-alike, approved
      by a delegate without allowance. */
  ghost predicate TransferSlips(s: Store, metas: seq<Meta>, amount: u64, expectedDecimals: Option<u8>) {
    var d := if expectedDecimals.Some? then 1 else 0;
    && amount == 0 && |metas| >= 3 + d
    && var source, dest, authority := metas[0].key, metas[1 + d].key, metas[2 + d];
    && Usable(s, source) && Owned(s, source) && Usable(s, dest) && !Owned(s, dest)
    && var a := AccountAt(s, source);
    && a.mint == AccountAt(s, dest).mint && CheckMint(s, metas[1].key, a.mint, expectedDecimals).Ok?
    && a.delegate == Some(authority.key) && a.delegatedAmount == 0
    && OwnerOutcome(s, authority.key, authority, metas[3 + d..]).Ok?
  }

  /** The same for burning nothing of a foreign look-alike mint. */
  ghost predicate BurnSlips(s: Store, metas: seq<Meta>, amount: u64, expectedDecimals: Option<u8>) {
    && amount == 0 && |metas| >= 3
    && var source, mint, authority := metas[0].key, metas[1].key, metas[2];
    && Usable(s, source) && Owned(s, source) && Mints(s, mint) && !Owned(s, mint)
    && var a := AccountAt(s, source);
    && a.isNative.None? && a.mint == mint
    && (expectedDecimals.Some? ==> expectedDecimals.value == MintAt(s, mint).decimals)
    && a.delegate == Some(authority.key) && a.delegatedAmount == 0
    && OwnerOutcome(s, authority.key, authority, metas[3..]).Ok?
  }

  ghost predicate SlipGuard(s: Store, metas: seq<Meta>, i: Instruction) {
    match i
    case Transfer(amount) => TransferSlips(s, metas, amount, None)
    case TransferChecked(amount, d) => TransferSlips(s, metas, amount, Some(d))
    case Burn(amount) => BurnSlips(s, metas, amount, None)
    case BurnChecked(amount, d) => BurnSlips(s, metas, amount, Some(d))
    case _ => false
  }

  lemma TransferGuard(s: Store, metas: seq<Meta>, amount: u64, expectedDecimals: Option<u8>)
    ensures var r := OldTransfer(s, metas, amount, expectedDecimals);
            TransferSlips(s, metas, amount, expectedDecimals) <==> r.Ok? && Slips(s, r.value)
  {
    hide OwnerOutcome, CheckMint;
  }

  lemma BurnGuard(s: Store, metas: seq<Meta>, amount: u64, expectedDecimals: Option<u8>)
    ensures var r := OldBurn(s, metas, amount, expectedDecimals);
            BurnSlips(s, metas, amount, expectedDecimals) <==> r.Ok? && Slips(s, r.value)
  {
    hide OwnerOutcome;
  }

  lemma OthersNeverSlip(s: Store, metas: seq<Meta>, i: Instruction)
    requires Shared(i) && !i.Transfer? && !i.TransferChecked? && !i.Burn? && !i.BurnChecked?
    ensures var r := OldDecide(s, metas, i); !(r.Ok? && Slips(s, r.value))
  {
    hide OwnerOutcome, CheckMint, Ready, Enabled, Approves;
  }

  lemma GuardIsSlip(s: Store, metas: seq<Meta>, i: Instruction)
    requires Shared(i)
    ensures var r := OldDecide(s, metas, i); SlipGuard(s, metas, i) <==> r.Ok? && Slips(s, r.value)
  {
    hide OldTransfer, OldBurn, TransferSlips, BurnSlips, Slips;
    match i {
      case Transfer(amount) => TransferGuard(s, metas, amount, None);
      case TransferChecked(amount, d) => TransferGuard(s, metas, amount, Some(d));
      case Burn(amount) => BurnGuard(s, metas, amount, None);
      case BurnChecked(amount, d) => BurnGuard(s, metas, amount, Some(d));
      case _ => OthersNeverSlip(s, metas, i);
    }
  }

  /** From every store, the two versions lead to the same store exactly when the call does
      not meet these guards. */
  lemma VersionsAgreeUnlessSlip(s: Store, sys: Sysvars, metas: seq<Meta>, i: Instruction)
    requires Shared(i)
    ensures OldExecute(s, metas, i) == Execute(s, sys, metas, i) <==> !SlipGuard(s, metas, i)
  {
    hide OldDecide, Decide, Apply, Accepts, Slips, SlipGuard, Ready, OwnerChecked;
    GuardIsSlip(s, metas, i);
    NewerNarrowsOlder(s, sys, metas, i);
    var r := OldDecide(s, metas, i);
    if r.Ok? {
      if OwnerChecked(s, r.value) {
        CheckedNeverSlips(s, r.value);
      } else if Slips(s, r.value) {
        SlipIsAccepted(s, r.value);
        UncheckedChangesNothing(s, r.value);
      } else if Accepts(s, Apply(s, r.value)) {
        UncheckedChangesNothing(s, r.value);
      }
    }
  }

  /** In reachable stores a burn never slips, so only a transfer of nothing to a foreign
      look-alike account tells the two versions apart. */
  lemma ReachableBurnsNeverSlip(s: Store, metas: seq<Meta>, i: Instruction)
    requires Reachable(s)
    ensures SlipGuard(s, metas, i) ==> i.Transfer? || i.TransferChecked?
  {
    ReachableIsConsistent(s);
    hide Reachable, OwnerOutcome;
    if |metas| >= 3 && Owned(s, metas[0].key) {
      assert Linked(s, metas[0].key) && CellOk(At(s, metas[0].key));
    }
  }

  /** Such a transfer exists in a reachable store: the older program drops the delegate, the
      newer one refuses. */
  lemma SlipExists()
    ensures exists s, sys, metas ::
              Reachable(s) && OldExecute(s, metas, Transfer(0)) != Execute(s, sys, metas, Transfer(0))
  {
    hide Reachable, OldExecute, Execute;
    var delegate: Pubkey := 8;
    var s := Circulating(0, Some(delegate), 0);
    var metas := [Meta(HOLDER, false), Meta(LOOKALIKE, false), Meta(delegate, true)];
    var sys := Sysvars(None, None);
    EveryApprovalIsReachable(0, delegate, 0);
    assert OwnerOutcome(s, delegate, metas[2], metas[3..]).Ok?;
    assert SlipGuard(s, metas, Transfer(0));
    VersionsAgreeUnlessSlip(s, sys, metas, Transfer(0));
  }

  // Runs

  datatype Call = Call(sys: Sysvars, metas: seq<Meta>, instruction: Instruction)

  ghost predicate AllShared(calls: seq<Call>) {
    forall i :: 0 <= i < |calls| ==> Shared(calls[i].instruction)
  }

  ghost function RunNew(s: Store, calls: seq<Call>): Store {
    if calls == [] then s else
    var n := |calls| - 1;
    Execute(RunNew(s, calls[..n]), calls[n].sys, calls[n].metas, calls[n].instruction)
  }

  ghost function RunOld(s: Store, calls: seq<Call>): Store
    requires AllShared(calls)
  {
    if calls == [] then s else
    var n := |calls| - 1;
    OldExecute(RunOld(s, calls[..n]), calls[n].metas, calls[n].instruction)
  }

  /** The two versions are in the same store after the first n calls. */
  ghost predicate AgreeAfter(s: Store, calls: seq<Call>, n: nat)
    requires AllShared(calls) && n <= |calls|
  {
    RunOld(s, calls[..n]) == RunNew(s, calls[..n])
  }

  ghost predicate AgreeThroughout(s: Store, calls: seq<Call>)
    requires AllShared(calls)
  {
    forall n :: 0 <= n <= |calls| ==> AgreeAfter(s, calls, n)
  }

  /** Call n meets the guards in the store the newer version has reached by then. */
  ghost predicate SlipsAt(s: Store, calls: seq<Call>, n: nat)
    requires n < |calls|
  {
    SlipGuard(RunNew(s, calls[..n]), calls[n].metas, calls[n].instruction)
  }

  ghost predicate NoSlip(s: Store, calls: seq<Call>) {
    forall n :: 0 <= n < |calls| ==> !SlipsAt(s, calls, n)
  }

  lemma NextAgrees(s: Store, calls: seq<Call>, n: nat)
    requires AllShared(calls) && n < |calls| && AgreeAfter(s, calls, n)
    ensures AgreeAfter(s, calls, n + 1) <==> !SlipsAt(s, calls, n)
  {
    hide OldExecute, Execute, SlipGuard;
    var c := calls[n];
    assert calls[..n + 1][..n] == calls[..n];
    VersionsAgreeUnlessSlip(RunNew(s, calls[..n]), c.sys, c.metas, c.instruction);
  }

  lemma {:induction false} AgreesUpTo(s: Store, calls: seq<Call>, n: nat)
    requires AllShared(calls) && NoSlip(s, calls) && n <= |calls|
    ensures AgreeAfter(s, calls, n)
  {
    if n > 0 {
      AgreesUpTo(s, calls, n - 1);
      hide AgreeAfter, SlipsAt;
      NextAgrees(s, calls, n - 1);
    }
  }

  /** The two versions stay in the same store throughout a run of the shared instructions
      exactly when no call of the newer version's run meets the guards. */
  lemma RunsCoincide(s: Store, calls: seq<Call>)
    requires AllShared(calls)
    ensures AgreeThroughout(s, calls) <==> NoSlip(s, calls)
  {
    if AgreeThroughout(s, calls) {
      forall n | 0 <= n < |calls|
        ensures !SlipsAt(s, calls, n)
      {
        assert AgreeAfter(s, calls, n) && AgreeAfter(s, calls, n + 1);
        hide AgreeAfter, SlipsAt;
        NextAgrees(s, calls, n);
      }
    }
    if NoSlip(s, calls) {
      forall n | 0 <= n <= |calls|
        ensures AgreeAfter(s, calls, n)
      {
        AgreesUpTo(s, calls, n);
      }
    }
  }

  /** If a call is a transfer or burn, the destination or mint it names belongs to the program. */
  predicate CounterpartOwned(s: Store, c: Call) {
    var i := c.instruction;
    var j := if i.TransferChecked? then 2 else 1;
    i.Transfer? || i.TransferChecked? || i.Burn? || i.BurnChecked? ==> j < |c.metas| ==> Owned(s, c.metas[j].key)
  }

  ghost predicate CounterpartsOwned(s: Store, calls: seq<Call>) {
    forall i :: 0 <= i < |calls| ==> CounterpartOwned(s, calls[i])
  }

  lemma {:induction false} OwnersStay(s: Store, calls: seq<Call>, k: Pubkey)
    ensures Owned(RunNew(s, calls), k) == Owned(s, k)
  {
    if calls != [] {
      hide Execute;
      var n := |calls| - 1;
      OwnersStay(s, calls[..n], k);
      ExecuteKeepsOwner(RunNew(s, calls[..n]), calls[n].sys, calls[n].metas, calls[n].instruction, k);
    }
  }

  lemma OwnedNeverSlips(s: Store, calls: seq<Call>, n: nat)
    requires CounterpartsOwned(s, calls) && n < |calls|
    ensures !SlipsAt(s, calls, n)
  {
    var c := calls[n];
    var j := if c.instruction.TransferChecked? then 2 else 1;
    assert CounterpartOwned(s, c);
    if j < |c.metas| {
      OwnersStay(s, calls[..n], c.metas[j].key);
    }
    hide RunNew, OwnerOutcome, CheckMint, Usable, Mints;
  }

  /** From a store in which the program owns every destination and mint that the transfers
      and burns of a run name, the two versions stay in the same store throughout. */
  lemma OwnedRunsCoincide(s: Store, calls: seq<Call>)
    requires AllShared(calls) && CounterpartsOwned(s, calls)
    ensures AgreeThroughout(s, calls) && RunOld(s, calls) == RunNew(s, calls)
  {
    hide SlipsAt, CounterpartsOwned, RunOld, RunNew;
    forall n | 0 <= n < |calls|
      ensures !SlipsAt(s, calls, n)
    {
      OwnedNeverSlips(s, calls, n);
    }
    RunsCoincide(s, calls);
    assert AgreeAfter(s, calls, |calls|);
    assert calls[..|calls|] == calls;
  }
}
