/** No error is reported without its cause. */
module Errors {
  import opened Types
  import opened Ledger
  import opened Authority
  import opened Rules
  import opened Specification

  /** The instruction expects a token account at position j of its list. */
  predicate ReadsAccount(i: Instruction, j: nat) {
    match i
    case Transfer(_) => j == 0 || j == 1
    case TransferChecked(_, _) => j == 0 || j == 2
    case MintTo(_) => j == 1
    case MintToChecked(_, _) => j == 1
    case InitializeMint(_, _, _) => false
    case InitializeMint2(_, _, _) => false
    case InitializeMultisig(_) => false
    case InitializeMultisig2(_) => false
    case _ => j == 0
  }

  predicate ReadsMint(i: Instruction, j: nat) {
    match i
    case MintTo(_) => j == 0
    case MintToChecked(_, _) => j == 0
    case SetAuthority(_, _) => j == 0
    case InitializeMint(_, _, _) => j == 0
    case InitializeMint2(_, _, _) => j == 0
    case _ => j == 1
  }

  /** A record at position j has the wrong length or does not decode. */
  predicate Unreadable(s: Store, metas: seq<Meta>, i: Instruction, j: nat) {
    && j < |metas|
    && var d := At(s, metas[j].key).data;
    || (ReadsAccount(i, j) && !d.AccountData?)
    || (ReadsMint(i, j) && !d.MintData?)
    || ((i.InitializeMultisig? || i.InitializeMultisig2?) && j == 0 && !d.MultisigData?)
    || (NeedsApproval(i) && j == AuthorityAt(i) && Owned(s, metas[j].key) && d.Len() == MULTISIG_LEN && !d.MultisigData?)
  }

  predicate Unset(s: Store, metas: seq<Meta>, i: Instruction, j: nat) {
    && j < |metas|
    && var d := At(s, metas[j].key).data;
    || (ReadsAccount(i, j) && d.AccountData? && d.account.state.Uninitialized?)
    || (ReadsMint(i, j) && d.MintData? && !d.mint.isInitialized)
    || (NeedsApproval(i) && j == AuthorityAt(i) && d.MultisigData? && !d.multisig.isInitialized)
  }

  predicate Moves(i: Instruction) {
    i.Transfer? || i.TransferChecked?
  }

  predicate Issues(i: Instruction) {
    i.MintTo? || i.MintToChecked?
  }

  predicate Opens(i: Instruction) {
    i.InitializeAccount? || i.InitializeAccount2? || i.InitializeAccount3?
  }

  /** The other account an instruction works on. */
  function Second(metas: seq<Meta>, i: Instruction): Pubkey
    requires |metas| >= AccountsNeeded(i)
  {
    if |metas| > SecondAt(i) then metas[SecondAt(i)].key else metas[0].key
  }

  /** The mint of the account an instruction works on. */
  function MintOf(s: Store, metas: seq<Meta>, i: Instruction): Pubkey
    requires |metas| >= AccountsNeeded(i)
  {
    AccountAt(s, if Issues(i) then Second(metas, i) else metas[0].key).mint
  }

  /** A record length each initialization works on. */
  function NewLength(i: Instruction): nat {
    if i.InitializeMint? || i.InitializeMint2? then MINT_LEN
    else if i.InitializeMultisig? || i.InitializeMultisig2? then MULTISIG_LEN
    else ACCOUNT_LEN
  }

  /** What must be wrong for an initialization or a SyncNative to report an error. */
  ghost predicate SetupExplains(s: Store, sys: Sysvars, metas: seq<Meta>, i: Instruction, error: Error)
    requires !NeedsApproval(i)
  {
    var rent, keys := RentFor(sys, metas, i), |metas| - AccountsNeeded(i);
    if |metas| < AccountsNeeded(i) then error == NotEnoughAccountKeys
    else
      var k := metas[0].key;
      var c, a := At(s, k), AccountAt(s, k);
      match error
      case InvalidAccountData => Unreadable(s, metas, i, 0)
      case InvalidArgument => rent.None?
      case UnsupportedSysvar => rent.None?
      case NotRentExempt => rent.Some? && c.lamports < rent.value.minimumBalance(NewLength(i))
      case AlreadyInUse => MintAt(s, k).isInitialized || !a.state.Uninitialized? || MultisigAt(s, k).isInitialized
      case InvalidMint => Opens(i) && metas[1].key != NATIVE_MINT && !Mints(s, metas[1].key)
      case InvalidNumberOfProvidedSigners => !IsValidSignerIndex(keys % 0x100)
      case InvalidNumberOfRequiredSigners => (i.InitializeMultisig? || i.InitializeMultisig2?) && !IsValidSignerIndex(i.m)
      case Panic => (i.InitializeMultisig? || i.InitializeMultisig2?) && keys > MAX_SIGNERS
      case IncorrectProgramId =>
        if i.SyncNative? then !Owned(s, k) else Opens(i) && metas[1].key != NATIVE_MINT && !Owned(s, metas[1].key)
      case UninitializedAccount => i.SyncNative? && Unset(s, metas, i, 0)
      case NonNativeNotSupported => i.SyncNative? && a.isNative.None?
      case Overflow => i.SyncNative? && a.isNative.Some? && c.lamports < a.isNative.value
      case InvalidState => i.SyncNative? && a.isNative.Some? && c.lamports < a.isNative.value + a.amount
      case _ => false
  }

  /** What must be wrong for a movement of tokens to overflow. */
  predicate OverflowCause(s: Store, first: Pubkey, second: Pubkey, i: Instruction) {
    var amount, a, b := AmountIn(i), AccountAt(s, first), AccountAt(s, second);
    if Moves(i) then
      && first != second
      && (b.amount + amount > U64_MAX
          || (a.isNative.Some? && (At(s, first).lamports < amount || At(s, second).lamports + amount > U64_MAX)))
    else if Issues(i) then b.amount + amount > U64_MAX || MintAt(s, first).supply + amount > U64_MAX
    else if i.CloseAccount? then At(s, first).lamports + At(s, second).lamports > U64_MAX
    else amount > MintAt(s, second).supply
  }

  /** What must be wrong for any other instruction to report an error. */
  ghost predicate UseExplains(s: Store, metas: seq<Meta>, i: Instruction, error: Error)
    requires NeedsApproval(i)
  {
    if error == InvalidAccountData then
      || Unreadable(s, metas, i, 0) || Unreadable(s, metas, i, 1)
      || Unreadable(s, metas, i, 2) || Unreadable(s, metas, i, 3)
      || (i.CloseAccount? && |metas| >= 2 && metas[0].key == metas[1].key)
    else if error == UninitializedAccount then
      Unset(s, metas, i, 0) || Unset(s, metas, i, 1) || Unset(s, metas, i, 2) || Unset(s, metas, i, 3)
    else if |metas| < AccountsNeeded(i) then error == NotEnoughAccountKeys
    else
      var first, second, who := metas[0].key, Second(metas, i), metas[AuthorityAt(i)].key;
      var a, b, m, amount := AccountAt(s, first), AccountAt(s, second), MintAt(s, first), AmountIn(i);
      match error
      case OwnerMismatch => Approver(s, metas, i).Some? && who != Approver(s, metas, i).value
      case MissingRequiredSignature => !IsApproved(s, metas, i)
      case Panic => MultisigAt(s, who).n > MAX_SIGNERS
      case InsufficientFunds => amount > a.amount || !WithinAllowance(a, who, amount)
      case AccountFrozen => if Issues(i) then b.state.Frozen? else a.state.Frozen? || (Moves(i) && b.state.Frozen?)
      case MintMismatch =>
        || (Moves(i) && a.mint != b.mint)
        || (!i.Transfer? && metas[if Issues(i) then 0 else 1].key != MintOf(s, metas, i))
      case MintDecimalsMismatch =>
        DecimalsIn(i).Some? && MintAt(s, MintOf(s, metas, i)).decimals != DecimalsIn(i).value
      case Overflow => OverflowCause(s, first, second, i)
      case IncorrectProgramId => (first == second || amount == 0) && !(Owned(s, first) && Owned(s, second))
      case FixedSupply => m.mintAuthority.None?
      case MintCannotFreeze => if i.SetAuthority? then m.freezeAuthority.None? else MintAt(s, second).freezeAuthority.None?
      case NativeNotSupported => if Issues(i) then b.isNative.Some? else a.isNative.Some?
      case NonNativeHasBalance => i.CloseAccount? && a.isNative.None? && a.amount > 0
      case InvalidState => a.state.Frozen? == i.FreezeAccount?
      case InvalidArgument => i.SetAuthority? && At(s, first).data.Len() !in {MINT_LEN, ACCOUNT_LEN}
      case AuthorityTypeNotSupported =>
        && i.SetAuthority?
        && (if At(s, first).data.AccountData? then i.authorityType.MintTokens? || i.authorityType.FreezeAccounts?
            else i.authorityType.AccountOwner? || i.authorityType.CloseAccounts?)
      case InvalidInstruction => i.SetAuthority? && i.authorityType.AccountOwner? && i.newAuthority.None?
      case _ => false
  }

  // Instruction by instruction

  /** The decided error is explained, if there is one. */
  ghost predicate Truthful(s: Store, sys: Sysvars, metas: seq<Meta>, i: Instruction, r: Result<Event>) {
    r.Err? ==> if NeedsApproval(i) then UseExplains(s, metas, i, r.error) else SetupExplains(s, sys, metas, i, r.error)
  }

  lemma ApprovalErrors(s: Store, metas: seq<Meta>, i: Instruction)
    requires |metas| >= AccountsNeeded(i) && NeedsApproval(i) && Approver(s, metas, i).Some?
    ensures var j := AuthorityAt(i);
            var r := OwnerOutcome(s, Approver(s, metas, i).value, metas[j], metas[j + 1..]);
            r.Err? ==> UseExplains(s, metas, i, r.error)
  {
    hide Satisfies, OverflowCause, MintOf, WithinAllowance;
  }

  lemma TransferErrors(s: Store, sys: Sysvars, metas: seq<Meta>, i: Instruction)
    requires i.Transfer?
    ensures Truthful(s, sys, metas, i, DecideTransfer(s, metas, i.amount, None))
  {
    hide OwnerOutcome, IsApproved, Enabled, Approves;
    if |metas| >= AccountsNeeded(i) {
      ApprovalErrors(s, metas, i);
    }
  }

  lemma CheckedTransferErrors(s: Store, sys: Sysvars, metas: seq<Meta>, i: Instruction)
    requires i.TransferChecked?
    ensures Truthful(s, sys, metas, i, DecideTransfer(s, metas, i.amount, Some(i.decimals)))
  {
    hide OwnerOutcome, IsApproved, Enabled, Approves;
    if |metas| >= AccountsNeeded(i) {
      ApprovalErrors(s, metas, i);
    }
  }

  lemma IssueErrors(s: Store, sys: Sysvars, metas: seq<Meta>, i: Instruction)
    requires i.MintTo?
    ensures Truthful(s, sys, metas, i, DecideMintTo(s, metas, i.amount, None))
  {
    hide OwnerOutcome, IsApproved, Enabled, Approves;
    if |metas| >= AccountsNeeded(i) && Approver(s, metas, i).Some? {
      ApprovalErrors(s, metas, i);
    }
  }

  lemma CheckedIssueErrors(s: Store, sys: Sysvars, metas: seq<Meta>, i: Instruction)
    requires i.MintToChecked?
    ensures Truthful(s, sys, metas, i, DecideMintTo(s, metas, i.amount, Some(i.decimals)))
  {
    hide OwnerOutcome, IsApproved, Enabled, Approves;
    if |metas| >= AccountsNeeded(i) && Approver(s, metas, i).Some? {
      ApprovalErrors(s, metas, i);
    }
  }

  lemma DestroyErrors(s: Store, sys: Sysvars, metas: seq<Meta>, i: Instruction)
    requires i.Burn?
    ensures Truthful(s, sys, metas, i, DecideBurn(s, metas, i.amount, None))
  {
    hide OwnerOutcome, IsApproved, Enabled, Approves;
    if |metas| >= AccountsNeeded(i) {
      ApprovalErrors(s, metas, i);
    }
  }

  lemma CheckedDestroyErrors(s: Store, sys: Sysvars, metas: seq<Meta>, i: Instruction)
    requires i.BurnChecked?
    ensures Truthful(s, sys, metas, i, DecideBurn(s, metas, i.amount, Some(i.decimals)))
  {
    hide OwnerOutcome, IsApproved, Enabled, Approves;
    if |metas| >= AccountsNeeded(i) {
      ApprovalErrors(s, metas, i);
    }
  }

  lemma ApproveErrors(s: Store, sys: Sysvars, metas: seq<Meta>, i: Instruction)
    requires i.Approve?
    ensures Truthful(s, sys, metas, i, DecideApprove(s, metas, i.amount, None))
  {
    hide OwnerOutcome, IsApproved, Enabled, Approves;
    if |metas| >= AccountsNeeded(i) {
      ApprovalErrors(s, metas, i);
    }
  }

  lemma CheckedApproveErrors(s: Store, sys: Sysvars, metas: seq<Meta>, i: Instruction)
    requires i.ApproveChecked?
    ensures Truthful(s, sys, metas, i, DecideApprove(s, metas, i.amount, Some(i.decimals)))
  {
    hide OwnerOutcome, IsApproved, Enabled, Approves;
    if |metas| >= AccountsNeeded(i) {
      ApprovalErrors(s, metas, i);
    }
  }

  lemma RevokeErrors(s: Store, sys: Sysvars, metas: seq<Meta>, i: Instruction)
    requires i.Revoke?
    ensures Truthful(s, sys, metas, i, DecideRevoke(s, metas))
  {
    hide OwnerOutcome, IsApproved, Enabled, Approves;
    if |metas| >= AccountsNeeded(i) {
      ApprovalErrors(s, metas, i);
    }
  }

  lemma AuthorityErrors(s: Store, sys: Sysvars, metas: seq<Meta>, i: Instruction)
    requires i.SetAuthority?
    ensures Truthful(s, sys, metas, i, DecideSetAuthority(s, metas, i.authorityType, i.newAuthority))
  {
    hide OwnerOutcome, IsApproved, Enabled, Approves;
    if |metas| >= AccountsNeeded(i) && Approver(s, metas, i).Some? {
      ApprovalErrors(s, metas, i);
    }
  }

  lemma CloseErrors(s: Store, sys: Sysvars, metas: seq<Meta>, i: Instruction)
    requires i.CloseAccount?
    ensures Truthful(s, sys, metas, i, DecideCloseAccount(s, metas))
  {
    hide OwnerOutcome, IsApproved, Enabled, Approves;
    if |metas| >= AccountsNeeded(i) {
      ApprovalErrors(s, metas, i);
    }
  }

  lemma FreezeErrors(s: Store, sys: Sysvars, metas: seq<Meta>, i: Instruction)
    requires i.FreezeAccount?
    ensures Truthful(s, sys, metas, i, DecideToggleFreeze(s, metas, true))
  {
    hide OwnerOutcome, IsApproved, Enabled, Approves, OverflowCause;
    if |metas| >= AccountsNeeded(i) && Approver(s, metas, i).Some? {
      ApprovalErrors(s, metas, i);
    }
  }

  lemma ThawErrors(s: Store, sys: Sysvars, metas: seq<Meta>, i: Instruction)
    requires i.ThawAccount?
    ensures Truthful(s, sys, metas, i, DecideToggleFreeze(s, metas, false))
  {
    hide OwnerOutcome, IsApproved, Enabled, Approves, OverflowCause;
    if |metas| >= AccountsNeeded(i) && Approver(s, metas, i).Some? {
      ApprovalErrors(s, metas, i);
    }
  }

  lemma SyncErrors(s: Store, sys: Sysvars, metas: seq<Meta>, i: Instruction)
    requires i.SyncNative?
    ensures Truthful(s, sys, metas, i, DecideSyncNative(s, metas))
  {
    hide Enabled;
  }

  lemma MintSetupErrors(s: Store, sys: Sysvars, metas: seq<Meta>, i: Instruction)
    requires i.InitializeMint? || i.InitializeMint2?
    ensures Truthful(s, sys, metas, i, DecideInitializeMint(s, sys, metas, i.decimals, i.mintAuthority, i.freezeAuthority,
                                                       i.InitializeMint?))
  {
    hide Enabled;
  }

  lemma MultisigSetupErrors(s: Store, sys: Sysvars, metas: seq<Meta>, i: Instruction)
    requires i.InitializeMultisig? || i.InitializeMultisig2?
    ensures Truthful(s, sys, metas, i, DecideInitializeMultisig(s, sys, metas, i.m, i.InitializeMultisig?))
  {
    hide Enabled, Keys, IsValidSignerIndex;
  }

  lemma AccountSetupErrors(s: Store, sys: Sysvars, metas: seq<Meta>, i: Instruction)
    requires i.InitializeAccount? || i.InitializeAccount2? || i.InitializeAccount3?
    ensures var owner := if i.InitializeAccount? then None else Some(i.owner);
            Truthful(s, sys, metas, i, DecideInitializeAccount(s, sys, metas, owner, !i.InitializeAccount3?))
  {
    hide Enabled;
  }

  /** Every error the program reports is true: what it complains about really is wrong. */
  lemma ErrorsAreTruthful(s: Store, sys: Sysvars, metas: seq<Meta>, i: Instruction)
    ensures Truthful(s, sys, metas, i, Decide(s, sys, metas, i))
  {
    hide DecideTransfer, DecideMintTo, DecideBurn, DecideApprove, DecideRevoke, DecideSetAuthority, DecideCloseAccount,
         DecideToggleFreeze, DecideSyncNative, DecideInitializeMint, DecideInitializeAccount, DecideInitializeMultisig,
         Truthful;
    match i {
      case Transfer(_) => TransferErrors(s, sys, metas, i);
      case TransferChecked(_, _) => CheckedTransferErrors(s, sys, metas, i);
      case MintTo(_) => IssueErrors(s, sys, metas, i);
      case MintToChecked(_, _) => CheckedIssueErrors(s, sys, metas, i);
      case Burn(_) => DestroyErrors(s, sys, metas, i);
      case BurnChecked(_, _) => CheckedDestroyErrors(s, sys, metas, i);
      case Approve(_) => ApproveErrors(s, sys, metas, i);
      case ApproveChecked(_, _) => CheckedApproveErrors(s, sys, metas, i);
      case Revoke => RevokeErrors(s, sys, metas, i);
      case SetAuthority(_, _) => AuthorityErrors(s, sys, metas, i);
      case CloseAccount => CloseErrors(s, sys, metas, i);
      case FreezeAccount => FreezeErrors(s, sys, metas, i);
      case ThawAccount => ThawErrors(s, sys, metas, i);
      case InitializeMint(_, _, _) => MintSetupErrors(s, sys, metas, i);
      case InitializeMint2(_, _, _) => MintSetupErrors(s, sys, metas, i);
      case InitializeAccount => AccountSetupErrors(s, sys, metas, i);
      case InitializeAccount2(_) => AccountSetupErrors(s, sys, metas, i);
      case InitializeAccount3(_) => AccountSetupErrors(s, sys, metas, i);
      case SyncNative => SyncErrors(s, sys, metas, i);
      case InitializeMultisig(_) => MultisigSetupErrors(s, sys, metas, i);
      case InitializeMultisig2(_) => MultisigSetupErrors(s, sys, metas, i);
    }
  }
}
