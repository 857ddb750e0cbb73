/** What an instruction leaves alone. */
module Frames {
  import opened Types
  import opened Ledger
  import opened Authority
  import opened Rules
  import opened Steps

  /** The accounts an event may write. */
  predicate Writes(e: Event, k: Pubkey) {
    match e
    case MintCreated(mint, _, _, _) => k == mint
    case AccountOpened(account, _, _, _) => k == account
    case MultisigCreated(multisig, _, _) => k == multisig
    case Transferred(source, dest, _, _) => k == source || k == dest
    case TransferredToSelf(_, _, _) => false
    case Approved(source, _, _) => k == source
    case Revoked(source) => k == source
    case OwnerChanged(account, _) => k == account
    case CloseAuthorityChanged(account, _) => k == account
    case MintAuthorityChanged(mint, _) => k == mint
    case FreezeAuthorityChanged(mint, _) => k == mint
    case Minted(mint, dest, _) => k == mint || k == dest
    case Burned(source, mint, _, _) => k == source || k == mint
    case Closed(source, dest) => k == source || k == dest
    case FreezeSet(account, _, _) => k == account
    case Synced(account) => k == account
  }

  lemma ApplyFrame(s: Store, e: Event, k: Pubkey)
    requires Ready(s, e)
    ensures At(Apply(s, e), k).owner == At(s, k).owner
    ensures !Writes(e, k) ==> At(Apply(s, e), k) == At(s, k)
  {
  }

  predicate Named(metas: seq<Meta>, k: Pubkey) {
    exists j :: 0 <= j < |metas| && metas[j].key == k
  }

  lemma SpendIsNamed(s: Store, metas: seq<Meta>, amount: u64, expectedDecimals: Option<u8>, k: Pubkey)
    ensures var r := DecideTransfer(s, metas, amount, expectedDecimals);
            r.Ok? && Writes(r.value, k) ==> Named(metas, k)
    ensures var r := DecideBurn(s, metas, amount, expectedDecimals);
            r.Ok? && Writes(r.value, k) ==> Named(metas, k)
  {
    hide DecideSpend, CheckMint, Ready, OwnerChecked;
  }

  lemma AuthorityIsNamed(s: Store, metas: seq<Meta>, kind: AuthorityType, authority: Option<Pubkey>, k: Pubkey)
    ensures var r := DecideSetAuthority(s, metas, kind, authority);
            r.Ok? && Writes(r.value, k) ==> Named(metas, k)
  {
    hide OwnerOutcome, Ready, OwnerChecked;
  }

  lemma DecidedIsNamed(s: Store, sys: Sysvars, metas: seq<Meta>, i: Instruction, k: Pubkey)
    requires Decide(s, sys, metas, i).Ok? && Writes(Decide(s, sys, metas, i).value, k)
    ensures Named(metas, k)
  {
    hide OwnerOutcome, CheckMint, Ready, OwnerChecked, Approves, DecideTransfer, DecideBurn, DecideSetAuthority;
    match i {
      case Transfer(amount) => SpendIsNamed(s, metas, amount, None, k);
      case TransferChecked(amount, d) => SpendIsNamed(s, metas, amount, Some(d), k);
      case Burn(amount) => SpendIsNamed(s, metas, amount, None, k);
      case BurnChecked(amount, d) => SpendIsNamed(s, metas, amount, Some(d), k);
      case SetAuthority(kind, authority) => AuthorityIsNamed(s, metas, kind, authority, k);
      case _ =>
    }
  }

  /** No instruction touches an account it is not given. */
  lemma UnnamedIsUntouched(s: Store, sys: Sysvars, metas: seq<Meta>, i: Instruction, k: Pubkey)
    requires !Named(metas, k)
    ensures At(Execute(s, sys, metas, i), k) == At(s, k)
  {
    hide Decide, Apply, Accepts, Ready, Writes, Named;
    var e := Committed(s, sys, metas, i);
    if e.Some? {
      if Writes(e.value, k) {
        DecidedIsNamed(s, sys, metas, i, k);
      }
      ApplyFrame(s, e.value, k);
    }
  }

  lemma ExecuteKeepsOwner(s: Store, sys: Sysvars, metas: seq<Meta>, i: Instruction, k: Pubkey)
    ensures At(Execute(s, sys, metas, i), k).owner == At(s, k).owner
  {
    hide Decide, Apply, Accepts, Ready;
    var e := Committed(s, sys, metas, i);
    if e.Some? {
      ApplyFrame(s, e.value, k);
    }
  }

  /** An account of another program keeps its data and loses no lamports, whatever is done to it. */
  lemma ForeignOnlyGains(s: Store, sys: Sysvars, metas: seq<Meta>, i: Instruction, k: Pubkey)
    requires !Owned(s, k)
    ensures var t := Execute(s, sys, metas, i);
            At(t, k).data == At(s, k).data && At(t, k).lamports >= At(s, k).lamports
  {
    hide Decide, Apply, Ready, At;
  }
}
