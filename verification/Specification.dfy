/** What each instruction asks for and what it does, stated field by field on the accounts it
    names and without the events and checks the program goes through. */
module Specification {
  import opened Types
  import opened Ledger
  import opened Authority
  import opened Rules

  // Account lists

  function AccountsNeeded(i: Instruction): nat {
    match i
    case InitializeMint2(_, _, _) => 1
    case InitializeMultisig2(_) => 1
    case SyncNative => 1
    case InitializeMint(_, _, _) => 2
    case InitializeMultisig(_) => 2
    case InitializeAccount3(_) => 2
    case Revoke => 2
    case SetAuthority(_, _) => 2
    case InitializeAccount => 4
    case TransferChecked(_, _) => 4
    case ApproveChecked(_, _) => 4
    case _ => 3
  }

  /** Where the destination of a transfer or the delegate of an approval is listed. */
  function SecondAt(i: Instruction): nat {
    if i.TransferChecked? || i.ApproveChecked? then 2 else 1
  }

  /** Where the approving account is listed; its signers follow. */
  function AuthorityAt(i: Instruction): nat {
    match i
    case Revoke => 1
    case SetAuthority(_, _) => 1
    case _ => 1 + SecondAt(i)
  }

  predicate NeedsApproval(i: Instruction) {
    || i.Transfer? || i.TransferChecked? || i.Approve? || i.ApproveChecked? || i.Revoke? || i.SetAuthority?
    || i.MintTo? || i.MintToChecked? || i.Burn? || i.BurnChecked? || i.CloseAccount? || i.FreezeAccount? || i.ThawAccount?
  }

  function AmountIn(i: Instruction): u64 {
    match i
    case Transfer(amount) => amount
    case TransferChecked(amount, _) => amount
    case Approve(amount) => amount
    case ApproveChecked(amount, _) => amount
    case MintTo(amount) => amount
    case MintToChecked(amount, _) => amount
    case Burn(amount) => amount
    case BurnChecked(amount, _) => amount
    case _ => 0
  }

  function DecimalsIn(i: Instruction): Option<u8> {
    match i
    case TransferChecked(_, d) => Some(d)
    case ApproveChecked(_, d) => Some(d)
    case MintToChecked(_, d) => Some(d)
    case BurnChecked(_, d) => Some(d)
    case _ => None
  }

  /** The rent schedule, as the account at position j yields it. */
  function RentAt(sys: Sysvars, metas: seq<Meta>, j: nat): Option<Rent> {
    if j < |metas| && metas[j].key == RENT_SYSVAR then sys.rentAccount else None
  }

  function RentFor(sys: Sysvars, metas: seq<Meta>, i: Instruction): Option<Rent> {
    match i
    case InitializeMint(_, _, _) => RentAt(sys, metas, 1)
    case InitializeMultisig(_) => RentAt(sys, metas, 1)
    case InitializeAccount => RentAt(sys, metas, 3)
    case InitializeAccount2(_) => RentAt(sys, metas, 2)
    case _ => sys.rentSyscall
  }

  /** The key whose approval the instruction needs. */
  function Approver(s: Store, metas: seq<Meta>, i: Instruction): Option<Pubkey>
    requires |metas| >= AccountsNeeded(i)
  {
    var a, m := AccountAt(s, metas[0].key), MintAt(s, metas[0].key);
    match i
    case SetAuthority(AccountOwner, _) => Some(a.owner)
    case SetAuthority(CloseAccounts, _) => Some(if a.closeAuthority.Some? then a.closeAuthority.value else a.owner)
    case SetAuthority(MintTokens, _) => m.mintAuthority
    case SetAuthority(FreezeAccounts, _) => m.freezeAuthority
    case MintTo(_) => m.mintAuthority
    case MintToChecked(_, _) => m.mintAuthority
    case CloseAccount => Some(if a.closeAuthority.Some? then a.closeAuthority.value else a.owner)
    case FreezeAccount => MintAt(s, metas[1].key).freezeAuthority
    case ThawAccount => MintAt(s, metas[1].key).freezeAuthority
    case Approve(_) => Some(a.owner)
    case ApproveChecked(_, _) => Some(a.owner)
    case Revoke => Some(a.owner)
    case _ =>
      var presented := if AuthorityAt(i) < |metas| then metas[AuthorityAt(i)].key else 0;
      Some(if a.delegate == Some(presented) then presented else a.owner)
  }

  ghost predicate IsApproved(s: Store, metas: seq<Meta>, i: Instruction)
    requires |metas| >= AccountsNeeded(i) && NeedsApproval(i)
  {
    var key, j := Approver(s, metas, i), AuthorityAt(i);
    key.Some? && OwnerOutcome(s, key.value, metas[j], metas[j + 1..]).Ok?
  }

  // When an instruction succeeds

  predicate ChecksMint(s: Store, mint: Pubkey, i: Instruction) {
    DecimalsIn(i).Some? ==> Mints(s, mint) && MintAt(s, mint).decimals == DecimalsIn(i).value
  }

  /** The delegate stays within its allowance. */
  predicate WithinAllowance(a: Account, presented: Pubkey, amount: u64) {
    a.delegate == Some(presented) ==> amount <= a.delegatedAmount
  }

  predicate CanTransfer(s: Store, metas: seq<Meta>, i: Instruction, strict: bool)
    requires i.Transfer? || i.TransferChecked?
    requires |metas| >= AccountsNeeded(i)
  {
    var source, dest, amount := metas[0].key, metas[SecondAt(i)].key, AmountIn(i);
    var a, b := AccountAt(s, source), AccountAt(s, dest);
    && Usable(s, source) && Usable(s, dest) && a.mint == b.mint
    && (i.TransferChecked? ==> metas[1].key == a.mint) && ChecksMint(s, a.mint, i)
    && amount <= a.amount && WithinAllowance(a, metas[AuthorityAt(i)].key, amount)
    && (strict && (source == dest || amount == 0) ==> Owned(s, source) && Owned(s, dest))
    && (source != dest ==> b.amount + amount <= U64_MAX)
    && (source != dest && a.isNative.Some? ==>
          amount <= At(s, source).lamports && At(s, dest).lamports + amount <= U64_MAX)
  }

  predicate CanIssue(s: Store, metas: seq<Meta>, i: Instruction, strict: bool)
    requires |metas| >= 3
  {
    var mint, dest, amount := metas[0].key, metas[1].key, AmountIn(i);
    && Mints(s, mint) && Usable(s, dest) && AccountAt(s, dest).mint == mint && AccountAt(s, dest).isNative.None?
    && ChecksMint(s, mint, i)
    && (strict && amount == 0 ==> Owned(s, mint) && Owned(s, dest))
    && AccountAt(s, dest).amount + amount <= U64_MAX && MintAt(s, mint).supply + amount <= U64_MAX
  }

  predicate CanDestroy(s: Store, metas: seq<Meta>, i: Instruction, strict: bool)
    requires |metas| >= 3
  {
    var source, mint, amount := metas[0].key, metas[1].key, AmountIn(i);
    var a := AccountAt(s, source);
    && Usable(s, source) && Mints(s, mint) && a.mint == mint && a.isNative.None?
    && ChecksMint(s, mint, i)
    && amount <= a.amount && amount <= MintAt(s, mint).supply
    && WithinAllowance(a, metas[2].key, amount)
    && (strict && amount == 0 ==> Owned(s, source) && Owned(s, mint))
  }

  predicate CanOpen(s: Store, sys: Sysvars, metas: seq<Meta>, i: Instruction)
    requires |metas| >= 2
  {
    var c, mint, rent := At(s, metas[0].key), metas[1].key, RentFor(sys, metas, i);
    && c.data.AccountData? && c.data.account.state.Uninitialized?
    && rent.Some? && rent.value.minimumBalance(ACCOUNT_LEN) <= c.lamports
    && (mint == NATIVE_MINT || LiveMint(s, mint))
  }

  predicate CanCreateMint(s: Store, sys: Sysvars, metas: seq<Meta>, i: Instruction)
    requires |metas| >= 1
  {
    var c, rent := At(s, metas[0].key), RentFor(sys, metas, i);
    && c.data.MintData? && !c.data.mint.isInitialized
    && rent.Some? && rent.value.minimumBalance(MINT_LEN) <= c.lamports
  }

  predicate CanCreateMultisig(s: Store, sys: Sysvars, metas: seq<Meta>, i: Instruction)
    requires i.InitializeMultisig? || i.InitializeMultisig2?
    requires |metas| >= AccountsNeeded(i)
  {
    var c, rent := At(s, metas[0].key), RentFor(sys, metas, i);
    && c.data.MultisigData? && !c.data.multisig.isInitialized
    && rent.Some? && rent.value.minimumBalance(MULTISIG_LEN) <= c.lamports
    && 1 <= i.m <= 11 && 1 <= |metas| - AccountsNeeded(i) <= 11
  }

  predicate CanSetAuthority(s: Store, k: Pubkey, kind: AuthorityType, authority: Option<Pubkey>) {
    match kind
    case AccountOwner => Usable(s, k) && authority.Some?
    case CloseAccounts => Usable(s, k)
    case _ => Mints(s, k)
  }

  predicate CanToggle(s: Store, metas: seq<Meta>, freeze: bool)
    requires |metas| >= 3
  {
    var a := AccountAt(s, metas[0].key);
    && Holds(s, metas[0].key) && a.state.Frozen? == !freeze
    && a.isNative.None? && a.mint == metas[1].key && Mints(s, metas[1].key)
  }

  predicate CanClose(s: Store, metas: seq<Meta>)
    requires |metas| >= 3
  {
    var source, dest := metas[0].key, metas[1].key;
    && source != dest && Holds(s, source)
    && (AccountAt(s, source).isNative.Some? || AccountAt(s, source).amount == 0)
    && At(s, source).lamports + At(s, dest).lamports <= U64_MAX
  }

  predicate CanSync(s: Store, k: Pubkey) {
    var a := AccountAt(s, k);
    Owned(s, k) && Holds(s, k) && a.isNative.Some? && a.isNative.value + a.amount <= At(s, k).lamports
  }

  /** Everything an instruction asks for. The newer version is strict: it looks at who owns
      the accounts when nothing is to be written that the runtime would check. */
  ghost predicate InOrder(s: Store, sys: Sysvars, metas: seq<Meta>, i: Instruction, strict: bool) {
    && |metas| >= AccountsNeeded(i)
    && (NeedsApproval(i) ==> IsApproved(s, metas, i))
    && match i {
         case Transfer(_) => CanTransfer(s, metas, i, strict)
         case TransferChecked(_, _) => CanTransfer(s, metas, i, strict)
         case MintTo(_) => CanIssue(s, metas, i, strict)
         case MintToChecked(_, _) => CanIssue(s, metas, i, strict)
         case Burn(_) => CanDestroy(s, metas, i, strict)
         case BurnChecked(_, _) => CanDestroy(s, metas, i, strict)
         case Approve(_) => Usable(s, metas[0].key)
         case ApproveChecked(_, _) =>
           var a := AccountAt(s, metas[0].key);
           Usable(s, metas[0].key) && metas[1].key == a.mint && ChecksMint(s, a.mint, i)
         case Revoke => Usable(s, metas[0].key)
         case SetAuthority(kind, authority) => CanSetAuthority(s, metas[0].key, kind, authority)
         case CloseAccount => CanClose(s, metas)
         case FreezeAccount => CanToggle(s, metas, true)
         case ThawAccount => CanToggle(s, metas, false)
         case SyncNative => CanSync(s, metas[0].key)
         case InitializeMint(_, _, _) => CanCreateMint(s, sys, metas, i)
         case InitializeMint2(_, _, _) => CanCreateMint(s, sys, metas, i)
         case InitializeMultisig(_) => CanCreateMultisig(s, sys, metas, i)
         case InitializeMultisig2(_) => CanCreateMultisig(s, sys, metas, i)
         case InitializeAccount => CanOpen(s, sys, metas, i)
         case InitializeAccount2(_) => CanOpen(s, sys, metas, i)
         case InitializeAccount3(_) => CanOpen(s, sys, metas, i)
       }
  }

  // What it does

  /** Nothing changes outside the given accounts. */
  ghost predicate Confined(s: Store, t: Store, keys: set<Pubkey>) {
    forall k: Pubkey :: k !in keys ==> At(t, k) == At(s, k)
  }

  /** A cell still holds a token account and belongs to the same program; `credit` lamports came in. */
  predicate AccountStays(s: Store, t: Store, k: Pubkey, credit: int) {
    && At(t, k).owner == At(s, k).owner && At(t, k).data.AccountData?
    && At(t, k).lamports == At(s, k).lamports + credit
  }

  predicate MintStays(s: Store, t: Store, k: Pubkey) {
    At(t, k).owner == At(s, k).owner && At(t, k).data.MintData? && At(t, k).lamports == At(s, k).lamports
  }

  /** `amount` leaves account a, which becomes b, and counts against the allowance if the
      delegate is the one presented. */
  predicate Spent(a: Account, b: Account, amount: u64, presented: Pubkey) {
    && b.amount == a.amount - amount
    && (if a.delegate == Some(presented) then
          && b.delegatedAmount == a.delegatedAmount - amount
          && b.delegate == if b.delegatedAmount == 0 then None else a.delegate
        else
          b.delegatedAmount == a.delegatedAmount && b.delegate == a.delegate)
    && b == a.(amount := b.amount, delegatedAmount := b.delegatedAmount, delegate := b.delegate)
  }

  predicate Received(a: Account, b: Account, amount: u64) {
    b.amount == a.amount + amount && b == a.(amount := b.amount)
  }

  ghost predicate TransferEffect(s: Store, t: Store, source: Pubkey, dest: Pubkey, amount: u64, presented: Pubkey) {
    if source == dest then Confined(s, t, {}) else
    var moved := if AccountAt(s, source).isNative.Some? then amount else 0;
    && Confined(s, t, {source, dest})
    && AccountStays(s, t, source, -moved) && Spent(AccountAt(s, source), AccountAt(t, source), amount, presented)
    && AccountStays(s, t, dest, moved) && Received(AccountAt(s, dest), AccountAt(t, dest), amount)
  }

  ghost predicate IssueEffect(s: Store, t: Store, mint: Pubkey, dest: Pubkey, amount: u64) {
    var m, n := MintAt(s, mint), MintAt(t, mint);
    && Confined(s, t, {mint, dest})
    && MintStays(s, t, mint) && n.supply == m.supply + amount && n == m.(supply := n.supply)
    && AccountStays(s, t, dest, 0) && Received(AccountAt(s, dest), AccountAt(t, dest), amount)
  }

  ghost predicate DestroyEffect(s: Store, t: Store, source: Pubkey, mint: Pubkey, amount: u64, presented: Pubkey) {
    var m, n := MintAt(s, mint), MintAt(t, mint);
    && Confined(s, t, {mint, source})
    && MintStays(s, t, mint) && n.supply == m.supply - amount && n == m.(supply := n.supply)
    && AccountStays(s, t, source, 0) && Spent(AccountAt(s, source), AccountAt(t, source), amount, presented)
  }

  /** One token account is given new contents and nothing else changes. */
  ghost predicate Becomes(s: Store, t: Store, k: Pubkey, a: Account) {
    Confined(s, t, {k}) && AccountStays(s, t, k, 0) && AccountAt(t, k) == a
  }

  ghost predicate MintBecomes(s: Store, t: Store, k: Pubkey, m: Mint) {
    Confined(s, t, {k}) && MintStays(s, t, k) && MintAt(t, k) == m
  }

  ghost predicate AuthorityEffect(s: Store, t: Store, k: Pubkey, kind: AuthorityType, authority: Option<Pubkey>) {
    var a, m := AccountAt(s, k), MintAt(s, k);
    match kind
    case AccountOwner =>
      && authority.Some?
      && var reset := a.(owner := authority.value, delegate := None, delegatedAmount := 0);
      Becomes(s, t, k, if a.isNative.Some? then reset.(closeAuthority := None) else reset)
    case CloseAccounts => Becomes(s, t, k, a.(closeAuthority := authority))
    case MintTokens => MintBecomes(s, t, k, m.(mintAuthority := authority))
    case FreezeAccounts => MintBecomes(s, t, k, m.(freezeAuthority := authority))
  }

  /** An opened account is empty, unless it is native: then its balance is what the lamports
      exceed the rent-exempt reserve by. */
  ghost predicate OpenEffect(s: Store, t: Store, k: Pubkey, mint: Pubkey, owner: Pubkey, rent: Option<Rent>) {
    var a, b := AccountAt(s, k), AccountAt(t, k);
    && rent.Some? && Confined(s, t, {k}) && AccountStays(s, t, k, 0)
    && b == Account(mint, owner, b.amount, None, Initialized, b.isNative, 0, a.closeAuthority)
    && (if mint == NATIVE_MINT then
          var reserve := rent.value.minimumBalance(ACCOUNT_LEN);
          b.isNative == Some(reserve) && b.amount == At(s, k).lamports - reserve
        else
          b.isNative == None && b.amount == 0)
  }

  /** The keys are those listed after the first `fixed` accounts; the rest of the key array stays. */
  ghost predicate MultisigEffect(s: Store, t: Store, metas: seq<Meta>, fixed: nat, m: u8)
    requires 1 <= fixed <= |metas|
  {
    var k, n := metas[0].key, |metas| - fixed;
    var was, now := MultisigAt(s, k), MultisigAt(t, k);
    && Confined(s, t, {k})
    && At(t, k).owner == At(s, k).owner && At(t, k).lamports == At(s, k).lamports && At(t, k).data.MultisigData?
    && n <= MAX_SIGNERS && now.m == m && now.n == n && now.isInitialized
    && forall j :: 0 <= j < MAX_SIGNERS ==> now.signers[j] == if j < n then metas[fixed + j].key else was.signers[j]
  }

  ghost predicate CloseEffect(s: Store, t: Store, source: Pubkey, dest: Pubkey) {
    && source != dest && Confined(s, t, {source, dest})
    && At(t, source) == Cell(At(s, source).owner, 0, AccountData(ZERO_ACCOUNT))
    && At(t, dest).owner == At(s, dest).owner && At(t, dest).data == At(s, dest).data
    && At(t, dest).lamports == At(s, dest).lamports + At(s, source).lamports
  }

  ghost predicate SyncEffect(s: Store, t: Store, k: Pubkey) {
    var a, b := AccountAt(s, k), AccountAt(t, k);
    && Confined(s, t, {k}) && AccountStays(s, t, k, 0) && b == a.(amount := b.amount)
    && a.isNative.Some? && b.amount + a.isNative.value == At(s, k).lamports
  }

  /** The whole effect of a successful instruction. */
  ghost predicate Effect(s: Store, sys: Sysvars, metas: seq<Meta>, i: Instruction, t: Store) {
    && |metas| >= AccountsNeeded(i)
    && var k, a, rent := metas[0].key, AccountAt(s, metas[0].key), RentFor(sys, metas, i);
    match i
    case Transfer(amount) => TransferEffect(s, t, k, metas[1].key, amount, metas[2].key)
    case TransferChecked(amount, _) => TransferEffect(s, t, k, metas[2].key, amount, metas[3].key)
    case MintTo(amount) => IssueEffect(s, t, k, metas[1].key, amount)
    case MintToChecked(amount, _) => IssueEffect(s, t, k, metas[1].key, amount)
    case Burn(amount) => DestroyEffect(s, t, k, metas[1].key, amount, metas[2].key)
    case BurnChecked(amount, _) => DestroyEffect(s, t, k, metas[1].key, amount, metas[2].key)
    case Approve(amount) => Becomes(s, t, k, a.(delegate := Some(metas[1].key), delegatedAmount := amount))
    case ApproveChecked(amount, _) => Becomes(s, t, k, a.(delegate := Some(metas[2].key), delegatedAmount := amount))
    case Revoke => Becomes(s, t, k, a.(delegate := None, delegatedAmount := 0))
    case SetAuthority(kind, authority) => AuthorityEffect(s, t, k, kind, authority)
    case CloseAccount => CloseEffect(s, t, k, metas[1].key)
    case FreezeAccount => Becomes(s, t, k, a.(state := Frozen))
    case ThawAccount => Becomes(s, t, k, a.(state := Initialized))
    case SyncNative => SyncEffect(s, t, k)
    case InitializeMint(d, m, f) => MintBecomes(s, t, k, Mint(Some(m), MintAt(s, k).supply, d, true, f))
    case InitializeMint2(d, m, f) => MintBecomes(s, t, k, Mint(Some(m), MintAt(s, k).supply, d, true, f))
    case InitializeMultisig(m) => MultisigEffect(s, t, metas, 2, m)
    case InitializeMultisig2(m) => MultisigEffect(s, t, metas, 1, m)
    case InitializeAccount => OpenEffect(s, t, k, metas[1].key, metas[2].key, rent)
    case InitializeAccount2(owner) => OpenEffect(s, t, k, metas[1].key, owner, rent)
    case InitializeAccount3(owner) => OpenEffect(s, t, k, metas[1].key, owner, rent)
  }
}
