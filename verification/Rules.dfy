/** The token program as a transition system. Each instruction is decided in one go,
    yielding an error or an event, and the event then determines the new store. */
module Rules {
  import opened Types
  import opened Ledger
  import opened Authority

  /** What a successful instruction did. */
  datatype Event =
    | MintCreated(mint: Pubkey, decimals: u8, mintAuthority: Pubkey, freezeAuthority: Option<Pubkey>)
    | AccountOpened(account: Pubkey, mint: Pubkey, owner: Pubkey, reserve: Option<u64>)
    | MultisigCreated(multisig: Pubkey, m: u8, signers: seq<Pubkey>)
    | Transferred(source: Pubkey, dest: Pubkey, amount: u64, byDelegate: bool)
    | TransferredToSelf(source: Pubkey, amount: u64, byDelegate: bool)
    | Approved(source: Pubkey, delegate: Pubkey, amount: u64)
    | Revoked(source: Pubkey)
    | OwnerChanged(account: Pubkey, owner: Pubkey)
    | CloseAuthorityChanged(account: Pubkey, authority: Option<Pubkey>)
    | MintAuthorityChanged(mint: Pubkey, authority: Option<Pubkey>)
    | FreezeAuthorityChanged(mint: Pubkey, authority: Option<Pubkey>)
    | Minted(mint: Pubkey, dest: Pubkey, amount: u64)
    | Burned(source: Pubkey, mint: Pubkey, amount: u64, byDelegate: bool)
    | Closed(source: Pubkey, dest: Pubkey)
    | FreezeSet(account: Pubkey, mint: Pubkey, frozen: bool)
    | Synced(account: Pubkey)

  // Effects

  predicate Holds(s: Store, k: Pubkey) {
    At(s, k).data.AccountData? && !At(s, k).data.account.state.Uninitialized?
  }

  predicate Usable(s: Store, k: Pubkey) {
    Holds(s, k) && !AccountAt(s, k).state.Frozen?
  }

  predicate Mints(s: Store, k: Pubkey) {
    At(s, k).data.MintData? && MintAt(s, k).isInitialized
  }

  /** The source side of a transfer or burn. */
  predicate CanSpend(s: Store, source: Pubkey, amount: u64, byDelegate: bool) {
    && Usable(s, source)
    && amount <= AccountAt(s, source).amount
    && (byDelegate ==> AccountAt(s, source).delegate.Some? && amount <= AccountAt(s, source).delegatedAmount)
  }

  /** The state an event needs to make sense, whoever asked for it. */
  predicate Ready(s: Store, e: Event) {
    match e
    case MintCreated(mint, _, _, _) =>
      && At(s, mint).data.MintData? && !MintAt(s, mint).isInitialized
      && 0 < At(s, mint).lamports
    case AccountOpened(account, mint, _, reserve) =>
      && At(s, account).data.AccountData? && AccountAt(s, account).state.Uninitialized?
      && 0 < At(s, account).lamports
      && (reserve.Some? <==> mint == NATIVE_MINT)
      && (reserve.Some? ==> 0 < reserve.value <= At(s, account).lamports)
      && (mint != NATIVE_MINT ==> LiveMint(s, mint))
    case MultisigCreated(multisig, m, signers) =>
      && At(s, multisig).data.MultisigData? && !MultisigAt(s, multisig).isInitialized
      && 0 < At(s, multisig).lamports
      && MIN_SIGNERS <= m <= MAX_SIGNERS
      && MIN_SIGNERS <= |signers| <= MAX_SIGNERS
    case Transferred(source, dest, amount, byDelegate) =>
      && source != dest
      && CanSpend(s, source, amount, byDelegate)
      && Usable(s, dest)
      && AccountAt(s, source).mint == AccountAt(s, dest).mint
      && AccountAt(s, dest).amount + amount <= U64_MAX
      && (AccountAt(s, source).isNative.Some? ==>
            amount <= At(s, source).lamports && At(s, dest).lamports + amount <= U64_MAX)
    case TransferredToSelf(source, amount, byDelegate) =>
      CanSpend(s, source, amount, byDelegate)
    case Approved(source, _, _) => Usable(s, source)
    case Revoked(source) => Usable(s, source)
    case OwnerChanged(account, _) => Usable(s, account)
    case CloseAuthorityChanged(account, _) => Usable(s, account)
    case MintAuthorityChanged(mint, _) => Mints(s, mint) && MintAt(s, mint).mintAuthority.Some?
    case FreezeAuthorityChanged(mint, _) => Mints(s, mint) && MintAt(s, mint).freezeAuthority.Some?
    case Minted(mint, dest, amount) =>
      && Mints(s, mint) && MintAt(s, mint).mintAuthority.Some?
      && Usable(s, dest) && AccountAt(s, dest).isNative.None? && AccountAt(s, dest).mint == mint
      && AccountAt(s, dest).amount + amount <= U64_MAX
      && MintAt(s, mint).supply + amount <= U64_MAX
    case Burned(source, mint, amount, byDelegate) =>
      && CanSpend(s, source, amount, byDelegate)
      && Mints(s, mint)
      && AccountAt(s, source).isNative.None? && AccountAt(s, source).mint == mint
      && amount <= MintAt(s, mint).supply
    case Closed(source, dest) =>
      && source != dest
      && Holds(s, source)
      && (AccountAt(s, source).isNative.None? ==> AccountAt(s, source).amount == 0)
      && At(s, dest).lamports + At(s, source).lamports <= U64_MAX
    case FreezeSet(account, mint, frozen) =>
      && Holds(s, account) && AccountAt(s, account).state.Frozen? == !frozen
      && AccountAt(s, account).isNative.None? && AccountAt(s, account).mint == mint
      && Mints(s, mint) && MintAt(s, mint).freezeAuthority.Some?
    case Synced(account) =>
      && Owned(s, account) && Holds(s, account)
      && AccountAt(s, account).isNative.Some?
      && AccountAt(s, account).isNative.value + AccountAt(s, account).amount <= At(s, account).lamports
  }

  /** The accounts whose ownership is looked at explicitly, because the runtime would not
      object to what the event writes: movements of nothing, or from an account to itself. */
  predicate OwnerChecked(s: Store, e: Event) {
    match e
    case Transferred(source, dest, amount, _) => amount == 0 ==> Owned(s, source) && Owned(s, dest)
    case TransferredToSelf(source, _, _) => Owned(s, source)
    case Minted(mint, dest, amount) => amount == 0 ==> Owned(s, mint) && Owned(s, dest)
    case Burned(source, mint, amount, _) => amount == 0 ==> Owned(s, source) && Owned(s, mint)
    case _ => true
  }

  predicate Enabled(s: Store, e: Event) {
    Ready(s, e) && OwnerChecked(s, e)
  }

  /** The account after `amount` left it; a delegate's allowance shrinks with it and
      the delegate is dropped when nothing is left. */
  function Debited(a: Account, amount: u64, byDelegate: bool): Account
    requires amount <= a.amount
    requires byDelegate ==> amount <= a.delegatedAmount
  {
    var b := a.(amount := a.amount - amount);
    if !byDelegate then b else
    b.(delegatedAmount := a.delegatedAmount - amount,
       delegate := if a.delegatedAmount == amount then None else a.delegate)
  }

  function WithMultisigKeys(ms: Multisig, m: u8, keys: seq<Pubkey>): Multisig
    requires |keys| <= MAX_SIGNERS
  {
    Multisig(m, |keys|, true, keys + ms.signers[|keys|..])
  }

  function Apply(s: Store, e: Event): Store
    requires Ready(s, e)
  {
    match e
    case MintCreated(mint, decimals, mintAuthority, freezeAuthority) =>
      SetData(s, mint, MintData(Mint(Some(mintAuthority), MintAt(s, mint).supply, decimals, true, freezeAuthority)))
    case AccountOpened(account, mint, owner, reserve) =>
      var amount: u64 := if reserve.Some? then At(s, account).lamports - reserve.value else 0;
      var closer := AccountAt(s, account).closeAuthority;
      SetData(s, account, AccountData(Account(mint, owner, amount, None, Initialized, reserve, 0, closer)))
    case MultisigCreated(multisig, m, signers) =>
      SetData(s, multisig, MultisigData(WithMultisigKeys(MultisigAt(s, multisig), m, signers)))
    case Transferred(source, dest, amount, byDelegate) =>
      var a, b := AccountAt(s, source), AccountAt(s, dest);
      var moved: u64 := if a.isNative.Some? then amount else 0;
      s[source := At(s, source).(lamports := At(s, source).lamports - moved,
                                 data := AccountData(Debited(a, amount, byDelegate)))]
       [dest := At(s, dest).(lamports := At(s, dest).lamports + moved,
                             data := AccountData(b.(amount := b.amount + amount)))]
    case TransferredToSelf(_, _, _) => s
    case Approved(source, delegate, amount) =>
      SetData(s, source, AccountData(AccountAt(s, source).(delegate := Some(delegate), delegatedAmount := amount)))
    case Revoked(source) =>
      SetData(s, source, AccountData(AccountAt(s, source).(delegate := None, delegatedAmount := 0)))
    case OwnerChanged(account, owner) =>
      var a := AccountAt(s, account);
      SetData(s, account, AccountData(a.(owner := owner, delegate := None, delegatedAmount := 0,
                                         closeAuthority := if a.isNative.Some? then None else a.closeAuthority)))
    case CloseAuthorityChanged(account, authority) =>
      SetData(s, account, AccountData(AccountAt(s, account).(closeAuthority := authority)))
    case MintAuthorityChanged(mint, authority) =>
      SetData(s, mint, MintData(MintAt(s, mint).(mintAuthority := authority)))
    case FreezeAuthorityChanged(mint, authority) =>
      SetData(s, mint, MintData(MintAt(s, mint).(freezeAuthority := authority)))
    case Minted(mint, dest, amount) =>
      var t := SetData(s, dest, AccountData(AccountAt(s, dest).(amount := AccountAt(s, dest).amount + amount)));
      SetData(t, mint, MintData(MintAt(s, mint).(supply := MintAt(s, mint).supply + amount)))
    case Burned(source, mint, amount, byDelegate) =>
      var t := SetData(s, source, AccountData(Debited(AccountAt(s, source), amount, byDelegate)));
      SetData(t, mint, MintData(MintAt(s, mint).(supply := MintAt(s, mint).supply - amount)))
    case Closed(source, dest) =>
      s[dest := At(s, dest).(lamports := At(s, dest).lamports + At(s, source).lamports)]
       [source := At(s, source).(lamports := 0, data := AccountData(ZERO_ACCOUNT))]
    case FreezeSet(account, _, frozen) =>
      SetData(s, account, AccountData(AccountAt(s, account).(state := if frozen then Frozen else Initialized)))
    case Synced(account) =>
      var a := AccountAt(s, account);
      SetData(s, account, AccountData(a.(amount := At(s, account).lamports - a.isNative.value)))
  }

  /** The approval an event needs. */
  ghost predicate Approves(s: Store, metas: seq<Meta>, e: Event) {
    match e
    case MintCreated(_, _, _, _) => true
    case AccountOpened(_, _, _, _) => true
    case MultisigCreated(_, _, _) => true
    case Synced(_) => true
    case Transferred(source, _, _, byDelegate) => SpendApproved(s, metas, source, byDelegate)
    case TransferredToSelf(source, _, byDelegate) => SpendApproved(s, metas, source, byDelegate)
    case Burned(source, _, _, byDelegate) => SpendApproved(s, metas, source, byDelegate)
    case Approved(source, _, _) => SignedBy(s, metas, AccountAt(s, source).owner)
    case Revoked(source) => SignedBy(s, metas, AccountAt(s, source).owner)
    case OwnerChanged(account, _) => SignedBy(s, metas, AccountAt(s, account).owner)
    case CloseAuthorityChanged(account, _) => SignedBy(s, metas, AccountAt(s, account).Closer())
    case Closed(source, _) => SignedBy(s, metas, AccountAt(s, source).Closer())
    case MintAuthorityChanged(mint, _) => KeySigned(s, metas, MintAt(s, mint).mintAuthority)
    case Minted(mint, _, _) => KeySigned(s, metas, MintAt(s, mint).mintAuthority)
    case FreezeAuthorityChanged(mint, _) => KeySigned(s, metas, MintAt(s, mint).freezeAuthority)
    case FreezeSet(_, mint, _) => KeySigned(s, metas, MintAt(s, mint).freezeAuthority)
  }

  ghost predicate KeySigned(s: Store, metas: seq<Meta>, key: Option<Pubkey>) {
    key.Some? && SignedBy(s, metas, key.value)
  }

  ghost predicate SpendApproved(s: Store, metas: seq<Meta>, source: Pubkey, byDelegate: bool) {
    var a := AccountAt(s, source);
    if byDelegate then KeySigned(s, metas, a.delegate) else SignedBy(s, metas, a.owner)
  }

  // Decisions

  function CheckOwned(s: Store, k: Pubkey): Result<()> {
    Need(Owned(s, k), IncorrectProgramId)
  }

  /** The optional mint check of the "checked" instructions that also name the mint. */
  function CheckMint(s: Store, key: Pubkey, mint: Pubkey, expectedDecimals: Option<u8>): (r: Result<()>)
    ensures r != Err(Overflow)
  {
    if expectedDecimals.None? then Ok(()) else
    var _ :- Need(key == mint, MintMismatch);
    var m :- UnpackMint(At(s, key).data);
    Need(expectedDecimals.value == m.decimals, MintDecimalsMismatch)
  }

  /** Where the rent schedule is read: from the account at position `i`, or by a syscall. */
  function GetRent(sys: Sysvars, metas: seq<Meta>, i: nat, fromAccount: bool): Result<Rent> {
    if fromAccount then
      if i >= |metas| then Err(NotEnoughAccountKeys)
      else if metas[i].key != RENT_SYSVAR || sys.rentAccount.None? then Err(InvalidArgument)
      else Ok(sys.rentAccount.value)
    else if sys.rentSyscall.None? then Err(UnsupportedSysvar)
    else Ok(sys.rentSyscall.value)
  }

  function DecideInitializeMint(s: Store, sys: Sysvars, metas: seq<Meta>, decimals: u8, mintAuthority: Pubkey,
                                freezeAuthority: Option<Pubkey>, rentAccount: bool): (r: Result<Event>)
    ensures r.Ok? ==> Enabled(s, r.value)
  {
    var _ :- Need(|metas| >= 1, NotEnoughAccountKeys);
    var mint := metas[0].key;
    var rent :- GetRent(sys, metas, 1, rentAccount);
    var c := At(s, mint);
    var _ :- Need(c.data.MintData?, InvalidAccountData);
    var _ :- Need(!c.data.mint.isInitialized, AlreadyInUse);
    var _ :- Need(c.lamports >= rent.minimumBalance(MINT_LEN), NotRentExempt);
    Ok(MintCreated(mint, decimals, mintAuthority, freezeAuthority))
  }

  function DecideInitializeAccount(s: Store, sys: Sysvars, metas: seq<Meta>, owner: Option<Pubkey>, rentAccount: bool)
    : (r: Result<Event>)
    ensures r.Ok? ==> Enabled(s, r.value)
  {
    var fixed := if owner.Some? then 2 else 3;
    var _ :- Need(|metas| >= fixed, NotEnoughAccountKeys);
    var account, mint := metas[0].key, metas[1].key;
    var rent :- GetRent(sys, metas, fixed, rentAccount);
    var c := At(s, account);
    var _ :- Need(c.data.AccountData?, InvalidAccountData);
    var _ :- Need(c.data.account.state.Uninitialized?, AlreadyInUse);
    var least := rent.minimumBalance(ACCOUNT_LEN);
    var _ :- Need(c.lamports >= least, NotRentExempt);
    var native := mint == NATIVE_MINT;
    var _ :- if native then Ok(()) else CheckOwned(s, mint);
    var _ :- if native || UnpackMint(At(s, mint).data).Ok? then Ok(()) else Err(InvalidMint);
    var holder := if owner.Some? then owner.value else metas[2].key;
    Ok(AccountOpened(account, mint, holder, if native then Some(least) else None))
  }

  function IsValidSignerIndex(index: nat): bool {
    MIN_SIGNERS <= index <= MAX_SIGNERS
  }

  /** The keys listed in a stretch of the account list. */
  function Keys(metas: seq<Meta>): (keys: seq<Pubkey>)
    ensures |keys| == |metas|
    ensures forall i :: 0 <= i < |metas| ==> keys[i] == metas[i].key
  {
    if metas == [] then [] else [metas[0].key] + Keys(metas[1..])
  }

  /** The number of keys is cut to eight bits before it is checked, so a list whose
      length only looks valid runs past the key array. */
  function DecideInitializeMultisig(s: Store, sys: Sysvars, metas: seq<Meta>, m: u8, rentAccount: bool): (r: Result<Event>)
    ensures r.Ok? ==> Enabled(s, r.value)
  {
    var fixed := if rentAccount then 2 else 1;
    var _ :- Need(|metas| >= 1, NotEnoughAccountKeys);
    var multisig := metas[0].key;
    var rent :- GetRent(sys, metas, 1, rentAccount);
    var c := At(s, multisig);
    var _ :- Need(c.data.MultisigData?, InvalidAccountData);
    var _ :- Need(!c.data.multisig.isInitialized, AlreadyInUse);
    var _ :- Need(c.lamports >= rent.minimumBalance(MULTISIG_LEN), NotRentExempt);
    var keys := Keys(metas[fixed..]);
    var _ :- Need(IsValidSignerIndex(|keys| % 0x100), InvalidNumberOfProvidedSigners);
    var _ :- Need(IsValidSignerIndex(m), InvalidNumberOfRequiredSigners);
    var _ :- Need(|keys| <= MAX_SIGNERS, Panic);
    Ok(MultisigCreated(multisig, m, keys))
  }

  /** The approval for spending from an account: its delegate's if the delegate is the one
      presented, else its owner's. Yields whether the delegate acts. */
  ghost function DecideSpend(s: Store, a: Account, amount: u64, authority: Meta, signers: seq<Meta>): (r: Result<bool>)
    ensures r.Ok? ==> r.value == (a.delegate == Some(authority.key)) && (r.value ==> amount <= a.delegatedAmount)
    ensures r.Ok? ==> OwnerOutcome(s, if r.value then authority.key else a.owner, authority, signers).Ok?
    ensures r != Err(Overflow)
  {
    if a.delegate == Some(authority.key) then
      var _ :- OwnerOutcome(s, authority.key, authority, signers);
      var _ :- Need(amount <= a.delegatedAmount, InsufficientFunds);
      Ok(true)
    else
      var _ :- OwnerOutcome(s, a.owner, authority, signers);
      Ok(false)
  }

  /** What a transfer moves fits 64 bits on both sides. */
  predicate Fits(s: Store, source: Pubkey, dest: Pubkey, amount: u64) {
    && AccountAt(s, dest).amount + amount <= U64_MAX
    && (AccountAt(s, source).isNative.Some? ==>
          amount <= At(s, source).lamports && At(s, dest).lamports + amount <= U64_MAX)
  }

  /** The last part of a transfer, once it is approved: a transfer to itself stops here. */
  function DecideMove(s: Store, source: Pubkey, dest: Pubkey, amount: u64, byDelegate: bool): (r: Result<Event>)
    requires CanSpend(s, source, amount, byDelegate) && Usable(s, dest)
    requires AccountAt(s, source).mint == AccountAt(s, dest).mint
    ensures r.Ok? ==> Enabled(s, r.value)
    ensures r == Err(IncorrectProgramId) <==> (source == dest || amount == 0) && !(Owned(s, source) && Owned(s, dest))
    ensures r == Err(Overflow) <==> source != dest && !Fits(s, source, dest, amount)
    ensures r.Err? ==> r.error == IncorrectProgramId || r.error == Overflow
  {
    var _ :- if source == dest || amount == 0 then CheckOwned(s, source) else Ok(());
    var _ :- if source == dest || amount == 0 then CheckOwned(s, dest) else Ok(());
    if source == dest then Ok(TransferredToSelf(source, amount, byDelegate)) else
    var _ :- Need(AccountAt(s, dest).amount + amount <= U64_MAX, Overflow);
    var _ :- Need(AccountAt(s, source).isNative.Some? ==> amount <= At(s, source).lamports, Overflow);
    var _ :- Need(AccountAt(s, source).isNative.Some? ==> At(s, dest).lamports + amount <= U64_MAX, Overflow);
    Ok(Transferred(source, dest, amount, byDelegate))
  }

  ghost function DecideTransfer(s: Store, metas: seq<Meta>, amount: u64, expectedDecimals: Option<u8>): (r: Result<Event>)
    ensures r.Ok? ==> Enabled(s, r.value)
  {
    var d := if expectedDecimals.Some? then 1 else 0;
    var _ :- Need(|metas| >= 3 + d, NotEnoughAccountKeys);
    var source, dest, authority := metas[0].key, metas[1 + d].key, metas[2 + d];
    var a :- UnpackAccount(At(s, source).data);
    var b :- UnpackAccount(At(s, dest).data);
    var _ :- Need(!a.state.Frozen? && !b.state.Frozen?, AccountFrozen);
    var _ :- Need(amount <= a.amount, InsufficientFunds);
    var _ :- Need(a.mint == b.mint, MintMismatch);
    var _ :- CheckMint(s, metas[1].key, a.mint, expectedDecimals);
    var byDelegate :- DecideSpend(s, a, amount, authority, metas[3 + d..]);
    DecideMove(s, source, dest, amount, byDelegate)
  }

  ghost function DecideApprove(s: Store, metas: seq<Meta>, amount: u64, expectedDecimals: Option<u8>): (r: Result<Event>)
    ensures r.Ok? ==> Enabled(s, r.value) && Approves(s, metas, r.value)
  {
    var d := if expectedDecimals.Some? then 1 else 0;
    var _ :- Need(|metas| >= 3 + d, NotEnoughAccountKeys);
    var source, delegate := metas[0].key, metas[1 + d].key;
    var a :- UnpackAccount(At(s, source).data);
    var _ :- Need(!a.state.Frozen?, AccountFrozen);
    var _ :- CheckMint(s, metas[1].key, a.mint, expectedDecimals);
    var _ :- OwnerOutcome(s, a.owner, metas[2 + d], metas[3 + d..]);
    Ok(Approved(source, delegate, amount))
  }

  ghost function DecideRevoke(s: Store, metas: seq<Meta>): (r: Result<Event>)
    ensures r.Ok? ==> Enabled(s, r.value) && Approves(s, metas, r.value)
  {
    var _ :- Need(|metas| >= 1, NotEnoughAccountKeys);
    var source := metas[0].key;
    var a :- UnpackAccount(At(s, source).data);
    var _ :- Need(|metas| >= 2, NotEnoughAccountKeys);
    var _ :- Need(!a.state.Frozen?, AccountFrozen);
    var _ :- OwnerOutcome(s, a.owner, metas[1], metas[2..]);
    Ok(Revoked(source))
  }

  ghost function DecideSetAuthority(s: Store, metas: seq<Meta>, kind: AuthorityType, authority: Option<Pubkey>)
    : (r: Result<Event>)
    ensures r.Ok? ==> Enabled(s, r.value)
  {
    var _ :- Need(|metas| >= 2, NotEnoughAccountKeys);
    var k := metas[0].key;
    var d := At(s, k).data;
    if d.Len() == ACCOUNT_LEN then
      var a :- UnpackAccount(d);
      var _ :- Need(!a.state.Frozen?, AccountFrozen);
      match kind
      case AccountOwner =>
        var _ :- OwnerOutcome(s, a.owner, metas[1], metas[2..]);
        var _ :- Need(authority.Some?, InvalidInstruction);
        Ok(OwnerChanged(k, authority.value))
      case CloseAccounts =>
        var _ :- OwnerOutcome(s, a.Closer(), metas[1], metas[2..]);
        Ok(CloseAuthorityChanged(k, authority))
      case _ => Err(AuthorityTypeNotSupported)
    else if d.Len() == MINT_LEN then
      var m :- UnpackMint(d);
      match kind
      case MintTokens =>
        var _ :- Need(m.mintAuthority.Some?, FixedSupply);
        var _ :- OwnerOutcome(s, m.mintAuthority.value, metas[1], metas[2..]);
        Ok(MintAuthorityChanged(k, authority))
      case FreezeAccounts =>
        var _ :- Need(m.freezeAuthority.Some?, MintCannotFreeze);
        var _ :- OwnerOutcome(s, m.freezeAuthority.value, metas[1], metas[2..]);
        Ok(FreezeAuthorityChanged(k, authority))
      case _ => Err(AuthorityTypeNotSupported)
    else
      Err(InvalidArgument)
  }

  ghost function DecideMintTo(s: Store, metas: seq<Meta>, amount: u64, expectedDecimals: Option<u8>): (r: Result<Event>)
    ensures r.Ok? ==> Enabled(s, r.value) && Approves(s, metas, r.value)
  {
    var _ :- Need(|metas| >= 3, NotEnoughAccountKeys);
    var mint, dest := metas[0].key, metas[1].key;
    var b :- UnpackAccount(At(s, dest).data);
    var _ :- Need(!b.state.Frozen?, AccountFrozen);
    var _ :- Need(b.isNative.None?, NativeNotSupported);
    var _ :- Need(mint == b.mint, MintMismatch);
    var m :- UnpackMint(At(s, mint).data);
    var _ :- Need(expectedDecimals.Some? ==> expectedDecimals.value == m.decimals, MintDecimalsMismatch);
    var _ :- Need(m.mintAuthority.Some?, FixedSupply);
    var _ :- OwnerOutcome(s, m.mintAuthority.value, metas[2], metas[3..]);
    var _ :- if amount == 0 then CheckOwned(s, mint) else Ok(());
    var _ :- if amount == 0 then CheckOwned(s, dest) else Ok(());
    var _ :- Need(b.amount + amount <= U64_MAX, Overflow);
    var _ :- Need(m.supply + amount <= U64_MAX, Overflow);
    Ok(Minted(mint, dest, amount))
  }

  ghost function DecideBurn(s: Store, metas: seq<Meta>, amount: u64, expectedDecimals: Option<u8>): (r: Result<Event>)
    ensures r.Ok? ==> Enabled(s, r.value)
  {
    var _ :- Need(|metas| >= 3, NotEnoughAccountKeys);
    var source, mint := metas[0].key, metas[1].key;
    var a :- UnpackAccount(At(s, source).data);
    var m :- UnpackMint(At(s, mint).data);
    var _ :- Need(!a.state.Frozen?, AccountFrozen);
    var _ :- Need(a.isNative.None?, NativeNotSupported);
    var _ :- Need(amount <= a.amount, InsufficientFunds);
    var _ :- Need(mint == a.mint, MintMismatch);
    var _ :- Need(expectedDecimals.Some? ==> expectedDecimals.value == m.decimals, MintDecimalsMismatch);
    var byDelegate :- DecideSpend(s, a, amount, metas[2], metas[3..]);
    var _ :- if amount == 0 then CheckOwned(s, source) else Ok(());
    var _ :- if amount == 0 then CheckOwned(s, mint) else Ok(());
    var _ :- Need(amount <= m.supply, Overflow);
    Ok(Burned(source, mint, amount, byDelegate))
  }

  ghost function DecideCloseAccount(s: Store, metas: seq<Meta>): (r: Result<Event>)
    ensures r.Ok? ==> Enabled(s, r.value) && Approves(s, metas, r.value)
  {
    var _ :- Need(|metas| >= 3, NotEnoughAccountKeys);
    var source, dest := metas[0].key, metas[1].key;
    var _ :- Need(source != dest, InvalidAccountData);
    var a :- UnpackAccount(At(s, source).data);
    var _ :- Need(a.isNative.Some? || a.amount == 0, NonNativeHasBalance);
    var _ :- OwnerOutcome(s, a.Closer(), metas[2], metas[3..]);
    var _ :- Need(At(s, dest).lamports + At(s, source).lamports <= U64_MAX, Overflow);
    Ok(Closed(source, dest))
  }

  ghost function DecideToggleFreeze(s: Store, metas: seq<Meta>, freeze: bool): (r: Result<Event>)
    ensures r.Ok? ==> Enabled(s, r.value) && Approves(s, metas, r.value)
  {
    var _ :- Need(|metas| >= 3, NotEnoughAccountKeys);
    var account, mint := metas[0].key, metas[1].key;
    var a :- UnpackAccount(At(s, account).data);
    var _ :- Need(a.state.Frozen? == !freeze, InvalidState);
    var _ :- Need(a.isNative.None?, NativeNotSupported);
    var _ :- Need(mint == a.mint, MintMismatch);
    var m :- UnpackMint(At(s, mint).data);
    var _ :- Need(m.freezeAuthority.Some?, MintCannotFreeze);
    var _ :- OwnerOutcome(s, m.freezeAuthority.value, metas[2], metas[3..]);
    Ok(FreezeSet(account, mint, freeze))
  }

  function DecideSyncNative(s: Store, metas: seq<Meta>): (r: Result<Event>)
    ensures r.Ok? ==> Enabled(s, r.value)
  {
    var _ :- Need(|metas| >= 1, NotEnoughAccountKeys);
    var account := metas[0].key;
    var _ :- CheckOwned(s, account);
    var a :- UnpackAccount(At(s, account).data);
    var _ :- Need(a.isNative.Some?, NonNativeNotSupported);
    var _ :- Need(a.isNative.value <= At(s, account).lamports, Overflow);
    var _ :- Need(a.amount <= At(s, account).lamports - a.isNative.value, InvalidState);
    Ok(Synced(account))
  }

  ghost function Decide(s: Store, sys: Sysvars, metas: seq<Meta>, i: Instruction): (r: Result<Event>)
    ensures r.Ok? ==> Enabled(s, r.value)
  {
    match i
    case InitializeMint(d, m, f) => DecideInitializeMint(s, sys, metas, d, m, f, true)
    case InitializeMint2(d, m, f) => DecideInitializeMint(s, sys, metas, d, m, f, false)
    case InitializeAccount => DecideInitializeAccount(s, sys, metas, None, true)
    case InitializeAccount2(owner) => DecideInitializeAccount(s, sys, metas, Some(owner), true)
    case InitializeAccount3(owner) => DecideInitializeAccount(s, sys, metas, Some(owner), false)
    case InitializeMultisig(m) => DecideInitializeMultisig(s, sys, metas, m, true)
    case InitializeMultisig2(m) => DecideInitializeMultisig(s, sys, metas, m, false)
    case Transfer(amount) => DecideTransfer(s, metas, amount, None)
    case TransferChecked(amount, d) => DecideTransfer(s, metas, amount, Some(d))
    case Approve(amount) => DecideApprove(s, metas, amount, None)
    case ApproveChecked(amount, d) => DecideApprove(s, metas, amount, Some(d))
    case Revoke => DecideRevoke(s, metas)
    case SetAuthority(kind, authority) => DecideSetAuthority(s, metas, kind, authority)
    case MintTo(amount) => DecideMintTo(s, metas, amount, None)
    case MintToChecked(amount, d) => DecideMintTo(s, metas, amount, Some(d))
    case Burn(amount) => DecideBurn(s, metas, amount, None)
    case BurnChecked(amount, d) => DecideBurn(s, metas, amount, Some(d))
    case CloseAccount => DecideCloseAccount(s, metas)
    case FreezeAccount => DecideToggleFreeze(s, metas, true)
    case ThawAccount => DecideToggleFreeze(s, metas, false)
    case SyncNative => DecideSyncNative(s, metas)
  }

  // Every decision rests on the approval its event needs

  lemma TransferIsApproved(s: Store, metas: seq<Meta>, amount: u64, expectedDecimals: Option<u8>)
    requires DecideTransfer(s, metas, amount, expectedDecimals).Ok?
    ensures Approves(s, metas, DecideTransfer(s, metas, amount, expectedDecimals).value)
  {
  }

  lemma BurnIsApproved(s: Store, metas: seq<Meta>, amount: u64, expectedDecimals: Option<u8>)
    requires DecideBurn(s, metas, amount, expectedDecimals).Ok?
    ensures Approves(s, metas, DecideBurn(s, metas, amount, expectedDecimals).value)
  {
  }

  lemma SetAuthorityIsApproved(s: Store, metas: seq<Meta>, kind: AuthorityType, authority: Option<Pubkey>)
    requires DecideSetAuthority(s, metas, kind, authority).Ok?
    ensures Approves(s, metas, DecideSetAuthority(s, metas, kind, authority).value)
  {
  }

  lemma DecidedIsApproved(s: Store, sys: Sysvars, metas: seq<Meta>, i: Instruction)
    requires Decide(s, sys, metas, i).Ok?
    ensures Approves(s, metas, Decide(s, sys, metas, i).value)
  {
    match i
    case Transfer(amount) => TransferIsApproved(s, metas, amount, None);
    case TransferChecked(amount, d) => TransferIsApproved(s, metas, amount, Some(d));
    case Burn(amount) => BurnIsApproved(s, metas, amount, None);
    case BurnChecked(amount, d) => BurnIsApproved(s, metas, amount, Some(d));
    case SetAuthority(kind, authority) => SetAuthorityIsApproved(s, metas, kind, authority);
    case _ =>
  }
}
