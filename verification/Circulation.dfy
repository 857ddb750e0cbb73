/** The ledger does get somewhere: a run that creates a mint, opens two accounts, mints
    into one of them and approves a delegate. */
module Circulation {
  import opened Types
  import opened Ledger
  import opened Authority
  import opened Rules
  import opened Steps

  const MINT: Pubkey := 1
  const HOLDER: Pubkey := 2
  const AUTHORITY: Pubkey := 3
  const OWNER: Pubkey := 4
  const OTHER: Pubkey := 5
  const LOOKALIKE: Pubkey := 6
  const FOREIGN_PROGRAM: Pubkey := 7
  const FREEZER: Pubkey := 9

  const OPEN_ACCOUNT := Account(MINT, OWNER, 0, None, Initialized, None, 0, None)
  const OPEN_MINT := Mint(Some(AUTHORITY), 0, 9, true, Some(FREEZER))

  const ISSUERS := [Meta(MINT, false), Meta(HOLDER, false), Meta(AUTHORITY, true)]

  /** A mint and two accounts of the program, and one of another program whose bytes look
      like an account of the mint. */
  function Accounts(mint: Mint, account: Account, other: Account): Store {
    map[MINT := Cell(TOKEN_PROGRAM, 10, MintData(mint)),
        HOLDER := Cell(TOKEN_PROGRAM, 10, AccountData(account)),
        OTHER := Cell(TOKEN_PROGRAM, 10, AccountData(other)),
        LOOKALIKE := Cell(FOREIGN_PROGRAM, 10, AccountData(OPEN_ACCOUNT))]
  }

  /** The whole supply is in one account, which may have a delegate. */
  function Circulating(supply: u64, delegate: Option<Pubkey>, allowance: u64): Store {
    Accounts(OPEN_MINT.(supply := supply),
             OPEN_ACCOUNT.(amount := supply, delegate := delegate, delegatedAmount := allowance),
             OPEN_ACCOUNT)
  }

  ghost function Clock(): Sysvars {
    Sysvars(None, Some(Rent((n: nat) => 1)))
  }

  lemma StartIsReachable()
    ensures Reachable(Accounts(ZERO_MINT, ZERO_ACCOUNT, ZERO_ACCOUNT))
  {
    var none: Store := map[];
    var s := Accounts(ZERO_MINT, ZERO_ACCOUNT, ZERO_ACCOUNT);
    var half := none[MINT := s[MINT]][HOLDER := s[HOLDER]];
    TotalUpdateTwo(Lamports, none, MINT, s[MINT], HOLDER, s[HOLDER]);
    TotalUpdateTwo(Lamports, half, OTHER, s[OTHER], LOOKALIKE, s[LOOKALIKE]);
    assert s == half[OTHER := s[OTHER]][LOOKALIKE := s[LOOKALIKE]];
    assert Total(Lamports, none) == 0;
    var states, actions: seq<Action> := [s], [];
    assert IsRun(states, actions) && states[|actions|] == s;
  }

  // One step of the run each

  lemma OwnedChangesAreAccepted(m: Mint, a: Account, b: Account, n: Mint, c: Account, d: Account)
    ensures Accepts(Accounts(m, a, b), Accounts(n, c, d))
  {
  }

  lemma Take(m: Mint, a: Account, b: Account, metas: seq<Meta>, i: Instruction, e: Event,
             n: Mint, c: Account, d: Account)
    requires Reachable(Accounts(m, a, b)) && Decide(Accounts(m, a, b), Clock(), metas, i) == Ok(e)
    requires Apply(Accounts(m, a, b), e) == Accounts(n, c, d)
    ensures Reachable(Accounts(n, c, d))
  {
    hide Reachable, Decide, Apply, Accounts, Accepts, Execute, Clock;
    OwnedChangesAreAccepted(m, a, b, n, c, d);
    DecidedCommits(Accounts(m, a, b), Clock(), metas, i, e);
    StepIsReachable(Accounts(m, a, b), Invoke(Clock(), metas, i), Accounts(n, c, d));
  }

  lemma Create()
    ensures Reachable(Accounts(OPEN_MINT, ZERO_ACCOUNT, ZERO_ACCOUNT))
  {
    hide Reachable;
    StartIsReachable();
    var s, e := Accounts(ZERO_MINT, ZERO_ACCOUNT, ZERO_ACCOUNT), MintCreated(MINT, 9, AUTHORITY, Some(FREEZER));
    assert Apply(s, e) == Accounts(OPEN_MINT, ZERO_ACCOUNT, ZERO_ACCOUNT);
    Take(ZERO_MINT, ZERO_ACCOUNT, ZERO_ACCOUNT, [Meta(MINT, false)], InitializeMint2(9, AUTHORITY, Some(FREEZER)), e,
         OPEN_MINT, ZERO_ACCOUNT, ZERO_ACCOUNT);
  }

  lemma OpenFirst()
    ensures Reachable(Accounts(OPEN_MINT, OPEN_ACCOUNT, ZERO_ACCOUNT))
  {
    hide Reachable;
    Create();
    var s, e := Accounts(OPEN_MINT, ZERO_ACCOUNT, ZERO_ACCOUNT), AccountOpened(HOLDER, MINT, OWNER, None);
    assert Apply(s, e) == Accounts(OPEN_MINT, OPEN_ACCOUNT, ZERO_ACCOUNT);
    Take(OPEN_MINT, ZERO_ACCOUNT, ZERO_ACCOUNT, [Meta(HOLDER, false), Meta(MINT, false)], InitializeAccount3(OWNER), e,
         OPEN_MINT, OPEN_ACCOUNT, ZERO_ACCOUNT);
  }

  lemma OpenSecond()
    ensures Reachable(Accounts(OPEN_MINT, OPEN_ACCOUNT, OPEN_ACCOUNT))
  {
    hide Reachable;
    OpenFirst();
    var s, e := Accounts(OPEN_MINT, OPEN_ACCOUNT, ZERO_ACCOUNT), AccountOpened(OTHER, MINT, OWNER, None);
    assert Apply(s, e) == Accounts(OPEN_MINT, OPEN_ACCOUNT, OPEN_ACCOUNT);
    Take(OPEN_MINT, OPEN_ACCOUNT, ZERO_ACCOUNT, [Meta(OTHER, false), Meta(MINT, false)], InitializeAccount3(OWNER), e,
         OPEN_MINT, OPEN_ACCOUNT, OPEN_ACCOUNT);
  }

  lemma IssueIsDecided(amount: u64)
    ensures DecideMintTo(Accounts(OPEN_MINT, OPEN_ACCOUNT, OPEN_ACCOUNT), ISSUERS, amount, None)
         == Ok(Minted(MINT, HOLDER, amount))
  {
    assert OwnerOutcome(Accounts(OPEN_MINT, OPEN_ACCOUNT, OPEN_ACCOUNT), AUTHORITY, ISSUERS[2], ISSUERS[3..]).Ok?;
  }

  lemma IssueIsApplied(amount: u64)
    ensures Ready(Accounts(OPEN_MINT, OPEN_ACCOUNT, OPEN_ACCOUNT), Minted(MINT, HOLDER, amount))
    ensures Apply(Accounts(OPEN_MINT, OPEN_ACCOUNT, OPEN_ACCOUNT), Minted(MINT, HOLDER, amount))
         == Circulating(amount, None, 0)
  {
  }

  /** Every supply is reachable, with all of it in one account. */
  lemma EverySupplyIsReachable(amount: u64)
    ensures Reachable(Circulating(amount, None, 0))
  {
    hide Reachable, DecideMintTo, Apply;
    OpenSecond();
    IssueIsDecided(amount);
    IssueIsApplied(amount);
    Take(OPEN_MINT, OPEN_ACCOUNT, OPEN_ACCOUNT, ISSUERS, MintTo(amount), Minted(MINT, HOLDER, amount),
         OPEN_MINT.(supply := amount), OPEN_ACCOUNT.(amount := amount), OPEN_ACCOUNT);
  }

  function Approvers(delegate: Pubkey): seq<Meta> {
    [Meta(HOLDER, false), Meta(delegate, false), Meta(OWNER, true)]
  }

  lemma ApprovalIsDecided(amount: u64, delegate: Pubkey, allowance: u64)
    ensures DecideApprove(Circulating(amount, None, 0), Approvers(delegate), allowance, None)
         == Ok(Approved(HOLDER, delegate, allowance))
  {
    assert OwnerOutcome(Circulating(amount, None, 0), OWNER, Approvers(delegate)[2], Approvers(delegate)[3..]).Ok?;
  }

  lemma ApprovalIsApplied(amount: u64, delegate: Pubkey, allowance: u64)
    ensures Ready(Circulating(amount, None, 0), Approved(HOLDER, delegate, allowance))
    ensures Apply(Circulating(amount, None, 0), Approved(HOLDER, delegate, allowance))
         == Circulating(amount, Some(delegate), allowance)
  {
  }

  /** So is every approval of that account's owner, whoever the delegate. */
  lemma EveryApprovalIsReachable(amount: u64, delegate: Pubkey, allowance: u64)
    ensures Reachable(Circulating(amount, Some(delegate), allowance))
  {
    hide Reachable, DecideApprove, Apply;
    EverySupplyIsReachable(amount);
    ApprovalIsDecided(amount, delegate, allowance);
    ApprovalIsApplied(amount, delegate, allowance);
    var m, a := OPEN_MINT.(supply := amount), OPEN_ACCOUNT.(amount := amount);
    Take(m, a, OPEN_ACCOUNT, Approvers(delegate), Approve(allowance), Approved(HOLDER, delegate, allowance),
         m, a.(delegate := Some(delegate), delegatedAmount := allowance), OPEN_ACCOUNT);
  }

  const FREEZERS := [Meta(HOLDER, false), Meta(MINT, false), Meta(FREEZER, true)]

  /** The same with the account frozen. */
  function Stopped(supply: u64): Store {
    Accounts(OPEN_MINT.(supply := supply), OPEN_ACCOUNT.(amount := supply, state := Frozen), OPEN_ACCOUNT)
  }

  lemma FreezeIsDecided(amount: u64)
    ensures DecideToggleFreeze(Circulating(amount, None, 0), FREEZERS, true) == Ok(FreezeSet(HOLDER, MINT, true))
  {
    assert OwnerOutcome(Circulating(amount, None, 0), FREEZER, FREEZERS[2], FREEZERS[3..]).Ok?;
  }

  lemma FreezeIsApplied(amount: u64)
    ensures Ready(Circulating(amount, None, 0), FreezeSet(HOLDER, MINT, true))
    ensures Apply(Circulating(amount, None, 0), FreezeSet(HOLDER, MINT, true)) == Stopped(amount)
  {
  }

  /** Frozen accounts with any balance are reachable. */
  lemma FrozenIsReachable(amount: u64)
    ensures Reachable(Stopped(amount))
    ensures LiveAccount(Stopped(amount), HOLDER) && AccountAt(Stopped(amount), HOLDER).state.Frozen?
    ensures AccountAt(Stopped(amount), HOLDER).amount == amount
  {
    hide Reachable, DecideToggleFreeze, Apply;
    EverySupplyIsReachable(amount);
    FreezeIsDecided(amount);
    FreezeIsApplied(amount);
    var m, a := OPEN_MINT.(supply := amount), OPEN_ACCOUNT.(amount := amount);
    Take(m, a, OPEN_ACCOUNT, FREEZERS, FreezeAccount, FreezeSet(HOLDER, MINT, true),
         m, a.(state := Frozen), OPEN_ACCOUNT);
  }
}
