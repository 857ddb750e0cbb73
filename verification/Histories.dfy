/** Properties of whole runs. */
module Histories {
  import opened Types
  import opened Ledger
  import opened Authority
  import opened Rules
  import opened Steps
  import opened Permissions

  /** The event of a step, if it committed one. */
  ghost function EventOf(s: Store, a: Action): (e: Option<Event>)
    ensures e.Some? ==> Commits(s, e.value)
  {
    if a.Invoke? then Committed(s, a.sys, a.metas, a.instruction) else None
  }

  lemma StepHasEvent(s: Store, a: Action, t: Store)
    requires Step(s, a, t)
    ensures EventOf(s, a).Some? ==> t == Apply(s, EventOf(s, a).value)
    ensures EventOf(s, a).None? ==> t == s || Elsewhere(s, t)
  {
  }

  lemma StepAt(states: seq<Store>, actions: seq<Action>, i: nat)
    requires IsRun(states, actions) && Reachable(states[0]) && i < |actions|
    ensures Consistent(states[i]) && Step(states[i], actions[i], states[i + 1])
  {
    ReachableIsConsistent(states[0]);
    RunIsConsistent(states, actions, i);
  }

  /** Nothing outside the program touches a live account or mint. */
  lemma OutsideKeeps(s: Store, t: Store, k: Pubkey)
    requires Consistent(s) && Elsewhere(s, t)
    ensures LiveAccount(s, k) ==> LiveAccount(t, k) && AccountAt(t, k) == AccountAt(s, k)
    ensures LiveMint(s, k) ==> LiveMint(t, k) && MintAt(t, k) == MintAt(s, k)
  {
    assert CellOk(At(s, k));
    assert Kept(At(s, k), At(t, k)) || ((!Owned(s, k) || At(s, k).lamports == 0) && Blank(At(t, k)));
  }

  // Delegate allowances

  /** What an event spends from account k through its delegate. */
  function SpentBy(e: Event, k: Pubkey): nat {
    match e
    case Transferred(source, _, amount, byDelegate) => if source == k && byDelegate then amount else 0
    case Burned(source, _, amount, byDelegate) => if source == k && byDelegate then amount else 0
    case _ => 0
  }

  /** Events that give account k a new allowance or end the account. */
  predicate Resets(e: Event, k: Pubkey) {
    match e
    case Approved(source, _, _) => source == k
    case Revoked(source) => source == k
    case OwnerChanged(account, _) => account == k
    case Closed(source, _) => source == k
    case _ => false
  }

  ghost function Spent(s: Store, a: Action, k: Pubkey): nat {
    var e := EventOf(s, a);
    if e.Some? then SpentBy(e.value, k) else 0
  }

  /** A step that leaves the allowance of account k to its delegate. */
  ghost predicate Leaves(s: Store, a: Action, k: Pubkey) {
    var e := EventOf(s, a);
    e.Some? ==> !Resets(e.value, k)
  }

  ghost predicate Undisturbed(states: seq<Store>, actions: seq<Action>, k: Pubkey, m: nat, n: nat)
    requires m <= n <= |actions| < |states|
  {
    forall i :: m <= i < n ==> Leaves(states[i], actions[i], k)
  }

  /** What the steps from m to n spend from account k through its delegate. */
  ghost function SpentBetween(states: seq<Store>, actions: seq<Action>, k: Pubkey, m: nat, n: nat): nat
    requires m <= n <= |actions| < |states|
  {
    if m == n then 0
    else SpentBetween(states, actions, k, m, n - 1) + Spent(states[n - 1], actions[n - 1], k)
  }

  ghost predicate AllowanceKept(s: Store, e: Event, t: Store, k: Pubkey) {
    && LiveAccount(t, k)
    && AccountAt(t, k).delegatedAmount + SpentBy(e, k) == AccountAt(s, k).delegatedAmount
    && (AccountAt(t, k).delegate.Some? ==> AccountAt(t, k).delegate == AccountAt(s, k).delegate)
  }

  lemma AllowanceSpend(s: Store, e: Event, k: Pubkey)
    requires e.Transferred? || e.Burned?
    requires Commits(s, e) && LiveAccount(s, k)
    ensures AllowanceKept(s, e, Apply(s, e), k)
  {
  }

  lemma AllowanceEvent(s: Store, e: Event, k: Pubkey)
    requires Commits(s, e) && LiveAccount(s, k) && !Resets(e, k)
    ensures AllowanceKept(s, e, Apply(s, e), k)
  {
    if e.Transferred? || e.Burned? {
      AllowanceSpend(s, e, k);
    }
  }

  lemma AllowanceStep(s: Store, a: Action, t: Store, k: Pubkey)
    requires Consistent(s) && Step(s, a, t) && LiveAccount(s, k) && Leaves(s, a, k)
    ensures LiveAccount(t, k)
    ensures AccountAt(t, k).delegatedAmount + Spent(s, a, k) == AccountAt(s, k).delegatedAmount
    ensures AccountAt(t, k).delegate.Some? ==> AccountAt(t, k).delegate == AccountAt(s, k).delegate
  {
    StepHasEvent(s, a, t);
    hide Step, Elsewhere, Committed, Apply, Commits, Consistent;
    var e := EventOf(s, a);
    if e.Some? {
      AllowanceEvent(s, e.value, k);
    } else if t != s {
      OutsideKeeps(s, t, k);
    }
  }

  /** Between two resets the allowance left and the amounts spent through the delegate add
      up to the allowance at the start, and the delegate is the same one until it is used up. */
  lemma {:induction false} AllowanceLedger(states: seq<Store>, actions: seq<Action>, k: Pubkey, m: nat, n: nat)
    requires IsRun(states, actions) && Reachable(states[0]) && m <= n <= |actions|
    requires LiveAccount(states[m], k) && Undisturbed(states, actions, k, m, n)
    ensures LiveAccount(states[n], k)
    ensures AccountAt(states[n], k).delegatedAmount + SpentBetween(states, actions, k, m, n)
         == AccountAt(states[m], k).delegatedAmount
    ensures AccountAt(states[n], k).delegate.Some? ==>
              AccountAt(states[n], k).delegate == AccountAt(states[m], k).delegate
  {
    hide IsRun, Consistent, Reachable, Step, EventOf, Spent, Leaves, LiveAccount, AccountAt;
    if m < n {
      AllowanceLedger(states, actions, k, m, n - 1);
      StepAt(states, actions, n - 1);
      assert Leaves(states[n - 1], actions[n - 1], k);
      AllowanceStep(states[n - 1], actions[n - 1], states[n], k);
    }
  }

  lemma ApprovedEvent(s: Store, k: Pubkey, delegate: Pubkey, amount: u64)
    requires Commits(s, Approved(k, delegate, amount)) && LiveAccount(s, k)
    ensures var t := Apply(s, Approved(k, delegate, amount));
            LiveAccount(t, k) && AccountAt(t, k).delegatedAmount == amount
  {
  }

  /** After an approval of `amount` at step m, and until the next reset, the delegate has spent
      what is missing from `amount`; all of it once the delegate is dropped. */
  lemma ApprovalIsALimit(states: seq<Store>, actions: seq<Action>, k: Pubkey, delegate: Pubkey, amount: u64,
                         m: nat, n: nat)
    requires IsRun(states, actions) && Reachable(states[0]) && m < n <= |actions|
    requires LiveAccount(states[m], k)
    requires EventOf(states[m], actions[m]) == Some(Approved(k, delegate, amount))
    requires Undisturbed(states, actions, k, m + 1, n)
    ensures AccountAt(states[n], k).delegatedAmount + SpentBetween(states, actions, k, m + 1, n) == amount
    ensures AccountAt(states[n], k).delegate.None? ==> SpentBetween(states, actions, k, m + 1, n) == amount
  {
    hide IsRun, Consistent, Reachable, Step, EventOf, Undisturbed, LiveAccount, AccountAt, Apply, Commits;
    StepAt(states, actions, m);
    StepHasEvent(states[m], actions[m], states[m + 1]);
    ApprovedEvent(states[m], k, delegate, amount);
    AllowanceLedger(states, actions, k, m + 1, n);
    NoDelegateNoAllowance(states, actions, k, n);
  }

  lemma NoDelegateNoAllowance(states: seq<Store>, actions: seq<Action>, k: Pubkey, n: nat)
    requires IsRun(states, actions) && Reachable(states[0]) && n <= |actions| && LiveAccount(states[n], k)
    ensures AccountAt(states[n], k).delegate.None? ==> AccountAt(states[n], k).delegatedAmount == 0
  {
    ReachableIsConsistent(states[0]);
    RunIsConsistent(states, actions, n);
    assert CellOk(At(states[n], k));
  }

  // Frozen accounts

  ghost predicate Thaws(s: Store, a: Action, k: Pubkey) {
    var e := EventOf(s, a);
    e.Some? && e.value.FreezeSet? && e.value.account == k && !e.value.frozen
  }

  ghost predicate Closes(s: Store, a: Action, k: Pubkey) {
    var e := EventOf(s, a);
    e.Some? && e.value.Closed? && e.value.source == k
  }

  ghost predicate FrozenAt(s: Store, k: Pubkey) {
    LiveAccount(s, k) && AccountAt(s, k).state.Frozen?
  }

  lemma FrozenEvent(s: Store, e: Event, k: Pubkey)
    requires Consistent(s) && Commits(s, e) && FrozenAt(s, k)
    requires !(e.FreezeSet? && e.account == k && !e.frozen) && !(e.Closed? && e.source == k)
    ensures FrozenAt(Apply(s, e), k) && AccountAt(Apply(s, e), k) == AccountAt(s, k)
  {
    hide Accepts, Linked, Backed, Total;
  }

  lemma FrozenStep(s: Store, a: Action, t: Store, k: Pubkey)
    requires Consistent(s) && Step(s, a, t) && FrozenAt(s, k)
    requires !Thaws(s, a, k) && !Closes(s, a, k)
    ensures FrozenAt(t, k) && AccountAt(t, k) == AccountAt(s, k)
  {
    StepHasEvent(s, a, t);
    hide Step, Elsewhere, Committed, Apply, Commits, Consistent;
    var e := EventOf(s, a);
    if e.Some? {
      FrozenEvent(s, e.value, k);
    } else if t != s {
      OutsideKeeps(s, t, k);
    }
  }

  /** Until it is thawed or closed, a frozen account does not change at all. */
  lemma {:induction false} FrozenIsInert(states: seq<Store>, actions: seq<Action>, k: Pubkey, n: nat)
    requires IsRun(states, actions) && Reachable(states[0]) && n <= |actions| && FrozenAt(states[0], k)
    requires forall i :: 0 <= i < n ==> !Thaws(states[i], actions[i], k) && !Closes(states[i], actions[i], k)
    ensures FrozenAt(states[n], k) && AccountAt(states[n], k) == AccountAt(states[0], k)
  {
    hide IsRun, Consistent, Reachable, Step, Thaws, Closes, FrozenAt, AccountAt;
    if n > 0 {
      FrozenIsInert(states, actions, k, n - 1);
      StepAt(states, actions, n - 1);
      FrozenStep(states[n - 1], actions[n - 1], states[n], k);
    }
  }

  /** A frozen account is never native, and is closed only when it is empty. */
  lemma FrozenClosesEmpty(s: Store, a: Action, k: Pubkey)
    requires Reachable(s) && FrozenAt(s, k)
    ensures AccountAt(s, k).isNative.None? && AccountAt(s, k).mint != NATIVE_MINT
    ensures Closes(s, a, k) ==> AccountAt(s, k).amount == 0
  {
    ReachableIsConsistent(s);
    assert CellOk(At(s, k));
  }

  // Mints

  lemma MintStep(s: Store, a: Action, t: Store, mint: Pubkey)
    requires Consistent(s) && Step(s, a, t) && LiveMint(s, mint)
    ensures LiveMint(t, mint) && MintAt(t, mint).decimals == MintAt(s, mint).decimals
    ensures MintAt(s, mint).mintAuthority.None? ==>
              MintAt(t, mint).mintAuthority.None? && MintAt(t, mint).supply <= MintAt(s, mint).supply
    ensures MintAt(s, mint).freezeAuthority.None? ==> MintAt(t, mint).freezeAuthority.None?
  {
    match a
    case Environment => OutsideKeeps(s, t, mint);
    case Invoke(sys, metas, i) => MintChangesAreApproved(s, sys, metas, i, mint);
  }

  /** A mint lasts for ever with its decimals. Once it has no mint authority it never gets
      one again and its supply never grows; once it has no freeze authority it never gets one. */
  lemma {:induction false} MintsLast(states: seq<Store>, actions: seq<Action>, mint: Pubkey, n: nat)
    requires IsRun(states, actions) && Reachable(states[0]) && n <= |actions| && LiveMint(states[0], mint)
    ensures LiveMint(states[n], mint) && MintAt(states[n], mint).decimals == MintAt(states[0], mint).decimals
    ensures MintAt(states[0], mint).mintAuthority.None? ==>
              && MintAt(states[n], mint).mintAuthority.None?
              && MintAt(states[n], mint).supply <= MintAt(states[0], mint).supply
    ensures MintAt(states[0], mint).freezeAuthority.None? ==> MintAt(states[n], mint).freezeAuthority.None?
  {
    hide IsRun, Consistent, Reachable, Step, LiveMint, MintAt;
    if n > 0 {
      MintsLast(states, actions, mint, n - 1);
      StepAt(states, actions, n - 1);
      MintStep(states[n - 1], actions[n - 1], states[n], mint);
    }
  }

  /** What an event adds to and takes from the tokens of a mint. */
  function MintedBy(e: Event, mint: Pubkey): nat {
    match e
    case Minted(m, _, amount) => if m == mint then amount else 0
    case _ => 0
  }

  function BurnedBy(e: Event, mint: Pubkey): nat {
    match e
    case Burned(_, m, amount, _) => if m == mint then amount else 0
    case _ => 0
  }

  ghost function MintedUpTo(states: seq<Store>, actions: seq<Action>, mint: Pubkey, n: nat): nat
    requires n <= |actions| < |states|
  {
    if n == 0 then 0 else
    var e := EventOf(states[n - 1], actions[n - 1]);
    MintedUpTo(states, actions, mint, n - 1) + if e.Some? then MintedBy(e.value, mint) else 0
  }

  ghost function BurnedUpTo(states: seq<Store>, actions: seq<Action>, mint: Pubkey, n: nat): nat
    requires n <= |actions| < |states|
  {
    if n == 0 then 0 else
    var e := EventOf(states[n - 1], actions[n - 1]);
    BurnedUpTo(states, actions, mint, n - 1) + if e.Some? then BurnedBy(e.value, mint) else 0
  }

  lemma SupplyEvent(s: Store, e: Event, mint: Pubkey)
    requires Commits(s, e) && LiveMint(s, mint)
    ensures MintAt(Apply(s, e), mint).supply + BurnedBy(e, mint) == MintAt(s, mint).supply + MintedBy(e, mint)
  {
  }

  lemma SupplyStep(s: Store, a: Action, t: Store, mint: Pubkey)
    requires Consistent(s) && Step(s, a, t) && LiveMint(s, mint) && mint != NATIVE_MINT
    ensures var e := EventOf(s, a);
            var minted := if e.Some? then MintedBy(e.value, mint) else 0;
            var burned := if e.Some? then BurnedBy(e.value, mint) else 0;
            Total(BalanceOf(mint), t) + burned == Total(BalanceOf(mint), s) + minted
  {
    MintStep(s, a, t, mint);
    StepPreserves(s, a, t);
    assert Backed(s, mint) && Backed(t, mint);
    StepHasEvent(s, a, t);
    hide Step, Elsewhere, Committed, Apply, Commits, Consistent, Total;
    var e := EventOf(s, a);
    if e.Some? {
      SupplyEvent(s, e.value, mint);
    } else if t != s {
      OutsideKeeps(s, t, mint);
    }
  }

  /** Over every run, what the accounts of a mint hold together changes by what was minted
      and burned, and by nothing else. */
  lemma {:induction false} SupplyLedger(states: seq<Store>, actions: seq<Action>, mint: Pubkey, n: nat)
    requires IsRun(states, actions) && Reachable(states[0]) && n <= |actions|
    requires LiveMint(states[0], mint) && mint != NATIVE_MINT
    ensures Total(BalanceOf(mint), states[n]) + BurnedUpTo(states, actions, mint, n)
         == Total(BalanceOf(mint), states[0]) + MintedUpTo(states, actions, mint, n)
  {
    hide IsRun, Consistent, Reachable, Step, EventOf, Total, LiveMint;
    if n > 0 {
      SupplyLedger(states, actions, mint, n - 1);
      MintsLast(states, actions, mint, n - 1);
      StepAt(states, actions, n - 1);
      SupplyStep(states[n - 1], actions[n - 1], states[n], mint);
    }
  }

  lemma HoldingEvent(s: Store, e: Event, k: Pubkey)
    requires Consistent(s) && Commits(s, e) && LiveAccount(s, k)
    ensures var t := Apply(s, e);
            && (!(e.Closed? && e.source == k) ==> LiveAccount(t, k))
            && (LiveAccount(t, k) ==> AccountAt(t, k).mint == AccountAt(s, k).mint)
            && (LiveAccount(t, k) && AccountAt(t, k).state != AccountAt(s, k).state ==>
                  MintAt(s, AccountAt(s, k).mint).freezeAuthority.Some?)
  {
    hide Accepts, Linked, Backed, Total;
  }

  lemma HoldingStep(s: Store, a: Action, t: Store, k: Pubkey)
    requires Consistent(s) && Step(s, a, t) && LiveAccount(s, k)
    ensures !Closes(s, a, k) ==> LiveAccount(t, k)
    ensures LiveAccount(t, k) ==> AccountAt(t, k).mint == AccountAt(s, k).mint
    ensures LiveAccount(t, k) && AccountAt(t, k).state != AccountAt(s, k).state ==>
              MintAt(s, AccountAt(s, k).mint).freezeAuthority.Some?
  {
    StepHasEvent(s, a, t);
    hide Step, Elsewhere, Committed, Apply, Commits, Consistent;
    var e := EventOf(s, a);
    if e.Some? {
      HoldingEvent(s, e.value, k);
    } else if t != s {
      OutsideKeeps(s, t, k);
    }
  }

  /** Until it is closed, a live account stays live and keeps its mint. */
  lemma {:induction false} AccountsKeepTheirMint(states: seq<Store>, actions: seq<Action>, k: Pubkey, n: nat)
    requires IsRun(states, actions) && Reachable(states[0]) && n <= |actions| && LiveAccount(states[0], k)
    requires forall i :: 0 <= i < n ==> !Closes(states[i], actions[i], k)
    ensures LiveAccount(states[n], k) && AccountAt(states[n], k).mint == AccountAt(states[0], k).mint
  {
    hide IsRun, Consistent, Reachable, Step, Closes, LiveAccount, AccountAt;
    if n > 0 {
      AccountsKeepTheirMint(states, actions, k, n - 1);
      StepAt(states, actions, n - 1);
      HoldingStep(states[n - 1], actions[n - 1], states[n], k);
    }
  }

  /** Once a mint has no freeze authority, no account of it is frozen or thawed again. */
  lemma NoFreezingWithoutAuthority(states: seq<Store>, actions: seq<Action>, mint: Pubkey, k: Pubkey, n: nat)
    requires IsRun(states, actions) && Reachable(states[0]) && n < |actions| && LiveMint(states[0], mint)
    requires MintAt(states[0], mint).freezeAuthority.None?
    requires LiveAccount(states[n], k) && LiveAccount(states[n + 1], k) && AccountAt(states[n], k).mint == mint
    ensures AccountAt(states[n + 1], k).state == AccountAt(states[n], k).state
  {
    hide IsRun, Consistent, Reachable, Step, LiveAccount, LiveMint;
    StepAt(states, actions, n);
    MintsLast(states, actions, mint, n);
    HoldingStep(states[n], actions[n], states[n + 1], k);
  }

  // Multisigs

  predicate LiveMultisig(s: Store, k: Pubkey) {
    Owned(s, k) && MultisigAt(s, k).isInitialized
  }

  lemma MultisigEvent(s: Store, e: Event, k: Pubkey)
    requires Ready(s, e) && LiveMultisig(s, k)
    ensures At(Apply(s, e), k).data == At(s, k).data && Owned(Apply(s, e), k)
  {
  }

  lemma MultisigStep(s: Store, a: Action, t: Store, k: Pubkey)
    requires Consistent(s) && Step(s, a, t) && LiveMultisig(s, k)
    ensures LiveMultisig(t, k) && MultisigAt(t, k) == MultisigAt(s, k)
  {
    assert CellOk(At(s, k));
    StepHasEvent(s, a, t);
    hide Step, Committed, Apply, Ready, Consistent;
    var e := EventOf(s, a);
    if e.Some? {
      MultisigEvent(s, e.value, k);
    }
  }

  /** Once set up, a multisig never changes. */
  lemma {:induction false} MultisigsLast(states: seq<Store>, actions: seq<Action>, k: Pubkey, n: nat)
    requires IsRun(states, actions) && Reachable(states[0]) && n <= |actions| && LiveMultisig(states[0], k)
    ensures LiveMultisig(states[n], k) && MultisigAt(states[n], k) == MultisigAt(states[0], k)
  {
    hide IsRun, Consistent, Reachable, Step, LiveMultisig, MultisigAt;
    if n > 0 {
      MultisigsLast(states, actions, k, n - 1);
      StepAt(states, actions, n - 1);
      MultisigStep(states[n - 1], actions[n - 1], states[n], k);
    }
  }

  /** One whose threshold exceeds its keys therefore never approves anything again. */
  lemma DeadMultisigNeverApproves(states: seq<Store>, actions: seq<Action>, k: Pubkey, n: nat, metas: seq<Meta>)
    requires IsRun(states, actions) && Reachable(states[0]) && n <= |actions| && LiveMultisig(states[0], k)
    requires MultisigAt(states[0], k).m > MultisigAt(states[0], k).n
    ensures !SignedBy(states[n], metas, k)
  {
    MultisigsLast(states, actions, k, n);
    hide IsRun, Reachable, MultisigOutcome;
    forall j | 0 <= j < |metas|
      ensures OwnerOutcome(states[n], k, metas[j], metas[j + 1..]).Err?
    {
      ThresholdAboveKeysNeverValidates(MultisigAt(states[n], k), metas[j + 1..]);
    }
  }

  // Checked amounts

  /** The decimals a checked instruction insists on. */
  function ExpectedDecimals(i: Instruction): Option<u8> {
    match i
    case TransferChecked(_, d) => Some(d)
    case MintToChecked(_, d) => Some(d)
    case BurnChecked(_, d) => Some(d)
    case _ => None
  }

  /** The account a token movement is booked on. */
  function Booked(e: Event): Option<Pubkey> {
    match e
    case Transferred(source, _, _, _) => Some(source)
    case Minted(_, dest, _) => Some(dest)
    case Burned(source, _, _, _) => Some(source)
    case _ => None
  }

  lemma CheckedTransfer(s: Store, metas: seq<Meta>, amount: u64, decimals: u8)
    requires DecideTransfer(s, metas, amount, Some(decimals)).Ok?
    ensures var e := DecideTransfer(s, metas, amount, Some(decimals)).value;
            (e.Transferred? || e.TransferredToSelf?) && MintAt(s, AccountAt(s, e.source).mint).decimals == decimals
  {
  }

  lemma CheckedMint(s: Store, metas: seq<Meta>, amount: u64, decimals: u8)
    requires DecideMintTo(s, metas, amount, Some(decimals)).Ok?
    ensures var e := DecideMintTo(s, metas, amount, Some(decimals)).value;
            e.Minted? && MintAt(s, AccountAt(s, e.dest).mint).decimals == decimals
  {
  }

  lemma CheckedBurn(s: Store, metas: seq<Meta>, amount: u64, decimals: u8)
    requires DecideBurn(s, metas, amount, Some(decimals)).Ok?
    ensures var e := DecideBurn(s, metas, amount, Some(decimals)).value;
            e.Burned? && MintAt(s, AccountAt(s, e.source).mint).decimals == decimals
  {
  }

  /** Whenever a checked instruction moves tokens of a mint, the decimals it insisted on are
      the ones the mint had at any earlier point of the run. */
  lemma CheckedDecimalsAreOriginal(states: seq<Store>, actions: seq<Action>, mint: Pubkey, n: nat)
    requires IsRun(states, actions) && Reachable(states[0]) && n < |actions| && LiveMint(states[0], mint)
    requires actions[n].Invoke? && ExpectedDecimals(actions[n].instruction).Some?
    requires var e := EventOf(states[n], actions[n]);
             e.Some? && Booked(e.value).Some? && AccountAt(states[n], Booked(e.value).value).mint == mint
    ensures ExpectedDecimals(actions[n].instruction).value == MintAt(states[0], mint).decimals
  {
    hide IsRun, Reachable, LiveMint, DecideTransfer, DecideMintTo, DecideBurn, Apply, Accepts;
    MintsLast(states, actions, mint, n);
    var s, metas := states[n], actions[n].metas;
    match actions[n].instruction
    case TransferChecked(amount, d) => CheckedTransfer(s, metas, amount, d);
    case MintToChecked(amount, d) => CheckedMint(s, metas, amount, d);
    case BurnChecked(amount, d) => CheckedBurn(s, metas, amount, d);
  }
}
