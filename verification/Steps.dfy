/** Runs of the ledger: committed instructions, rolled-back instructions, and whatever
    other programs and the runtime do to the accounts in between. */
module Steps {
  import opened Types
  import opened Ledger
  import opened Rules

  /** The runtime's rule for a program's changes: data may change, and lamports may
      fall, only in accounts the program owns. */
  ghost predicate Accepts(s: Store, t: Store) {
    forall k: Pubkey ::
      At(t, k).data != At(s, k).data || At(t, k).lamports < At(s, k).lamports ==> Owned(s, k)
  }

  /** The event an instruction commits, if the program succeeds and the runtime accepts. */
  ghost function Committed(s: Store, sys: Sysvars, metas: seq<Meta>, i: Instruction): (r: Option<Event>)
    ensures r.Some? ==> Enabled(s, r.value)
  {
    var d := Decide(s, sys, metas, i);
    if d.Ok? && Accepts(s, Apply(s, d.value)) then Some(d.value) else None
  }

  ghost function Execute(s: Store, sys: Sysvars, metas: seq<Meta>, i: Instruction): Store {
    var e := Committed(s, sys, metas, i);
    if e.Some? then Apply(s, e.value) else s
  }

  lemma DecidedCommits(s: Store, sys: Sysvars, metas: seq<Meta>, i: Instruction, e: Event)
    requires Decide(s, sys, metas, i) == Ok(e) && Accepts(s, Apply(s, e))
    ensures Committed(s, sys, metas, i) == Some(e) && Execute(s, sys, metas, i) == Apply(s, e)
  {
    hide Decide, Apply, Accepts;
  }

  lemma RefusedDoesNotCommit(s: Store, sys: Sysvars, metas: seq<Meta>, i: Instruction)
    requires Decide(s, sys, metas, i).Err?
    ensures Committed(s, sys, metas, i) == None && Execute(s, sys, metas, i) == s
  {
    hide Decide, Apply, Accepts;
  }

  /** A cell the token program has not written: foreign, or handed over zeroed. */
  predicate Blank(c: Cell) {
    c.owner == TOKEN_PROGRAM ==> c.data.Zeroed()
  }

  predicate Kept(c: Cell, d: Cell) {
    d.owner == c.owner && d.data == c.data && c.lamports <= d.lamports
  }

  /** Everything but the token program: its cells keep their data and lose no lamports,
      except that a cell without lamports may be purged. Other cells change freely, but
      come under the token program only zeroed. Lamports never exceed 64 bits in all. */
  ghost predicate Elsewhere(s: Store, t: Store) {
    && (forall k: Pubkey ::
          Kept(At(s, k), At(t, k)) || ((!Owned(s, k) || At(s, k).lamports == 0) && Blank(At(t, k))))
    && Total(Lamports, t) <= U64_MAX
  }

  datatype Action = Environment | Invoke(sys: Sysvars, metas: seq<Meta>, instruction: Instruction)

  ghost predicate Step(s: Store, a: Action, t: Store) {
    match a
    case Environment => Elsewhere(s, t)
    case Invoke(sys, metas, i) => t == Execute(s, sys, metas, i)
  }

  ghost predicate Initial(s: Store) {
    && (forall k: Pubkey :: Blank(At(s, k)))
    && Total(Lamports, s) <= U64_MAX
  }

  ghost predicate IsRun(states: seq<Store>, actions: seq<Action>)
    ensures IsRun(states, actions) ==> |states| == |actions| + 1
  {
    && |states| == |actions| + 1
    && forall i :: 0 <= i < |actions| ==> Step(states[i], actions[i], states[i + 1])
  }

  ghost predicate Reachable(s: Store) {
    exists states, actions :: IsRun(states, actions) && Initial(states[0]) && states[|actions|] == s
  }

  lemma StepIsReachable(s: Store, a: Action, t: Store)
    requires Reachable(s) && Step(s, a, t)
    ensures Reachable(t)
  {
    hide Step, Initial;
    var states, actions :| IsRun(states, actions) && Initial(states[0]) && states[|actions|] == s;
    var longer, more := states + [t], actions + [a];
    assert IsRun(longer, more);
    assert longer[0] == states[0] && longer[|more|] == t;
  }

  // The invariant

  /** What holds of a cell by itself. */
  predicate CellOk(c: Cell) {
    c.owner == TOKEN_PROGRAM ==>
      match c.data
      case MintData(m) => if m.isInitialized then 0 < c.lamports else m == ZERO_MINT
      case AccountData(a) => if a.state.Uninitialized? then a == ZERO_ACCOUNT else HoldingOk(a, c.lamports)
      case MultisigData(ms) =>
        if ms.isInitialized then
          0 < c.lamports && IsValidSignerIndex(ms.m) && IsValidSignerIndex(ms.n)
        else
          ms == ZERO_MULTISIG
      case Raw(_) => true
  }

  /** What holds of a live token account and its lamports. */
  predicate HoldingOk(a: Account, lamports: u64) {
    && 0 < lamports
    && (a.isNative.Some? <==> a.mint == NATIVE_MINT)
    && (a.isNative.Some? ==> a.isNative.value + a.amount <= lamports && 0 < a.isNative.value && !a.state.Frozen?)
    && (a.delegate.None? ==> a.delegatedAmount == 0)
  }

  /** Every live account of an ordinary mint refers to a live mint. */
  predicate Linked(s: Store, k: Pubkey) {
    LiveAccount(s, k) && AccountAt(s, k).mint != NATIVE_MINT ==> LiveMint(s, AccountAt(s, k).mint)
  }

  /** An ordinary mint's supply is the sum of the balances of its accounts. */
  ghost predicate Backed(s: Store, mint: Pubkey) {
    LiveMint(s, mint) && mint != NATIVE_MINT ==> MintAt(s, mint).supply == Total(BalanceOf(mint), s)
  }

  ghost predicate Consistent(s: Store) {
    && (forall k: Pubkey :: CellOk(At(s, k)))
    && (forall k: Pubkey :: Linked(s, k))
    && (forall k: Pubkey :: Backed(s, k))
    && Total(Lamports, s) <= U64_MAX
  }

  lemma InitialIsConsistent(s: Store)
    requires Initial(s)
    ensures Consistent(s)
  {
  }

  // Committed events

  ghost predicate Commits(s: Store, e: Event) {
    Enabled(s, e) && Accepts(s, Apply(s, e))
  }

  /** Every event only moves lamports between cells, whatever store it meets and
      whichever of its accounts coincide. */
  lemma LamportsConserved(s: Store, e: Event)
    requires Ready(s, e)
    ensures Total(Lamports, Apply(s, e)) == Total(Lamports, s)
  {
    var t := Apply(s, e);
    match e
    case Transferred(source, dest, _, _) => TotalUpdateTwo(Lamports, s, source, t[source], dest, t[dest]);
    case Closed(source, dest) => TotalUpdateTwo(Lamports, s, dest, t[dest], source, t[source]);
    case _ => TotalAgree(Lamports, s, t);
  }

  /** A committed transfer is between accounts of the token program. */
  lemma TransferOwns(s: Store, source: Pubkey, dest: Pubkey, amount: u64, byDelegate: bool)
    requires Commits(s, Transferred(source, dest, amount, byDelegate))
    ensures Owned(s, source) && Owned(s, dest)
  {
    var t := Apply(s, Transferred(source, dest, amount, byDelegate));
    assert At(t, source).data.account.amount == AccountAt(s, source).amount - amount;
    assert At(t, dest).data.account.amount == AccountAt(s, dest).amount + amount;
  }

  lemma TransferKeepsCells(s: Store, source: Pubkey, dest: Pubkey, amount: u64, byDelegate: bool, k: Pubkey)
    requires Consistent(s) && Commits(s, Transferred(source, dest, amount, byDelegate))
    ensures var t := Apply(s, Transferred(source, dest, amount, byDelegate)); CellOk(At(t, k)) && Linked(t, k)
  {
    hide Accepts, Total;
    TransferOwns(s, source, dest, amount, byDelegate);
    assert CellOk(At(s, source)) && CellOk(At(s, dest)) && CellOk(At(s, k)) && Linked(s, k);
  }

  lemma TransferKeepsBacking(s: Store, source: Pubkey, dest: Pubkey, amount: u64, byDelegate: bool, mint: Pubkey)
    requires Backed(s, mint) && Commits(s, Transferred(source, dest, amount, byDelegate))
    ensures Backed(Apply(s, Transferred(source, dest, amount, byDelegate)), mint)
  {
    hide Accepts, Total;
    var t := Apply(s, Transferred(source, dest, amount, byDelegate));
    TransferOwns(s, source, dest, amount, byDelegate);
    TotalUpdateTwo(BalanceOf(mint), s, source, t[source], dest, t[dest]);
  }

  lemma TransferPreserves(s: Store, source: Pubkey, dest: Pubkey, amount: u64, byDelegate: bool)
    requires Consistent(s) && Commits(s, Transferred(source, dest, amount, byDelegate))
    ensures Consistent(Apply(s, Transferred(source, dest, amount, byDelegate)))
  {
    hide Apply, Accepts, Ready, CellOk, Linked, Backed, Total;
    forall k: Pubkey
      ensures var t := Apply(s, Transferred(source, dest, amount, byDelegate));
              CellOk(At(t, k)) && Linked(t, k) && Backed(t, k)
    {
      TransferKeepsCells(s, source, dest, amount, byDelegate, k);
      assert Backed(s, k);
      TransferKeepsBacking(s, source, dest, amount, byDelegate, k);
    }
    LamportsConserved(s, Transferred(source, dest, amount, byDelegate));
  }

  lemma MintPreserves(s: Store, mint: Pubkey, dest: Pubkey, amount: u64)
    requires Consistent(s) && Commits(s, Minted(mint, dest, amount))
    ensures Consistent(Apply(s, Minted(mint, dest, amount)))
  {
    var t := Apply(s, Minted(mint, dest, amount));
    assert CellOk(At(s, mint)) && CellOk(At(s, dest));
    assert Owned(s, mint) && Owned(s, dest) by {
      assert At(t, mint).data.mint.supply == MintAt(s, mint).supply + amount;
      assert At(t, dest).data.account.amount == AccountAt(s, dest).amount + amount;
    }
    forall k: Pubkey
      ensures CellOk(At(t, k)) && Linked(t, k)
    {
      assert CellOk(At(s, k)) && Linked(s, k);
    }
    forall other: Pubkey
      ensures Backed(t, other)
    {
      assert Backed(s, other);
      TotalUpdateTwo(BalanceOf(other), s, dest, t[dest], mint, t[mint]);
    }
    LamportsConserved(s, Minted(mint, dest, amount));
  }

  lemma BurnPreserves(s: Store, source: Pubkey, mint: Pubkey, amount: u64, byDelegate: bool)
    requires Consistent(s) && Commits(s, Burned(source, mint, amount, byDelegate))
    ensures Consistent(Apply(s, Burned(source, mint, amount, byDelegate)))
  {
    var t := Apply(s, Burned(source, mint, amount, byDelegate));
    assert CellOk(At(s, mint)) && CellOk(At(s, source));
    assert Owned(s, mint) && Owned(s, source) by {
      assert At(t, mint).data.mint.supply == MintAt(s, mint).supply - amount;
      assert At(t, source).data.account.amount == AccountAt(s, source).amount - amount;
    }
    forall k: Pubkey
      ensures CellOk(At(t, k)) && Linked(t, k)
    {
      assert CellOk(At(s, k)) && Linked(s, k);
    }
    forall other: Pubkey
      ensures Backed(t, other)
    {
      assert Backed(s, other);
      TotalUpdateTwo(BalanceOf(other), s, source, t[source], mint, t[mint]);
    }
    LamportsConserved(s, Burned(source, mint, amount, byDelegate));
  }

  lemma ClosePreserves(s: Store, source: Pubkey, dest: Pubkey)
    requires Consistent(s) && Commits(s, Closed(source, dest))
    ensures Consistent(Apply(s, Closed(source, dest)))
  {
    var t := Apply(s, Closed(source, dest));
    assert CellOk(At(s, source)) && CellOk(At(s, dest));
    assert Owned(s, source) by {
      assert At(t, source).data.account.state.Uninitialized?;
    }
    forall k: Pubkey
      ensures CellOk(At(t, k)) && Linked(t, k)
    {
      assert CellOk(At(s, k)) && Linked(s, k);
    }
    forall mint: Pubkey
      ensures Backed(t, mint)
    {
      assert Backed(s, mint);
      TotalUpdateTwo(BalanceOf(mint), s, dest, t[dest], source, t[source]);
    }
    LamportsConserved(s, Closed(source, dest));
  }

  lemma CreateMintPreserves(s: Store, mint: Pubkey, e: Event)
    requires e.MintCreated? && e.mint == mint
    requires Consistent(s) && Commits(s, e)
    ensures Consistent(Apply(s, e))
  {
    var t := Apply(s, e);
    assert Owned(s, mint) by {
      assert At(t, mint).data.mint.isInitialized;
    }
    forall k: Pubkey
      ensures CellOk(At(t, k)) && Linked(t, k)
    {
      assert CellOk(At(s, k)) && Linked(s, k);
    }
    forall other: Pubkey
      ensures Backed(t, other)
    {
      assert Backed(s, other);
      TotalUpdate(BalanceOf(other), s, mint, t[mint]);
      if other == mint && mint != NATIVE_MINT {
        forall k: Pubkey
          ensures Weight(BalanceOf(mint), At(s, k)) == 0
        {
          assert Linked(s, k) && CellOk(At(s, k));
        }
        SumZero(BalanceOf(mint), s, s.Keys);
        assert CellOk(At(s, mint));
      }
    }
    LamportsConserved(s, e);
  }

  /** The remaining events write at most one cell and leave ordinary balances alone. */
  predicate Local(e: Event) {
    !e.Transferred? && !e.Minted? && !e.Burned? && !e.Closed? && !e.MintCreated?
  }

  lemma LocalCell(s: Store, e: Event, k: Pubkey)
    requires Consistent(s) && Commits(s, e) && Local(e)
    ensures CellOk(At(Apply(s, e), k))
    ensures LiveMint(s, k) == LiveMint(Apply(s, e), k)
    ensures MintAt(Apply(s, e), k).supply == MintAt(s, k).supply
  {
    assert CellOk(At(s, k));
  }

  lemma LocalLink(s: Store, e: Event, k: Pubkey)
    requires Consistent(s) && Commits(s, e) && Local(e)
    ensures Linked(Apply(s, e), k)
  {
    assert Linked(s, k);
    LocalCell(s, e, AccountAt(Apply(s, e), k).mint);
  }

  lemma LocalWeight(s: Store, e: Event, k: Pubkey, mint: Pubkey)
    requires Consistent(s) && Commits(s, e) && Local(e)
    requires mint != NATIVE_MINT
    ensures Weight(BalanceOf(mint), At(Apply(s, e), k)) == Weight(BalanceOf(mint), At(s, k))
  {
    assert CellOk(At(s, k));
  }

  lemma LocalPreserves(s: Store, e: Event)
    requires Consistent(s) && Commits(s, e) && Local(e)
    ensures Consistent(Apply(s, e))
  {
    var t := Apply(s, e);
    forall k: Pubkey
      ensures CellOk(At(t, k)) && Linked(t, k)
    {
      LocalCell(s, e, k);
      LocalLink(s, e, k);
    }
    forall mint: Pubkey
      ensures Backed(t, mint)
    {
      assert Backed(s, mint);
      LocalCell(s, e, mint);
      if mint != NATIVE_MINT {
        forall k: Pubkey
          ensures Weight(BalanceOf(mint), At(t, k)) == Weight(BalanceOf(mint), At(s, k))
        {
          LocalWeight(s, e, k, mint);
        }
        TotalAgree(BalanceOf(mint), t, s);
      }
    }
    LamportsConserved(s, e);
  }

  /** Every committed event keeps the invariant. */
  lemma EventPreserves(s: Store, e: Event)
    requires Consistent(s) && Commits(s, e)
    ensures Consistent(Apply(s, e))
  {
    match e
    case Transferred(source, dest, amount, byDelegate) => TransferPreserves(s, source, dest, amount, byDelegate);
    case Minted(mint, dest, amount) => MintPreserves(s, mint, dest, amount);
    case Burned(source, mint, amount, byDelegate) => BurnPreserves(s, source, mint, amount, byDelegate);
    case Closed(source, dest) => ClosePreserves(s, source, dest);
    case MintCreated(mint, _, _, _) => CreateMintPreserves(s, mint, e);
    case _ => LocalPreserves(s, e);
  }

  // Everything else

  lemma ElsewherePreserves(s: Store, t: Store)
    requires Consistent(s) && Elsewhere(s, t)
    ensures Consistent(t)
  {
    forall k: Pubkey
      ensures CellOk(At(t, k)) && LiveMint(t, k) == LiveMint(s, k) && LiveAccount(t, k) == LiveAccount(s, k)
      ensures LiveMint(s, k) ==> MintAt(t, k) == MintAt(s, k)
      ensures LiveAccount(s, k) ==> AccountAt(t, k) == AccountAt(s, k)
    {
      assert CellOk(At(s, k));
      assert Kept(At(s, k), At(t, k)) || ((!Owned(s, k) || At(s, k).lamports == 0) && Blank(At(t, k)));
    }
    forall k: Pubkey
      ensures Linked(t, k) && Backed(t, k)
    {
      assert Linked(s, k) && Backed(s, k);
      TotalAgree(BalanceOf(k), s, t);
    }
  }

  /** The invariant holds in every state of every run. */
  lemma {:induction false} RunIsConsistent(states: seq<Store>, actions: seq<Action>, i: nat)
    requires IsRun(states, actions) && Consistent(states[0]) && i <= |actions|
    ensures Consistent(states[i])
  {
    hide Consistent, Step;
    if i > 0 {
      RunIsConsistent(states, actions, i - 1);
      StepPreserves(states[i - 1], actions[i - 1], states[i]);
    }
  }

  lemma StepPreserves(s: Store, a: Action, t: Store)
    requires Consistent(s) && Step(s, a, t)
    ensures Consistent(t)
  {
    match a
    case Environment => ElsewherePreserves(s, t);
    case Invoke(sys, metas, i) =>
      var e := Committed(s, sys, metas, i);
      if e.Some? {
        EventPreserves(s, e.value);
      }
  }

  lemma ReachableIsConsistent(s: Store)
    requires Reachable(s)
    ensures Consistent(s)
  {
    hide Consistent, Step, Initial;
    var states, actions :| IsRun(states, actions) && Initial(states[0]) && states[|actions|] == s;
    InitialIsConsistent(states[0]);
    RunIsConsistent(states, actions, |actions|);
  }
}
