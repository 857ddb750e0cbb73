/** The runtime around the program: it runs an instruction on raw accounts, checks what
    changed, and commits or rolls back. */
module Bank {
  import opened Types
  import opened Ledger
  import opened Rules
  import opened Steps
  import opened Memory
  import opened Processor
  import opened Specification
  import opened Conformance
  import InstructionCodec

  /** The runtime's rule, on bytes. */
  predicate RawAccepts(before: RawStore, after: RawStore) {
    forall k | k in before.Keys + after.Keys ::
      RawAt(after, k).data != RawAt(before, k).data || RawAt(after, k).lamports < RawAt(before, k).lamports
      ==> RawAt(before, k).owner == TOKEN_PROGRAM
  }

  /** On what the handlers write, the rule on bytes and the rule on values agree, because
      rewriting an unchanged value changes no byte. */
  lemma AcceptsAgree(before: RawStore, after: RawStore)
    requires Unhidden(before, after)
    ensures RawAccepts(before, after) <==> Accepts(View(before), View(after))
  {
    hide Decode;
    forall k: Pubkey
      ensures At(View(before), k) == ViewCell(RawAt(before, k)) && At(View(after), k) == ViewCell(RawAt(after, k))
    {
      ViewAt(before, k);
      ViewAt(after, k);
    }
    hide View, At;
    forall k: Pubkey
      ensures At(View(after), k).data != At(View(before), k).data <==> RawAt(after, k).data != RawAt(before, k).data
    {
      assert UnhiddenAt(before, after, k);
    }
  }

  /** The store an instruction given as bytes leads to. */
  ghost function ExecuteInput(s: Store, sys: Sysvars, metas: seq<Meta>, input: seq<u8>): Store {
    var i := InstructionCodec.Unpack(input);
    if i.Ok? then Execute(s, sys, metas, i.value) else s
  }

  /** What the program may do to the accounts: what it decides, or, when a debit is stranded,
      anything that ends in a failure. */
  ghost predicate Processed(before: RawStore, middle: RawStore, sys: Sysvars, metas: seq<Meta>, input: seq<u8>,
                            r: Result<()>) {
    if StrandedInput(View(before), metas, input) then r.Err?
    else Carried(before, middle, DecideInput(View(before), sys, metas, input), r)
  }

  /** Commit or roll back. */
  function Settled(before: RawStore, middle: RawStore, r: Result<()>): RawStore {
    if r.Ok? && RawAccepts(before, middle) then middle else before
  }

  lemma SettledIsExecuted(before: RawStore, middle: RawStore, sys: Sysvars, metas: seq<Meta>, input: seq<u8>,
                          r: Result<()>)
    requires Processed(before, middle, sys, metas, input, r)
    ensures View(Settled(before, middle, r)) == ExecuteInput(View(before), sys, metas, input)
    ensures var i := InstructionCodec.Unpack(input);
            r.Ok? && RawAccepts(before, middle) <==> i.Ok? && Committed(View(before), sys, metas, i.value).Some?
  {
    hide View, Decide, Apply, Unhidden, StrandedInput, RawAccepts, Accepts, InstructionCodec.Unpack;
    if StrandedInput(View(before), metas, input) {
      StrandedFails(View(before), sys, metas, input);
    } else if r.Ok? {
      AcceptsAgree(before, middle);
    }
  }

  // Runs on bytes

  /** Everything but the token program, on bytes. */
  ghost predicate RawElsewhere(before: RawStore, after: RawStore) {
    && (forall k: Pubkey ::
          var c, d := RawAt(before, k), RawAt(after, k);
          || (d.owner == c.owner && d.data == c.data && c.lamports <= d.lamports)
          || ((c.owner != TOKEN_PROGRAM || c.lamports == 0) && (d.owner == TOKEN_PROGRAM ==> AllZero(d.data))))
    && Total(Lamports, View(after)) <= U64_MAX
  }

  lemma RawElsewhereLifts(before: RawStore, after: RawStore)
    requires RawElsewhere(before, after)
    ensures Elsewhere(View(before), View(after))
  {
    hide Decode;
    forall k: Pubkey
      ensures var c, d := At(View(before), k), At(View(after), k);
              Kept(c, d) || ((!Owned(View(before), k) || c.lamports == 0) && Blank(d))
    {
      ViewAt(before, k);
      ViewAt(after, k);
      var d := RawAt(after, k);
      if AllZero(d.data) {
        ZeroDecodes(d.data);
      }
    }
  }

  datatype RawAction = Outside | Submit(sys: Sysvars, metas: seq<Meta>, input: seq<u8>)

  ghost predicate RawStep(before: RawStore, a: RawAction, after: RawStore) {
    match a
    case Outside => RawElsewhere(before, after)
    case Submit(sys, metas, input) =>
      exists middle: RawStore, r: Result<()> ::
        Processed(before, middle, sys, metas, input, r) && after == Settled(before, middle, r)
  }

  /** One instruction on real accounts is a step. */
  method Run(accounts: Accounts, sys: Sysvars, metas: seq<Meta>, input: seq<u8>) returns (committed: bool)
    modifies accounts
    ensures RawStep(old(accounts.cells), Submit(sys, metas, input), accounts.cells)
    ensures View(accounts.cells) == ExecuteInput(View(old(accounts.cells)), sys, metas, input)
    ensures committed ==> DecideInput(View(old(accounts.cells)), sys, metas, input).Ok?
    ensures var i := InstructionCodec.Unpack(input);
            var s := View(old(accounts.cells));
            && (committed <==> i.Ok? && InOrder(s, sys, metas, i.value, true) && Permitted(s, sys, metas, i.value))
            && (committed ==> Effect(s, sys, metas, i.value, View(accounts.cells)))
    ensures !committed ==> accounts.cells == old(accounts.cells)
    ensures Consistent(View(old(accounts.cells))) ==> Consistent(View(accounts.cells))
    ensures Total(Lamports, View(accounts.cells)) == Total(Lamports, View(old(accounts.cells)))
  {
    hide View, Decide, Consistent, Enabled, Apply, Unhidden, StrandedInput, Total, InstructionCodec.Unpack,
         RawAccepts, Accepts, InOrder, Effect, Permitted;
    var before := accounts.cells;
    ghost var s := View(before);
    var r := accounts.Process(sys, metas, input);
    SettledIsExecuted(before, accounts.cells, sys, metas, input, r);
    ghost var i := InstructionCodec.Unpack(input);
    if i.Ok? {
      CommitsExactly(s, sys, metas, i.value);
    }
    if r.Err? || !RawAccepts(before, accounts.cells) {
      accounts.cells := before;
      return false;
    }
    ghost var e := DecideInput(s, sys, metas, input).value;
    if Consistent(s) {
      EventPreserves(s, e);
    }
    LamportsConserved(s, e);
    return true;
  }

  ghost predicate IsRawRun(states: seq<RawStore>, actions: seq<RawAction>) {
    && |states| == |actions| + 1
    && forall i :: 0 <= i < |actions| ==> RawStep(states[i], actions[i], states[i + 1])
  }

  /** Accounts as they may be before the program first runs: whatever it owns is zeroed. */
  ghost predicate RawInitial(cells: RawStore) {
    && (forall k: Pubkey :: RawAt(cells, k).owner == TOKEN_PROGRAM ==> AllZero(RawAt(cells, k).data))
    && Total(Lamports, View(cells)) <= U64_MAX
  }

  /** The typed action a raw one stands for; undecodable input stands for one that fails. */
  ghost function ActionOf(a: RawAction): Action {
    match a
    case Outside => Environment
    case Submit(sys, metas, input) =>
      match InstructionCodec.Unpack(input)
      case Ok(i) => Invoke(sys, metas, i)
      case Err(_) => Invoke(sys, [], Revoke)
  }

  ghost function Views(states: seq<RawStore>): seq<Store> {
    seq(|states|, i requires 0 <= i < |states| => View(states[i]))
  }

  ghost function ActionsOf(actions: seq<RawAction>): seq<Action> {
    seq(|actions|, i requires 0 <= i < |actions| => ActionOf(actions[i]))
  }

  lemma RawStepLifts(before: RawStore, a: RawAction, after: RawStore)
    requires RawStep(before, a, after)
    ensures Step(View(before), ActionOf(a), View(after))
  {
    hide View, Processed, Settled, InstructionCodec.Unpack;
    match a
    case Outside => RawElsewhereLifts(before, after);
    case Submit(sys, metas, input) =>
      var middle: RawStore, r: Result<()> :|
        Processed(before, middle, sys, metas, input, r) && after == Settled(before, middle, r);
      SettledIsExecuted(before, middle, sys, metas, input, r);
  }

  /** Every run on bytes is, seen through the decoder, a run of the typed ledger, so all that
      holds of runs and reachable stores holds of the bytes. */
  lemma RawRunLifts(states: seq<RawStore>, actions: seq<RawAction>)
    requires IsRawRun(states, actions)
    ensures IsRun(Views(states), ActionsOf(actions))
  {
    hide View, Step, RawStep, ActionOf;
    forall i | 0 <= i < |actions|
      ensures Step(Views(states)[i], ActionsOf(actions)[i], Views(states)[i + 1])
    {
      RawStepLifts(states[i], actions[i], states[i + 1]);
    }
  }

  lemma RawInitialLifts(cells: RawStore)
    requires RawInitial(cells)
    ensures Initial(View(cells))
  {
    hide Decode;
    forall k: Pubkey
      ensures Blank(At(View(cells), k))
    {
      ViewAt(cells, k);
      if RawAt(cells, k).owner == TOKEN_PROGRAM {
        ZeroDecodes(RawAt(cells, k).data);
      }
    }
  }

  lemma RawRunIsReachable(states: seq<RawStore>, actions: seq<RawAction>)
    requires IsRawRun(states, actions) && RawInitial(states[0])
    ensures Reachable(View(states[|actions|]))
  {
    RawRunLifts(states, actions);
    RawInitialLifts(states[0]);
    hide View;
    var views := Views(states);
    assert views[0] == View(states[0]) && views[|actions|] == View(states[|actions|]);
    assert |ActionsOf(actions)| == |actions|;
  }
}
