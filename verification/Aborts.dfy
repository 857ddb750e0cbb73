/** When the program aborts instead of returning an error. */
module Aborts {
  import opened Types
  import opened Ledger
  import opened Authority
  import opened Rules
  import opened Steps
  import opened Processor
  import InstructionCodec

  /** The input of a checked instruction with a body too short for an amount. */
  predicate ShortChecked(input: seq<u8>) {
    input != [] && 12 <= input[0] <= 15 && |input| < 9
  }

  lemma UnpackAbortsExactly(input: seq<u8>)
    ensures InstructionCodec.Unpack(input) == Err(Panic) <==> ShortChecked(input)
  {
  }

  /** A multisig setup that would succeed but for a list of too many keys, whose number
      still looks valid in its last eight bits. */
  predicate Overrun(s: Store, sys: Sysvars, metas: seq<Meta>, m: u8, rentAccount: bool) {
    var keys := |metas| - if rentAccount then 2 else 1;
    && keys > MAX_SIGNERS && IsValidSignerIndex(keys % 0x100) && IsValidSignerIndex(m)
    && var rent := GetRent(sys, metas, 1, rentAccount);
    && var c := At(s, metas[0].key);
    && rent.Ok? && c.data.MultisigData? && !c.data.multisig.isInitialized
    && c.lamports >= rent.value.minimumBalance(MULTISIG_LEN)
  }

  lemma SetupAbortsExactly(s: Store, sys: Sysvars, metas: seq<Meta>, m: u8, rentAccount: bool)
    ensures DecideInitializeMultisig(s, sys, metas, m, rentAccount) == Err(Panic) <==>
            Overrun(s, sys, metas, m, rentAccount)
  {
  }

  /** The owner check aborts exactly on a multisig that claims more keys than its list
      has room for, and only if some account follows. */
  lemma OwnerCheckAbortsExactly(s: Store, expected: Pubkey, who: Meta, signers: seq<Meta>)
    ensures OwnerOutcome(s, expected, who, signers) == Err(Panic) <==>
            && expected == who.key && signers != [] && Owned(s, who.key)
            && MultisigAt(s, who.key).isInitialized && MultisigAt(s, who.key).n > MAX_SIGNERS
  {
  }

  lemma OwnerCheckNeverAborts(s: Store)
    requires Consistent(s)
    ensures forall expected, who, signers :: OwnerOutcome(s, expected, who, signers) != Err(Panic)
  {
    forall expected, who, signers
      ensures OwnerOutcome(s, expected, who, signers) != Err(Panic)
    {
      OwnerCheckAbortsExactly(s, expected, who, signers);
      assert CellOk(At(s, who.key));
    }
  }

  lemma TransferNeverAborts(s: Store, metas: seq<Meta>, amount: u64, expectedDecimals: Option<u8>)
    requires Consistent(s)
    ensures DecideTransfer(s, metas, amount, expectedDecimals) != Err(Panic)
  {
    OwnerCheckNeverAborts(s);
    hide OwnerOutcome, Consistent;
  }

  lemma BurnNeverAborts(s: Store, metas: seq<Meta>, amount: u64, expectedDecimals: Option<u8>)
    requires Consistent(s)
    ensures DecideBurn(s, metas, amount, expectedDecimals) != Err(Panic)
  {
    OwnerCheckNeverAborts(s);
    hide OwnerOutcome, Consistent;
  }

  lemma SetAuthorityNeverAborts(s: Store, metas: seq<Meta>, kind: AuthorityType, authority: Option<Pubkey>)
    requires Consistent(s)
    ensures DecideSetAuthority(s, metas, kind, authority) != Err(Panic)
  {
    OwnerCheckNeverAborts(s);
    hide OwnerOutcome, Consistent;
  }

  lemma DecisionAborts(s: Store, sys: Sysvars, metas: seq<Meta>, i: Instruction)
    requires Consistent(s) && Decide(s, sys, metas, i) == Err(Panic)
    ensures i.InitializeMultisig? || i.InitializeMultisig2?
  {
    hide OwnerOutcome, Consistent, DecideInitializeMultisig, DecideTransfer, DecideBurn, DecideSetAuthority, Enabled,
         Approves;
    OwnerCheckNeverAborts(s);
    match i {
      case Transfer(amount) => TransferNeverAborts(s, metas, amount, None);
      case TransferChecked(amount, d) => TransferNeverAborts(s, metas, amount, Some(d));
      case Burn(amount) => BurnNeverAborts(s, metas, amount, None);
      case BurnChecked(amount, d) => BurnNeverAborts(s, metas, amount, Some(d));
      case SetAuthority(kind, authority) => SetAuthorityNeverAborts(s, metas, kind, authority);
      case _ =>
    }
  }

  /** In a reachable store the program aborts exactly on a short checked body and on a
      multisig setup with too many keys. */
  lemma ProgramAbortsExactly(s: Store, sys: Sysvars, metas: seq<Meta>, input: seq<u8>)
    requires Reachable(s)
    ensures DecideInput(s, sys, metas, input) == Err(Panic) <==>
            || ShortChecked(input)
            || match InstructionCodec.Unpack(input) {
                 case Ok(InitializeMultisig(m)) => Overrun(s, sys, metas, m, true)
                 case Ok(InitializeMultisig2(m)) => Overrun(s, sys, metas, m, false)
                 case _ => false
               }
  {
    UnpackAbortsExactly(input);
    ReachableIsConsistent(s);
    hide InstructionCodec.Unpack, Decide, DecideInitializeMultisig, Overrun, ShortChecked, Consistent, Reachable;
    match InstructionCodec.Unpack(input) {
      case Ok(InitializeMultisig(m)) => SetupAbortsExactly(s, sys, metas, m, true);
      case Ok(InitializeMultisig2(m)) => SetupAbortsExactly(s, sys, metas, m, false);
      case Ok(i) => if Decide(s, sys, metas, i) == Err(Panic) { DecisionAborts(s, sys, metas, i); }
      case Err(_) =>
    }
  }

  /** The shortest checked input aborts, its unchecked sibling is refused. */
  lemma ShortBodyAborts()
    ensures InstructionCodec.Unpack([12]) == Err(Panic) && InstructionCodec.Unpack([3]) == Err(InvalidInstruction)
  {
  }

  /** An account handed to the program for a multisig. */
  function Fresh(k: Pubkey): Store {
    map[k := Cell(TOKEN_PROGRAM, 1, MultisigData(ZERO_MULTISIG))]
  }

  lemma FreshIsReachable(k: Pubkey)
    ensures Reachable(Fresh(k))
  {
    var s, none: Store := Fresh(k), map[];
    TotalUpdate(Lamports, none, k, s[k]);
    assert s == none[k := s[k]];
    assert Total(Lamports, none) == 0;
    var states, actions: seq<Action> := [s], [];
    assert IsRun(states, actions) && states[|actions|] == s;
  }

  /** In a reachable store, setting up a multisig with 257 keys aborts. */
  lemma ManyKeysAbort()
    ensures exists s, sys, metas ::
              Reachable(s) && |metas| == 1 + 257 && Decide(s, sys, metas, InitializeMultisig2(1)) == Err(Panic)
  {
    hide Reachable, DecideInitializeMultisig;
    var k: Pubkey := 1;
    FreshIsReachable(k);
    var sys := Sysvars(None, Some(Rent((n: nat) => 1)));
    var metas := seq(258, i => Meta(k, false));
    SetupAbortsExactly(Fresh(k), sys, metas, 1, false);
    assert Decide(Fresh(k), sys, metas, InitializeMultisig2(1)) == Err(Panic);
  }
}
