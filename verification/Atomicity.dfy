/** When a failing instruction leaves the accounts untouched by itself, before any rollback. */
module Atomicity {
  import opened Types
  import opened Ledger
  import opened Authority
  import opened Rules
  import opened Steps
  import opened Bytes
  import opened StateCodec
  import opened Memory
  import opened Processor
  import InstructionCodec

  /** Any two different accounts hold at most 64 bits of lamports together. */
  ghost predicate PairsFit(s: Store) {
    forall j: Pubkey, k: Pubkey :: j != k ==> At(s, j).lamports + At(s, k).lamports <= U64_MAX
  }

  /** Where pairs fit, nothing is ever stranded, so every failure is atomic. */
  lemma PairsFitNeverStrand(s: Store, metas: seq<Meta>, input: seq<u8>)
    requires PairsFit(s)
    ensures !StrandedInput(s, metas, input)
  {
    hide CheckMint, DecideSpend;
  }

  lemma ReachablePairsFit(s: Store)
    requires Reachable(s)
    ensures PairsFit(s)
  {
    ReachableIsConsistent(s);
    forall j: Pubkey, k: Pubkey | j != k
      ensures At(s, j).lamports + At(s, k).lamports <= U64_MAX
    {
      TotalBoundsPair(Lamports, s, j, k);
    }
  }

  const CRAMPED := Account(NATIVE_MINT, 3, 1, None, Initialized, Some(1), 0, None)
  const REQUEST := [Meta(1, false), Meta(2, false), Meta(3, true)]

  lemma TypedStranding(s: Store)
    requires At(s, 1) == Cell(TOKEN_PROGRAM, 2, AccountData(CRAMPED))
    requires At(s, 2) == Cell(TOKEN_PROGRAM, U64_MAX, AccountData(CRAMPED)) && !Owned(s, 3)
    ensures Stranded(s, REQUEST, 1, None)
  {
    hide At;
    assert OwnerOutcome(s, 3, REQUEST[2], REQUEST[3..]).Ok?;
  }

  /** Without that bound the program itself, given these bytes, strands a debit. */
  lemma StrandingExists()
    ensures exists cells, metas, input :: StrandedInput(View(cells), metas, input)
  {
    hide View, Decode, PackedAccount, Stranded, InstructionCodec.Unpack, InstructionCodec.Packed;
    var bytes, input := PackedAccount(CRAMPED, Zeros(ACCOUNT_LEN)), InstructionCodec.Packed(Transfer(1));
    var cells: RawStore := map[1 := RawCell(TOKEN_PROGRAM, 2, bytes), 2 := RawCell(TOKEN_PROGRAM, U64_MAX, bytes)];
    DecodePackedAccount(CRAMPED, Zeros(ACCOUNT_LEN));
    ViewAt(cells, 1);
    ViewAt(cells, 2);
    ViewAt(cells, 3);
    TypedStranding(View(cells));
    InstructionCodec.RoundTrip(Transfer(1), []);
    assert input + [] == input;
    assert StrandedInput(View(cells), REQUEST, input);
  }
}
