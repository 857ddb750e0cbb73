/** The accounts as the program sees them: raw bytes, and the typed store they stand for. */
module Memory {
  import opened Types
  import opened Ledger
  import opened Bytes
  import opened StateCodec

  datatype RawCell = RawCell(owner: Pubkey, lamports: u64, data: seq<u8>)

  type RawStore = map<Pubkey, RawCell>

  const EMPTY_RAW := RawCell(SYSTEM_PROGRAM, 0, [])

  function RawAt(cells: RawStore, k: Pubkey): RawCell {
    if k in cells then cells[k] else EMPTY_RAW
  }

  function Decode(b: seq<u8>): Data {
    if |b| == MINT_LEN then
      var r := ParseMint(b);
      if r.Ok? then MintData(r.value) else Raw(MINT_LEN)
    else if |b| == ACCOUNT_LEN then
      var r := ParseAccount(b);
      if r.Ok? then AccountData(r.value) else Raw(ACCOUNT_LEN)
    else if |b| == MULTISIG_LEN then
      var r := ParseMultisig(b);
      if r.Ok? then MultisigData(r.value) else Raw(MULTISIG_LEN)
    else
      Raw(|b|)
  }

  function ViewCell(c: RawCell): Cell {
    Cell(c.owner, c.lamports, Decode(c.data))
  }

  /** The typed store that raw accounts stand for. */
  function View(cells: RawStore): Store {
    map k | k in cells :: ViewCell(cells[k])
  }

  lemma ViewAt(cells: RawStore, k: Pubkey)
    ensures At(View(cells), k) == ViewCell(RawAt(cells, k))
  {
  }

  lemma ViewUpdate(cells: RawStore, k: Pubkey, c: RawCell)
    ensures View(cells[k := c]) == View(cells)[k := ViewCell(c)]
  {
  }

  lemma DecodeLen(b: seq<u8>)
    ensures Decode(b).Len() == |b|
  {
  }

  lemma DecodePackedMint(m: Mint, buf: seq<u8>)
    requires |buf| == MINT_LEN
    ensures Decode(PackedMint(m, buf)) == MintData(m)
    ensures Decode(buf) == MintData(m) ==> PackedMint(m, buf) == buf
  {
    MintRoundTrip(m, buf);
  }

  lemma DecodePackedAccount(a: Account, buf: seq<u8>)
    requires |buf| == ACCOUNT_LEN
    ensures Decode(PackedAccount(a, buf)) == AccountData(a)
    ensures Decode(buf) == AccountData(a) ==> PackedAccount(a, buf) == buf
  {
    AccountRoundTrip(a, buf);
    if ParseAccount(buf) == Ok(a) {
      AccountRepack(a, buf);
    }
  }

  lemma DecodePackedMultisig(ms: Multisig, buf: seq<u8>)
    requires |buf| == MULTISIG_LEN
    ensures Decode(PackedMultisig(ms)) == MultisigData(ms)
    ensures Decode(buf) == MultisigData(ms) ==> PackedMultisig(ms) == buf
  {
    MultisigRoundTrip(ms);
    if ParseMultisig(buf) == Ok(ms) {
      MultisigRepack(ms, buf);
    }
  }

  predicate AllZero(b: seq<u8>) {
    forall i :: 0 <= i < |b| ==> b[i] == 0
  }

  lemma ZeroTag(b: seq<u8>)
    requires AllZero(b) && |b| >= 4
    ensures b[..4] == NONE_TAG
  {
  }

  lemma ZeroMint(b: seq<u8>)
    requires AllZero(b) && |b| == MINT_LEN
    ensures Decode(b) == MintData(ZERO_MINT)
  {
    FromZeros(b[36..44]);
    ZeroTag(b[0..36]);
    ZeroTag(b[46..82]);
  }

  lemma ZeroAccount(b: seq<u8>)
    requires AllZero(b) && |b| == ACCOUNT_LEN
    ensures Decode(b) == AccountData(ZERO_ACCOUNT)
  {
    FromZeros(b[0..32]);
    FromZeros(b[32..64]);
    FromZeros(b[64..72]);
    FromZeros(b[121..129]);
    ZeroTag(b[72..108]);
    ZeroTag(b[109..121]);
    ZeroTag(b[129..165]);
  }

  lemma {:induction false} ZeroKeys(b: seq<u8>)
    requires AllZero(b) && |b| % 32 == 0
    ensures forall i :: 0 <= i < |b| / 32 ==> ChunkKeys(b)[i] == 0
  {
    if b != [] {
      FromZeros(b[..32]);
      ZeroKeys(b[32..]);
    }
  }

  /** A zeroed buffer decodes to a zeroed value, whatever its length. */
  lemma ZeroDecodes(b: seq<u8>)
    requires AllZero(b)
    ensures Decode(b).Zeroed()
  {
    if |b| == MINT_LEN {
      ZeroMint(b);
    } else if |b| == ACCOUNT_LEN {
      ZeroAccount(b);
    } else if |b| == MULTISIG_LEN {
      ZeroKeys(b[3..]);
      assert ChunkKeys(b[3..]) == ZERO_MULTISIG.signers;
    }
  }
}
