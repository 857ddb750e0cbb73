/** The client-side builders, and what the program makes of the instructions they build. */
module Builders {
  import opened Types
  import opened Ledger
  import opened Authority
  import opened Rules
  import InstructionCodec

  datatype AccountMeta = AccountMeta(key: Pubkey, isSigner: bool, isWritable: bool)

  datatype Call = Call(programId: Pubkey, accounts: seq<AccountMeta>, data: seq<u8>)

  /** The account list as the program sees it. */
  function Seen(accounts: seq<AccountMeta>): (r: seq<Meta>)
    ensures |r| == |accounts|
    ensures forall i :: 0 <= i < |accounts| ==> r[i] == Meta(accounts[i].key, accounts[i].isSigner)
  {
    if accounts == [] then [] else [Meta(accounts[0].key, accounts[0].isSigner)] + Seen(accounts[1..])
  }

  function Listed(keys: seq<Pubkey>, isSigner: bool): (r: seq<AccountMeta>)
    ensures |r| == |keys|
    ensures forall i :: 0 <= i < |keys| ==> r[i] == AccountMeta(keys[i], isSigner, false)
  {
    if keys == [] then [] else [AccountMeta(keys[0], isSigner, false)] + Listed(keys[1..], isSigner)
  }

  method PushKeys(accounts: seq<AccountMeta>, keys: seq<Pubkey>, isSigner: bool) returns (r: seq<AccountMeta>)
    ensures r == accounts + Listed(keys, isSigner)
  {
    r := accounts;
    for i := 0 to |keys|
      invariant r == accounts + Listed(keys, isSigner)[..i]
    {
      r := r + [AccountMeta(keys[i], isSigner, false)];
    }
  }

  /** The fixed accounts, then the authority, which signs by itself only when no signers
      are listed, then the signers. */
  function AuthorityAccounts(fixed: seq<AccountMeta>, authority: Pubkey, signers: seq<Pubkey>): seq<AccountMeta> {
    fixed + [AccountMeta(authority, signers == [], false)] + Listed(signers, true)
  }

  method BuildTransfer(programId: Pubkey, source: Pubkey, dest: Pubkey, authority: Pubkey, signers: seq<Pubkey>,
                       amount: u64)
    returns (r: Result<Call>)
    ensures programId != TOKEN_PROGRAM ==> r == Err(IncorrectProgramId)
    ensures programId == TOKEN_PROGRAM ==>
              && r.Ok? && r.value.programId == programId
              && InstructionCodec.Unpack(r.value.data) == Ok(Transfer(amount))
              && r.value.accounts == AuthorityAccounts([AccountMeta(source, false, true), AccountMeta(dest, false, true)],
                                                       authority, signers)
  {
    if programId != TOKEN_PROGRAM {
      return Err(IncorrectProgramId);
    }
    var data := InstructionCodec.Pack(Transfer(amount));
    InstructionCodec.RoundTrip(Transfer(amount), []);
    assert data + [] == data;
    var accounts := [AccountMeta(source, false, true)];
    accounts := accounts + [AccountMeta(dest, false, true)];
    accounts := accounts + [AccountMeta(authority, signers == [], false)];
    accounts := PushKeys(accounts, signers, true);
    return Ok(Call(programId, accounts, data));
  }

  method BuildInitializeMultisig(programId: Pubkey, multisig: Pubkey, signers: seq<Pubkey>, m: u8)
    returns (r: Result<Call>)
    ensures r.Ok? <==> programId == TOKEN_PROGRAM && MIN_SIGNERS <= m <= |signers| <= MAX_SIGNERS
    ensures r.Err? ==> r.error == if programId != TOKEN_PROGRAM then IncorrectProgramId else MissingRequiredSignature
    ensures r.Ok? ==>
              && r.value.programId == programId
              && InstructionCodec.Unpack(r.value.data) == Ok(InitializeMultisig(m))
              && r.value.accounts
                 == [AccountMeta(multisig, false, true), AccountMeta(RENT_SYSVAR, false, false)] + Listed(signers, false)
              && Seen(r.value.accounts) == SetupMetas(multisig, signers)
  {
    if programId != TOKEN_PROGRAM {
      return Err(IncorrectProgramId);
    }
    if !IsValidSignerIndex(m) || !IsValidSignerIndex(|signers|) || m > |signers| {
      return Err(MissingRequiredSignature);
    }
    var data := InstructionCodec.Pack(InitializeMultisig(m));
    InstructionCodec.RoundTrip(InitializeMultisig(m), []);
    assert data + [] == data;
    var accounts := [AccountMeta(multisig, false, true)];
    accounts := accounts + [AccountMeta(RENT_SYSVAR, false, false)];
    accounts := PushKeys(accounts, signers, false);
    return Ok(Call(programId, accounts, data));
  }

  // What the program makes of them

  /** The positions of a multisig's key list whose keys are among the signers. */
  ghost function Covered(ms: Multisig, signers: seq<Pubkey>): set<nat>
    requires ms.n <= MAX_SIGNERS
  {
    set i: nat | i < ms.n && ms.signers[i] in signers
  }

  /** Whether a built call carries the authority's approval: an ordinary key must have been
      given no signers, a multisig signers for at least m of its positions. */
  ghost predicate Approvable(s: Store, authority: Pubkey, signers: seq<Pubkey>) {
    var c := At(s, authority);
    if c.owner == TOKEN_PROGRAM && c.data.Len() == MULTISIG_LEN then
      && c.data.MultisigData? && c.data.multisig.isInitialized
      && c.data.multisig.n <= MAX_SIGNERS
      && c.data.multisig.m <= |Covered(c.data.multisig, signers)|
    else
      signers == []
  }

  lemma SigningList(key: Pubkey, signers: seq<Pubkey>)
    ensures Present(key, Seen(Listed(signers, true))) <==> key in signers
    ensures !Unsigned(key, Seen(Listed(signers, true)))
  {
    var metas := Seen(Listed(signers, true));
    if key in signers {
      var i :| 0 <= i < |signers| && signers[i] == key;
      assert metas[i].key == key;
    }
  }

  /** The authority check of a built call passes exactly when the call is approvable, given
      the bound on multisig keys that every reachable store keeps. */
  lemma BuiltCallIsApproved(s: Store, fixed: seq<AccountMeta>, authority: Pubkey, signers: seq<Pubkey>)
    requires MultisigAt(s, authority).n <= MAX_SIGNERS
    ensures var metas := Seen(AuthorityAccounts(fixed, authority, signers));
            OwnerOutcome(s, authority, metas[|fixed|], metas[|fixed| + 1..]).Ok? <==> Approvable(s, authority, signers)
  {
    var metas := Seen(AuthorityAccounts(fixed, authority, signers));
    var rest := Seen(Listed(signers, true));
    assert metas[|fixed| + 1..] == rest;
    var ms := MultisigAt(s, authority);
    forall i: nat | i < ms.n
      ensures Present(ms.signers[i], rest) <==> ms.signers[i] in signers
      ensures !Unsigned(ms.signers[i], rest)
    {
      SigningList(ms.signers[i], signers);
    }
    assert Positions(ms, ms.n, rest) == Covered(ms, signers);
  }

  lemma {:induction false} CountAll(ms: Multisig, bound: nat, rest: seq<Meta>)
    requires bound <= ms.n <= MAX_SIGNERS
    requires forall i: nat :: i < ms.n ==> Present(ms.signers[i], rest)
    ensures Count(ms, bound, rest) == bound
  {
    if bound > 0 {
      CountAll(ms, bound - 1, rest);
    }
  }

  /** All keys of a multisig together satisfy it, if its threshold does not exceed their number. */
  lemma AllKeysSatisfy(ms: Multisig, signers: seq<Pubkey>)
    requires ms.m <= ms.n <= MAX_SIGNERS && ms.n == |signers| && signers <= ms.signers
    ensures MultisigOutcome(ms, Seen(Listed(signers, true))).Ok?
  {
    var rest := Seen(Listed(signers, true));
    forall i: nat | i < ms.n
      ensures Present(ms.signers[i], rest) && !Unsigned(ms.signers[i], rest)
    {
      assert ms.signers[i] == signers[i];
      SigningList(ms.signers[i], signers);
    }
    CountAll(ms, ms.n, rest);
    CountIsSize(ms, ms.n, rest);
  }

  /** The account list of a built multisig set-up, as the program sees it. */
  function SetupMetas(multisig: Pubkey, signers: seq<Pubkey>): (metas: seq<Meta>)
    ensures |metas| == 2 + |signers|
    ensures metas[0].key == multisig && metas[1].key == RENT_SYSVAR
    ensures forall i :: 0 <= i < |signers| ==> metas[2 + i].key == signers[i]
  {
    Seen([AccountMeta(multisig, false, true), AccountMeta(RENT_SYSVAR, false, false)] + Listed(signers, false))
  }

  lemma SetupIsAccepted(s: Store, sys: Sysvars, multisig: Pubkey, signers: seq<Pubkey>, m: u8)
    requires IsValidSignerIndex(m) && IsValidSignerIndex(|signers|)
    requires At(s, multisig).data.MultisigData? && !At(s, multisig).data.multisig.isInitialized
    requires sys.rentAccount.Some? && sys.rentAccount.value.minimumBalance(MULTISIG_LEN) <= At(s, multisig).lamports
    ensures DecideInitializeMultisig(s, sys, SetupMetas(multisig, signers), m, true)
         == Ok(MultisigCreated(multisig, m, signers))
  {
    hide SetupMetas;
    var metas := SetupMetas(multisig, signers);
    assert Keys(metas[2..]) == signers;
  }

  lemma CreatedMultisig(s: Store, multisig: Pubkey, signers: seq<Pubkey>, m: u8)
    requires Ready(s, MultisigCreated(multisig, m, signers))
    ensures var ms := MultisigAt(Apply(s, MultisigCreated(multisig, m, signers)), multisig);
            ms.m == m && ms.n == |signers| && signers <= ms.signers
  {
  }

  /** A multisig set up by the builder on a fresh rent-exempt account is accepted, and all of
      its keys together satisfy it. */
  lemma BuiltMultisigValidates(s: Store, sys: Sysvars, multisig: Pubkey, signers: seq<Pubkey>, m: u8)
    requires MIN_SIGNERS <= m <= |signers| <= MAX_SIGNERS
    requires At(s, multisig).data.MultisigData? && !At(s, multisig).data.multisig.isInitialized
    requires sys.rentAccount.Some? && sys.rentAccount.value.minimumBalance(MULTISIG_LEN) <= At(s, multisig).lamports
    ensures var r := DecideInitializeMultisig(s, sys, SetupMetas(multisig, signers), m, true);
            && r.Ok?
            && MultisigOutcome(MultisigAt(Apply(s, r.value), multisig), Seen(Listed(signers, true))).Ok?
  {
    SetupIsAccepted(s, sys, multisig, signers, m);
    CreatedMultisig(s, multisig, signers, m);
    hide MultisigOutcome, SetupMetas, DecideInitializeMultisig, Seen, Listed, Apply, Ready;
    AllKeysSatisfy(MultisigAt(Apply(s, MultisigCreated(multisig, m, signers)), multisig), signers);
  }

  /** The program, unlike the builder, does not compare the threshold with the number of keys:
      of the multisigs it accepts, exactly those with m at most n can ever approve anything. */
  lemma AcceptedMultisigCanApprove(s: Store, sys: Sysvars, multisig: Pubkey, signers: seq<Pubkey>, m: u8)
    requires IsValidSignerIndex(m) && IsValidSignerIndex(|signers|)
    requires At(s, multisig).data.MultisigData? && !At(s, multisig).data.multisig.isInitialized
    requires sys.rentAccount.Some? && sys.rentAccount.value.minimumBalance(MULTISIG_LEN) <= At(s, multisig).lamports
    ensures var r := DecideInitializeMultisig(s, sys, SetupMetas(multisig, signers), m, true);
            && r.Ok?
            && var ms := MultisigAt(Apply(s, r.value), multisig);
            (exists list :: MultisigOutcome(ms, list).Ok?) <==> m <= |signers|
  {
    SetupIsAccepted(s, sys, multisig, signers, m);
    CreatedMultisig(s, multisig, signers, m);
    hide MultisigOutcome, SetupMetas, DecideInitializeMultisig, Seen, Listed, Apply, Ready;
    var ms := MultisigAt(Apply(s, MultisigCreated(multisig, m, signers)), multisig);
    if m <= |signers| {
      AllKeysSatisfy(ms, signers);
    } else {
      forall list
        ensures MultisigOutcome(ms, list).Err?
      {
        ThresholdAboveKeysNeverValidates(ms, list);
      }
    }
  }
}
