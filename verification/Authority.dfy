/** Who may act: single signatures and m-of-n multisignatures. */
module Authority {
  import opened Types
  import opened Ledger

  // What a multisignature asks for

  /** The position of the first entry of `signers` with the given key; |signers| if there is none. */
  function FirstUse(key: Pubkey, signers: seq<Meta>): (j: nat)
    ensures j <= |signers|
    ensures j < |signers| ==> signers[j].key == key
    ensures forall i :: 0 <= i < j ==> signers[i].key != key
  {
    if signers == [] || signers[0].key == key then 0 else 1 + FirstUse(key, signers[1..])
  }

  predicate Present(key: Pubkey, signers: seq<Meta>) {
    FirstUse(key, signers) < |signers|
  }

  /** The key is listed, but its first entry does not sign. */
  predicate Unsigned(key: Pubkey, signers: seq<Meta>) {
    Present(key, signers) && !signers[FirstUse(key, signers)].isSigner
  }

  /** The positions below `bound` of the multisig's key list that occur in `signers`. */
  ghost function Positions(ms: Multisig, bound: nat, signers: seq<Meta>): set<nat>
    requires bound <= MAX_SIGNERS
  {
    set i: nat | i < bound && Present(ms.signers[i], signers)
  }

  /** A signer list satisfies a multisig when no listed key has an unsigned first
      entry and at least m positions of the key list occur. */
  ghost predicate Satisfies(ms: Multisig, signers: seq<Meta>)
    requires ms.n <= MAX_SIGNERS
  {
    && (forall i: nat :: i < ms.n ==> !Unsigned(ms.signers[i], signers))
    && ms.m <= |Positions(ms, ms.n, signers)|
  }

  /** The outcome of checking a signer list against a decoded multisig. A key count
      beyond the array aborts, but only once there is a signer to compare. */
  ghost function MultisigOutcome(ms: Multisig, signers: seq<Meta>): Result<()> {
    if ms.n > MAX_SIGNERS then
      if signers != [] then Err(Panic) else Need(ms.m == 0, MissingRequiredSignature)
    else
      Need(Satisfies(ms, signers), MissingRequiredSignature)
  }

  function UnpackMint(d: Data): Result<Mint> {
    if !d.MintData? then Err(InvalidAccountData)
    else if !d.mint.isInitialized then Err(UninitializedAccount)
    else Ok(d.mint)
  }

  function UnpackAccount(d: Data): Result<Account> {
    if !d.AccountData? then Err(InvalidAccountData)
    else if d.account.state.Uninitialized? then Err(UninitializedAccount)
    else Ok(d.account)
  }

  function UnpackMultisig(d: Data): Result<Multisig> {
    if !d.MultisigData? then Err(InvalidAccountData)
    else if !d.multisig.isInitialized then Err(UninitializedAccount)
    else Ok(d.multisig)
  }

  /** The outcome of requiring that `expected` approves, where `who` is the account
      presented for it and `signers` the accounts that follow. */
  ghost function OwnerOutcome(s: Store, expected: Pubkey, who: Meta, signers: seq<Meta>): Result<()> {
    var _ :- Need(expected == who.key, OwnerMismatch);
    var c := At(s, who.key);
    if c.owner == TOKEN_PROGRAM && c.data.Len() == MULTISIG_LEN then
      var ms :- UnpackMultisig(c.data);
      MultisigOutcome(ms, signers)
    else
      Need(who.isSigner, MissingRequiredSignature)
  }

  /** Some entry of the account list, with the entries after it, approves for `key`. */
  ghost predicate SignedBy(s: Store, metas: seq<Meta>, key: Pubkey) {
    exists j :: 0 <= j < |metas| && OwnerOutcome(s, key, metas[j], metas[j + 1..]).Ok?
  }

  // The matching loop

  /** How many positions below `bound` occur in `signers`, counted one by one. */
  ghost function Count(ms: Multisig, bound: nat, signers: seq<Meta>): (c: nat)
    requires bound <= MAX_SIGNERS
    ensures c <= bound
  {
    if bound == 0 then 0
    else Count(ms, bound - 1, signers) + if Present(ms.signers[bound - 1], signers) then 1 else 0
  }

  lemma {:induction false} CountIsSize(ms: Multisig, bound: nat, signers: seq<Meta>)
    requires bound <= MAX_SIGNERS
    ensures Count(ms, bound, signers) == |Positions(ms, bound, signers)|
  {
    hide Present;
    if bound > 0 {
      CountIsSize(ms, bound - 1, signers);
      var p, q := Positions(ms, bound, signers), Positions(ms, bound - 1, signers);
      assert p == if Present(ms.signers[bound - 1], signers) then q + {bound - 1} else q;
    }
  }

  lemma {:induction false} CountNone(ms: Multisig, bound: nat)
    requires bound <= MAX_SIGNERS
    ensures Count(ms, bound, []) == 0
  {
    if bound > 0 {
      CountNone(ms, bound - 1);
    }
  }

  /** Adding one more entry at the end does not move a first use. */
  lemma {:induction false} FirstUseSnoc(key: Pubkey, signers: seq<Meta>, next: Meta)
    ensures Present(key, signers) ==> FirstUse(key, signers + [next]) == FirstUse(key, signers)
    ensures !Present(key, signers) ==>
              FirstUse(key, signers + [next]) == if next.key == key then |signers| else |signers| + 1
  {
    if signers != [] && signers[0].key != key {
      FirstUseSnoc(key, signers[1..], next);
      assert (signers + [next])[1..] == signers[1..] + [next];
    }
  }

  lemma {:induction false} UnsignedPrefix(key: Pubkey, signers: seq<Meta>, j: nat)
    requires j <= |signers| && Unsigned(key, signers[..j])
    ensures Unsigned(key, signers)
    decreases j
  {
    if signers[0].key != key {
      assert signers[..j][1..] == signers[1..][..j - 1];
      UnsignedPrefix(key, signers[1..], j - 1);
    }
  }

  /** The loop state after the entries `done`: which positions are matched, and how many. */
  ghost predicate Tracks(ms: Multisig, matched: seq<bool>, count: nat, done: seq<Meta>)
    requires ms.n <= MAX_SIGNERS == |matched|
  {
    && count == Count(ms, ms.n, done)
    && (forall i: nat :: i < ms.n ==> (matched[i] <==> Present(ms.signers[i], done)))
    && (forall i: nat :: i < ms.n ==> !Unsigned(ms.signers[i], done))
  }

  /** How many positions below `bound` a new account matches for the first time. */
  ghost function Fresh(ms: Multisig, key: Pubkey, matched: seq<bool>, bound: nat): (c: nat)
    requires bound <= MAX_SIGNERS == |matched|
  {
    if bound == 0 then 0
    else Fresh(ms, key, matched, bound - 1) + if ms.signers[bound - 1] == key && !matched[bound - 1] then 1 else 0
  }

  /** The inner loop: compares one account with every key of the multisig. */
  method MatchRow(ms: Multisig, signer: Meta, matched: array<bool>, numSigners: nat) returns (ok: bool, count: nat)
    requires ms.n <= MAX_SIGNERS == matched.Length
    modifies matched
    ensures ok <==> signer.isSigner || Fresh(ms, signer.key, old(matched[..]), ms.n) == 0
    ensures ok ==> count == numSigners + Fresh(ms, signer.key, old(matched[..]), ms.n)
    ensures ok ==> forall i: nat :: i < ms.n ==> matched[i] == (old(matched[i]) || ms.signers[i] == signer.key)
  {
    ghost var was := matched[..];
    count := numSigners;
    var position := 0;
    while position < ms.n
      invariant 0 <= position <= ms.n
      invariant count == numSigners + Fresh(ms, signer.key, was, position)
      invariant forall i: nat :: i < position ==> matched[i] == (was[i] || ms.signers[i] == signer.key)
      invariant forall i: nat :: position <= i < ms.n ==> matched[i] == was[i]
      invariant !signer.isSigner ==> count == numSigners
    {
      if ms.signers[position] == signer.key && !matched[position] {
        if !signer.isSigner {
          FreshGrows(ms, signer.key, was, position + 1, ms.n);
          return false, count;
        }
        matched[position] := true;
        count := count + 1;
      }
      position := position + 1;
    }
    ok := true;
  }

  lemma {:induction false} FreshGrows(ms: Multisig, key: Pubkey, matched: seq<bool>, low: nat, high: nat)
    requires low <= high <= MAX_SIGNERS == |matched|
    ensures Fresh(ms, key, matched, low) <= Fresh(ms, key, matched, high)
    decreases high
  {
    if low < high {
      FreshGrows(ms, key, matched, low, high - 1);
    }
  }

  /** One row of the loop takes the state after `done` to the state after one more account. */
  lemma RowTracks(ms: Multisig, was: seq<bool>, numSigners: nat, done: seq<Meta>, signer: Meta, matched: seq<bool>)
    requires ms.n <= MAX_SIGNERS == |was| == |matched|
    requires Tracks(ms, was, numSigners, done)
    requires signer.isSigner || Fresh(ms, signer.key, was, ms.n) == 0
    requires forall i: nat :: i < ms.n ==> matched[i] == (was[i] || ms.signers[i] == signer.key)
    ensures Tracks(ms, matched, numSigners + Fresh(ms, signer.key, was, ms.n), done + [signer])
  {
    RowCounts(ms, was, done, signer, ms.n);
    forall i: nat | i < ms.n
      ensures matched[i] <==> Present(ms.signers[i], done + [signer])
      ensures !Unsigned(ms.signers[i], done + [signer])
    {
      FirstUseSnoc(ms.signers[i], done, signer);
      FreshGrows(ms, signer.key, was, i + 1, ms.n);
    }
  }

  lemma {:induction false} RowCounts(ms: Multisig, was: seq<bool>, done: seq<Meta>, signer: Meta, bound: nat)
    requires bound <= ms.n <= MAX_SIGNERS == |was|
    requires forall i: nat :: i < ms.n ==> (was[i] <==> Present(ms.signers[i], done))
    ensures Count(ms, bound, done + [signer]) == Count(ms, bound, done) + Fresh(ms, signer.key, was, bound)
  {
    if bound > 0 {
      RowCounts(ms, was, done, signer, bound - 1);
      FirstUseSnoc(ms.signers[bound - 1], done, signer);
    }
  }

  /** A row that stops at an unsigned account refutes the whole list. */
  lemma RowFails(ms: Multisig, was: seq<bool>, numSigners: nat, done: seq<Meta>, signer: Meta,
                 signers: seq<Meta>, bound: nat)
    requires bound <= ms.n <= MAX_SIGNERS == |was|
    requires Tracks(ms, was, numSigners, done)
    requires |done| < |signers| && signers[..|done|] == done && signers[|done|] == signer
    requires !signer.isSigner && 0 < Fresh(ms, signer.key, was, bound)
    ensures MultisigOutcome(ms, signers) == Err(MissingRequiredSignature)
    decreases bound
  {
    var i := bound - 1;
    if ms.signers[i] == signer.key && !was[i] {
      assert signers[..|done| + 1] == done + [signer];
      FirstUseSnoc(ms.signers[i], done, signer);
      UnsignedPrefix(ms.signers[i], signers, |done| + 1);
    } else {
      RowFails(ms, was, numSigners, done, signer, signers, i);
    }
  }

  /** The loop of the owner check over the accounts, each compared with every key.
      Slicing the key list aborts at the first account when n is beyond the array. */
  method MatchSigners(ms: Multisig, signers: seq<Meta>) returns (r: Result<()>)
    ensures r == MultisigOutcome(ms, signers)
  {
    if ms.n > MAX_SIGNERS {
      return if signers != [] then Err(Panic) else Need(0 >= ms.m, MissingRequiredSignature);
    }
    var numSigners: nat := 0;
    var matched := new bool[11](_ => false);
    CountNone(ms, ms.n);
    var j := 0;
    while j < |signers|
      invariant 0 <= j <= |signers|
      invariant Tracks(ms, matched[..], numSigners, signers[..j])
    {
      ghost var was, done := matched[..], signers[..j];
      var ok, count := MatchRow(ms, signers[j], matched, numSigners);
      if !ok {
        RowFails(ms, was, numSigners, done, signers[j], signers, ms.n);
        return Err(MissingRequiredSignature);
      }
      RowTracks(ms, was, numSigners, done, signers[j], matched[..]);
      assert done + [signers[j]] == signers[..j + 1];
      numSigners := count;
      j := j + 1;
    }
    assert signers[..j] == signers;
    CountIsSize(ms, ms.n, signers);
    return Need(numSigners >= ms.m, MissingRequiredSignature);
  }

  // What follows for every signer list

  /** A threshold above the number of keys can never be met. */
  lemma ThresholdAboveKeysNeverValidates(ms: Multisig, signers: seq<Meta>)
    requires ms.n < ms.m
    ensures MultisigOutcome(ms, signers).Err?
  {
    if ms.n <= MAX_SIGNERS {
      CountIsSize(ms, ms.n, signers);
    }
  }

  /** Every key carries the same signing flag wherever it is listed. */
  ghost predicate UniformFlags(signers: seq<Meta>) {
    forall i, j :: 0 <= i < |signers| && 0 <= j < |signers| && signers[i].key == signers[j].key
                   ==> signers[i].isSigner == signers[j].isSigner
  }

  /** With uniform flags, the outcome depends only on the set of entries: order and
      repetition of the signer list do not matter. */
  lemma OrderAndDuplicatesDoNotMatter(ms: Multisig, signers: seq<Meta>, others: seq<Meta>)
    requires UniformFlags(signers)
    requires forall e :: e in signers <==> e in others
    ensures MultisigOutcome(ms, signers) == MultisigOutcome(ms, others)
  {
    assert signers == [] <==> others == [] by {
      if signers != [] { assert signers[0] in others; }
      if others != [] { assert others[0] in signers; }
    }
    if ms.n <= MAX_SIGNERS {
      forall i: nat | i < ms.n
        ensures Present(ms.signers[i], signers) <==> Present(ms.signers[i], others)
        ensures Unsigned(ms.signers[i], signers) <==> Unsigned(ms.signers[i], others)
      {
        var key := ms.signers[i];
        SameUse(key, signers, others);
        SameUse(key, others, signers);
        if Present(key, signers) && Present(key, others) {
          assert others[FirstUse(key, others)] in signers;
        }
      }
      assert Positions(ms, ms.n, signers) == Positions(ms, ms.n, others);
    }
  }

  lemma SameUse(key: Pubkey, signers: seq<Meta>, others: seq<Meta>)
    requires forall e :: e in signers ==> e in others
    ensures Present(key, signers) ==> Present(key, others)
  {
    if Present(key, signers) {
      assert signers[FirstUse(key, signers)] in others;
    }
  }
}
