# The SPL Token program and the crate ordering script, verified

This project models two programs of the repository in Dafny and proves what they promise.

**The SPL Token program, version 3.3.0.** Its handlers are methods of a class `Accounts` that holds raw accounts
(owner, lamports, bytes). They decode, check, and write bytes and lamports in place. Each is proved to do, byte for
byte and error for error, what a typed transition system decides: `Decide*` maps a store, an account list and an
instruction to an error or an `Event`, and `Apply` maps the event to the new store. Both are proved against a
specification that says, per instruction and field by field, what must be in order, what changes and what an error
means; it is shown to leave nothing open about the new store. Equal keys in an account list alias one cell. Runs
interleave the 21 instructions, committed or rolled back by the runtime's ownership rule, with
arbitrary behaviour of everything else. On these runs the project proves one inductive invariant and, from it,
conservation of supply and of lamports, full backing of wrapped SOL, who must have approved every change, the
ledger of delegate allowances, the inertness of frozen accounts, the permanence of mints and of dropped authorities,
and which overflow checks can never fire. The state and instruction codecs are proved to round trip in both
directions, which carries every theorem over from typed stores to bytes. The vendored 3.1.0 handlers are compared
with the 3.3.0 ones.

**The crate ordering script.** `get_packages` is modelled with its loops and its iteration budget and proved to be a
correct and complete topological sort.

## Layout

| file | holds |
|---|---|
| `Types.dfy`, `Ledger.dfy` | values, account store, totals over it |
| `Authority.dfy` | signatures and multisignatures, with the matching loop |
| `Rules.dfy` | events, decisions and effects |
| `Specification.dfy`, `Conformance.dfy`, `Errors.dfy` | what each instruction asks for, does and reports, and that the program complies |
| `Steps.dfy`, `Frames.dfy` | runs, the invariant, and what an instruction leaves alone |
| `Balances.dfy`, `Permissions.dfy`, `Histories.dfy`, `Availability.dfy`, `Circulation.dfy`, `Aborts.dfy` | what holds of reachable stores, of single instructions and of whole runs |
| `Bytes.dfy`, `StateCodec.dfy`, `InstructionCodec.dfy`, `Layout.dfy`, `Memory.dfy` | codecs, what their bytes are, and the decoder |
| `Processor.dfy`, `Bank.dfy`, `Atomicity.dfy` | the handlers on raw accounts, the runtime around them, failure atomicity |
| `Versions.dfy`, `VendoredProcessor.dfy` | the 3.1.0 handlers and the comparison |
| `Builders.dfy` | client-side builders |
| `CrateGraph.dfy`, `CrateOrder.dfy` | the crate ordering script |

## Assumptions of the model

- A key stands for its 32 bytes read as a little-endian number; equality is all that is used of it.
- The runtime commits an instruction when the handler succeeds and every account whose data changed or whose
  lamports fell belongs to the program; otherwise it rolls back. Writability and executability, which would only
  reject more, are not modelled: what is proved of committed instructions and of runs holds with and without them, and
  `Availability.dfy` speaks of accounts passed as writable.
- Everything else may credit lamports to any account, change accounts of other programs at will, hand zeroed accounts
  to the program, and purge accounts without lamports. It does not debit accounts of the program or write their data,
  and lamports add up to at most 64 bits.
- Rent is any function from data length to a positive number of lamports, and may differ from step to step. The
  sysvar account and the syscall may also fail.
- A transaction that aborts as a whole returns to an earlier store of the run; theorems about a run then apply to the
  run without its instructions.
- An abort of the program (an index or a split out of range) is the error `Panic`.

## Where the code differs from what one would expect

- The checked instructions (tags 12 to 15) split eight bytes off without looking at the length, so a shorter body
  aborts instead of being refused as an invalid instruction (`UnpackAbortsExactly`, `ShortBodyAborts`).
- Setting up a multisig cuts the number of keys to eight bits before checking it. A list of 257 keys, say, passes
  the check and then aborts at the twelfth key (`SetupAbortsExactly`, `ManyKeysAbort`). In reachable stores these two are
  the only aborts (`ProgramAbortsExactly`).
- The multisig check slices the key list once per presented account, so a key count beyond the array goes unnoticed
  when no account is presented (`OwnerCheckAbortsExactly`). No reachable store holds such a multisig.
- Whoever is an account's delegate is treated as the delegate. An owner who approved themself can therefore neither
  transfer nor burn more than the allowance. `ApprovedTransferCommits` and `ApprovedBurnCommits` state exactly when, and
  `OwnerDelegateIsHeldToTheAllowance` shows it in reachable stores.
- Setting up a multisig does not compare the threshold with the number of keys, as the client-side builder does. A
  multisig with m above n is accepted and can never approve anything (`AcceptedMultisigCanApprove`,
  `DeadMultisigNeverApproves`).
- A failing native transfer can leave its source debited. `Process` states exactly when, and `StrandingExists` gives
  an instance in bytes; the runtime's rollback and the bound on lamports both remove it.
- Version 3.1.0 commits one kind of transfer that 3.3.0 refuses. `VersionsAgreeUnlessSlip` states exactly when, by
  what can be read off the store beforehand, and `SlipExists` gives an instance in a reachable store. On destinations and
  mints of the program the versions agree (`OwnedRunsCoincide`).

## Model

| member | source | states |
|---|---|---|
| `Balances.SupplyIsSumOfBalances` | neodyme-workshop/pocs/spl-token-3.3.0/src/processor.rs:80-758 | in every store reachable by any run of the 21 instructions and the environment, with any aliasing of accounts, an ordinary mint's supply equals the sum of the balances of its live accounts |
| `Histories.SupplyLedger` | neodyme-workshop/pocs/spl-token-3.3.0/src/processor.rs:508-650 | over every run, the balances of a mint's accounts change together by exactly what was minted and burned |
| `Balances.WrappedSolIsBacked` | neodyme-workshop/pocs/spl-token-3.3.0/src/processor.rs:110-134 | in every reachable store an account is native exactly when its mint is the native mint, and then its lamports cover its reserve and its whole balance |
| `Balances.WrappedSolIsSolvent` | neodyme-workshop/pocs/spl-token-3.3.0/src/processor.rs:312-322 | in every reachable store all wrapped SOL together is at most the lamports there are |
| `Balances.SyncOnlyRaises` | neodyme-workshop/pocs/spl-token-3.3.0/src/processor.rs:736-758 | in every reachable store SyncNative never ends in Overflow or InvalidState, never lowers a balance, and leaves balance plus reserve equal to the lamports |
| `Balances.AccountsAreWellFormed` | neodyme-workshop/pocs/spl-token-3.3.0/src/processor.rs:110-121 | in every reachable store a live non-native account refers to a live mint of the program, and without a delegate there is no allowance |
| `Balances.TransferNeverOverflows` | neodyme-workshop/pocs/spl-token-3.3.0/src/processor.rs:303-322 | in a reachable store a transfer between accounts of the program never ends in Overflow |
| `Balances.BurnNeverOverflows` | neodyme-workshop/pocs/spl-token-3.3.0/src/processor.rs:637-644 | in a reachable store a burn from an account of the program never ends in Overflow |
| `Balances.CloseNeverOverflows` | neodyme-workshop/pocs/spl-token-3.3.0/src/processor.rs:678-681 | in a reachable store closing never ends in Overflow, whoever owns the destination |
| `Balances.MintOverflowsExactlyOnSupply` | neodyme-workshop/pocs/spl-token-3.3.0/src/processor.rs:507-567 | in a reachable store minting ends in Overflow exactly when mint, destination, decimals and approval are in order and the new supply exceeds 64 bits; the balance never overflows first |
| `Steps.LamportsConserved` | neodyme-workshop/pocs/spl-token-3.3.0/src/processor.rs:299-325 | every event keeps the sum of all lamports, from any store and for every aliasing of its accounts |
| `Steps.EventPreserves` | neodyme-workshop/pocs/spl-token-3.3.0/src/processor.rs:80-758 | every event the runtime lets through keeps the invariant: well-formed cells, live mints behind accounts, supplies equal to sums of balances, lamports within 64 bits |
| `Steps.TransferPreserves` | neodyme-workshop/pocs/spl-token-3.3.0/src/processor.rs:217-328 | a committed transfer keeps the invariant |
| `Steps.MintPreserves` | neodyme-workshop/pocs/spl-token-3.3.0/src/processor.rs:507-567 | a committed mint keeps the invariant |
| `Steps.BurnPreserves` | neodyme-workshop/pocs/spl-token-3.3.0/src/processor.rs:569-650 | a committed burn keeps the invariant |
| `Steps.ClosePreserves` | neodyme-workshop/pocs/spl-token-3.3.0/src/processor.rs:652-688 | a committed close keeps the invariant |
| `Steps.CreateMintPreserves` | neodyme-workshop/pocs/spl-token-3.3.0/src/processor.rs:25-58 | creating a mint keeps the invariant: the supply left in place by initialization is zero and no account refers to the mint yet |
| `Steps.LocalPreserves` | neodyme-workshop/pocs/spl-token-3.3.0/src/processor.rs:80-215 | every event that writes at most one cell and no mint supply keeps the invariant |
| `Steps.TransferOwns` | neodyme-workshop/pocs/spl-token-3.3.0/src/processor.rs:292-295 | a committed transfer is between accounts of the program, by the runtime's rule when something moves and by the explicit check when nothing does |
| `Steps.ElsewherePreserves` | neodyme-workshop/pocs/solana-1.11.2/program-runtime/src/pre_account.rs:41-99 | what other programs and the runtime may do to the accounts keeps the invariant |
| `Steps.RunIsConsistent` | neodyme-workshop/pocs/spl-token-3.3.0/src/processor.rs:761-861 | the invariant holds in every state of every run |
| `Steps.ReachableIsConsistent` | neodyme-workshop/pocs/spl-token-3.3.0/src/processor.rs:761-861 | the invariant holds in every reachable store |
| `Frames.UnnamedIsUntouched` | neodyme-workshop/pocs/spl-token-3.3.0/src/processor.rs:761-861 | none of the 21 instructions changes anything about an account that is not in its account list |
| `Frames.ExecuteKeepsOwner` | neodyme-workshop/pocs/spl-token-3.3.0/src/processor.rs:761-861 | no instruction changes which program owns an account |
| `Frames.ForeignOnlyGains` | neodyme-workshop/pocs/solana-1.11.2/program-runtime/src/pre_account.rs:55-99 | an account of another program keeps its data and loses no lamports |
| `Circulation.EverySupplyIsReachable` | neodyme-workshop/pocs/spl-token-3.3.0/src/processor.rs:25-163 | every 64-bit supply is reached by a run that creates a mint, opens two accounts and mints into one of them |
| `Circulation.EveryApprovalIsReachable` | neodyme-workshop/pocs/spl-token-3.3.0/src/processor.rs:330-379 | so is every approval by that account's owner: any delegate, the owner included, and any allowance |
| `Circulation.FrozenIsReachable` | neodyme-workshop/pocs/spl-token-3.3.0/src/processor.rs:690-733 | frozen accounts with any balance are reachable |
| `Availability.ApprovedTransferCommits` | neodyme-workshop/pocs/spl-token-3.3.0/src/processor.rs:217-328 | in every reachable store an owner's transfer within the balance, between different unfrozen accounts of one mint, commits if and only if the owner is not the delegate or stays within the allowance; it is then booked on the allowance exactly when the owner is the delegate |
| `Availability.ApprovedBurnCommits` | neodyme-workshop/pocs/spl-token-3.3.0/src/processor.rs:569-650 | the same of burning from an ordinary account: an owner's burn within the balance commits if and only if the owner is not the delegate or stays within the allowance |
| `Availability.OwnerDelegateIsHeldToTheAllowance` | neodyme-workshop/pocs/spl-token-3.3.0/src/processor.rs:263-273 | reachable stores where the other case arises, for all numbers: an owner who approved themself, holds the balance and signs gets InsufficientFunds above the allowance, transferring or burning |
| `Availability.WrappedSolCanBeUnwrapped` | neodyme-workshop/pocs/spl-token-3.3.0/src/processor.rs:652-688 | in every reachable store closing a native account with its closer's approval, to any other account, commits and hands over at least balance and reserve |
| `Availability.ApprovedFreezeCommits` | neodyme-workshop/pocs/spl-token-3.3.0/src/processor.rs:692-733 | in every reachable store freezing an initialized ordinary account with its mint's freeze authority's approval commits, and changes nothing about the account but its state |
| `Availability.ApprovedThawCommits` | neodyme-workshop/pocs/spl-token-3.3.0/src/processor.rs:692-733 | in every reachable store thawing a frozen account with its mint's freeze authority's approval commits and makes the account usable |
| `Conformance.CommitsExactly` | neodyme-workshop/pocs/spl-token-3.3.0/src/processor.rs:761-861 | from any store, an instruction commits if and only if everything it asks for is in order, stated account by account without order or events, and the runtime lets its stated effect through; then the new store has that effect, and otherwise nothing changes |
| `Conformance.SucceedsExactly` | neodyme-workshop/pocs/spl-token-3.3.0/src/processor.rs:761-861 | each of the 21 handlers succeeds if and only if account list, records, states, amounts, owners and the approval of the right key are in order |
| `Conformance.SuccessHasEffect` | neodyme-workshop/pocs/spl-token-3.3.0/src/processor.rs:761-861 | every success has the effect stated for its instruction, field by field, and touches nothing else |
| `Conformance.EffectIsComplete` | neodyme-workshop/pocs/spl-token-3.3.0/src/processor.rs:761-861 | the stated effects leave nothing open: two stores with the effect of an instruction agree on every account |
| `Conformance.TransferHasEffect` | neodyme-workshop/pocs/spl-token-3.3.0/src/processor.rs:217-328 | exactly the amount leaves the source and reaches the destination, with the lamports if native; the allowance shrinks by it, and the delegate goes with the last of it, exactly when the delegate is presented; a transfer to itself changes nothing |
| `Conformance.IssueHasEffect` | neodyme-workshop/pocs/spl-token-3.3.0/src/processor.rs:507-567 | supply and destination grow by exactly the amount |
| `Conformance.DestroyHasEffect` | neodyme-workshop/pocs/spl-token-3.3.0/src/processor.rs:569-650 | supply and source shrink by exactly the amount, and the allowance as in a transfer |
| `Conformance.ApproveHasEffect` | neodyme-workshop/pocs/spl-token-3.3.0/src/processor.rs:330-379 | delegate and allowance become those requested, replacing what was there |
| `Conformance.RevokeHasEffect` | neodyme-workshop/pocs/spl-token-3.3.0/src/processor.rs:381-407 | delegate and allowance are cleared |
| `Conformance.AuthorityHasEffect` | neodyme-workshop/pocs/spl-token-3.3.0/src/processor.rs:409-505 | the authority of the requested kind becomes the requested one; a new owner also clears delegate, allowance and, on a native account, close authority |
| `Conformance.CloseHasEffect` | neodyme-workshop/pocs/spl-token-3.3.0/src/processor.rs:652-688 | all lamports go to the destination, the source is left with none and with zeroed data |
| `Conformance.ToggleHasEffect` | neodyme-workshop/pocs/spl-token-3.3.0/src/processor.rs:690-733 | freezing sets Frozen and thawing Initialized, and nothing else changes |
| `Conformance.SyncHasEffect` | neodyme-workshop/pocs/spl-token-3.3.0/src/processor.rs:735-758 | the balance becomes what the lamports exceed the reserve by |
| `Conformance.CreateHasEffect` | neodyme-workshop/pocs/spl-token-3.3.0/src/processor.rs:25-58 | a mint gets the requested authorities and decimals; its supply stays as it was |
| `Conformance.OpenHasEffect` | neodyme-workshop/pocs/spl-token-3.3.0/src/processor.rs:80-137 | an account gets the listed mint and owner; a native one has the reserve set aside and the remaining lamports as balance, any other is empty |
| `Conformance.MultisigHasEffect` | neodyme-workshop/pocs/spl-token-3.3.0/src/processor.rs:165-205 | a multisig gets the threshold and the listed keys in order |
| `Errors.ErrorsAreTruthful` | neodyme-workshop/pocs/spl-token-3.3.0/src/processor.rs:761-861 | whatever error an instruction reports from any store, what it complains about really is wrong, and no instruction reports an error that cannot concern it |
| `Permissions.AccountChangesAreApproved` | neodyme-workshop/pocs/spl-token-3.3.0/src/processor.rs:217-733 | one instruction on a reachable store lowers a balance only with the approval of the owner, of the delegate within the allowance, or, closing a native account, of the closer; the delegate changes only with the owner's approval, or is dropped with its own once nothing is left; the allowance changes only with the owner's approval, or falls with the delegate's by exactly what leaves the account; the close authority changes only with the closer's approval, or is cleared on a native account with the owner's; owner and frozen state change only with the approval of the owner and of the mint's freeze authority, respectively; mint and nativeness never change; an account is closed only with its closer's approval and, unless native, empty |
| `Permissions.MintChangesAreApproved` | neodyme-workshop/pocs/spl-token-3.3.0/src/processor.rs:464-499 | one instruction leaves a live mint live with its decimals, and raises its supply or changes its authorities only with the approval of the authority in place |
| `Permissions.ApprovalCarriesSignatures` | neodyme-workshop/pocs/spl-token-3.3.0/src/processor.rs:879-913 | in a reachable store an approval means that the key itself signs, or that it is an initialized multisig of the program and keys at m or more different positions, m being at least one, sign |
| `Rules.DecidedIsApproved` | neodyme-workshop/pocs/spl-token-3.3.0/src/processor.rs:761-861 | whatever an instruction decides rests on the approval its event needs |
| `Histories.AllowanceLedger` | neodyme-workshop/pocs/spl-token-3.3.0/src/processor.rs:263-290 | between two resets of an account's allowance, the allowance left plus everything moved to other accounts or burned through the delegate equals the allowance at the start, and the delegate stays the same until it is dropped |
| `Histories.ApprovalIsALimit` | neodyme-workshop/pocs/spl-token-3.3.0/src/processor.rs:373-376 | after Approve of an amount, and until the next reset, allowance left plus amounts spent through the delegate equals that amount; all of it is spent once the delegate is gone |
| `Histories.FrozenIsInert` | neodyme-workshop/pocs/spl-token-3.3.0/src/processor.rs:240-242 | over every run a frozen account does not change at all until it is thawed or closed |
| `Histories.FrozenClosesEmpty` | neodyme-workshop/pocs/spl-token-3.3.0/src/processor.rs:664-666 | a frozen account is never native and is closed only with a zero balance |
| `Histories.MintsLast` | neodyme-workshop/pocs/spl-token-3.3.0/src/processor.rs:464-499 | over every run a live mint stays live with its decimals; without a mint authority it never gets one and its supply never grows; without a freeze authority it never gets one |
| `Histories.NoFreezingWithoutAuthority` | neodyme-workshop/pocs/spl-token-3.3.0/src/processor.rs:713-728 | once a mint has no freeze authority, no step of the run freezes or thaws an account of it |
| `Histories.AccountsKeepTheirMint` | neodyme-workshop/pocs/spl-token-3.3.0/src/processor.rs:117-121 | over every run an account stays live and keeps its mint until it is closed |
| `Histories.CheckedDecimalsAreOriginal` | neodyme-workshop/pocs/spl-token-3.3.0/src/processor.rs:250-259 | whenever a checked transfer, mint or burn moves tokens of a mint, the decimals it insisted on are those the mint had at any earlier point of the run |
| `Histories.MultisigsLast` | neodyme-workshop/pocs/spl-token-3.3.0/src/processor.rs:165-205 | over every run an initialized multisig of the program never changes |
| `Histories.DeadMultisigNeverApproves` | neodyme-workshop/pocs/spl-token-3.3.0/src/processor.rs:905-907 | one whose threshold exceeds its number of keys approves nothing in any later store, whatever accounts are presented |
| `Rules.DecideInitializeMint` | neodyme-workshop/pocs/spl-token-3.3.0/src/processor.rs:25-58 | success means an uninitialized mint buffer with lamports |
| `Rules.DecideInitializeAccount` | neodyme-workshop/pocs/spl-token-3.3.0/src/processor.rs:80-137 | success means an uninitialized account with lamports, a live mint unless it is the native one, and a reserve, exactly for the native mint, within the lamports |
| `Rules.DecideInitializeMultisig` | neodyme-workshop/pocs/spl-token-3.3.0/src/processor.rs:165-205 | success means an uninitialized multisig with lamports and between 1 and 11 keys and required signers |
| `Rules.DecideSpend` | neodyme-workshop/pocs/spl-token-3.3.0/src/processor.rs:263-290 | success means the approval of the delegate within its allowance if the delegate is the one presented, and of the owner otherwise; the result says which |
| `Rules.DecideTransfer` | neodyme-workshop/pocs/spl-token-3.3.0/src/processor.rs:217-328 | success means unfrozen accounts of one mint, funds, allowance and 64-bit results, and program ownership when nothing moves |
| `Rules.DecideMove` | neodyme-workshop/pocs/spl-token-3.3.0/src/processor.rs:292-325 | the end of a transfer fails with IncorrectProgramId exactly when nothing moves and an account is foreign, with Overflow exactly when a balance or the lamports of a native transfer do not fit, and in no other way |
| `Rules.DecideApprove` | neodyme-workshop/pocs/spl-token-3.3.0/src/processor.rs:330-379 | success means an unfrozen account and the owner's approval |
| `Rules.DecideRevoke` | neodyme-workshop/pocs/spl-token-3.3.0/src/processor.rs:381-407 | success means an unfrozen account and the owner's approval |
| `Rules.DecideSetAuthority` | neodyme-workshop/pocs/spl-token-3.3.0/src/processor.rs:409-505 | success means an unfrozen account, or a mint whose authority of that kind is still set |
| `Rules.DecideMintTo` | neodyme-workshop/pocs/spl-token-3.3.0/src/processor.rs:507-567 | success means a mint with an approving authority, an unfrozen ordinary account of it and 64-bit results |
| `Rules.DecideBurn` | neodyme-workshop/pocs/spl-token-3.3.0/src/processor.rs:569-650 | success means an unfrozen ordinary account with funds and allowance and a supply that covers the amount |
| `Rules.DecideCloseAccount` | neodyme-workshop/pocs/spl-token-3.3.0/src/processor.rs:652-688 | success means a different destination with room for the lamports, an empty or native account and its closer's approval |
| `Rules.DecideToggleFreeze` | neodyme-workshop/pocs/spl-token-3.3.0/src/processor.rs:690-733 | success means an ordinary account in the other state and the approval of its mint's freeze authority |
| `Rules.DecideSyncNative` | neodyme-workshop/pocs/spl-token-3.3.0/src/processor.rs:735-758 | success means a native account of the program whose lamports cover reserve and balance |
| `Rules.Decide` | neodyme-workshop/pocs/spl-token-3.3.0/src/processor.rs:760-861 | every instruction's success enables the event it stands for |
| `Authority.MatchRow` | neodyme-workshop/pocs/spl-token-3.3.0/src/processor.rs:895-903 | one row of the nested loop marks exactly the positions whose key is the account's, counts the new ones, and stops exactly at a new unsigned match |
| `Authority.MatchSigners` | neodyme-workshop/pocs/spl-token-3.3.0/src/processor.rs:891-908 | the nested loop yields success exactly when no position below n has an unsigned first occurrence and at least m positions occur; with n beyond the key array it aborts exactly when there is an account to compare |
| `Authority.ThresholdAboveKeysNeverValidates` | neodyme-workshop/pocs/spl-token-3.3.0/src/processor.rs:905-907 | a multisig with m above n never validates |
| `Authority.OrderAndDuplicatesDoNotMatter` | neodyme-workshop/pocs/spl-token-3.3.0/src/processor.rs:894-904 | with uniform signing flags per key, the outcome depends only on the set of listed accounts |
| `Processor.Accounts.ValidateOwner` | neodyme-workshop/pocs/spl-token-3.3.0/src/processor.rs:878-913 | the owner check on raw accounts has the outcome the typed rules define |
| `Processor.Accounts.ProcessInitializeMint` | neodyme-workshop/pocs/spl-token-3.3.0/src/processor.rs:25-58 | on raw bytes, has exactly the decided effect or error; a success leaves a mint with the requested authorities and decimals |
| `Processor.Accounts.ProcessInitializeAccount` | neodyme-workshop/pocs/spl-token-3.3.0/src/processor.rs:80-137 | on raw bytes, has exactly the decided effect or error; a success leaves an account with the listed mint and owner and, if native, reserve and balance; the native subtraction never underflows |
| `Processor.Accounts.FillSigners` | neodyme-workshop/pocs/spl-token-3.3.0/src/processor.rs:197-199 | writes the listed keys over the front of the key array, and aborts exactly when they do not fit |
| `Processor.Accounts.ProcessInitializeMultisig` | neodyme-workshop/pocs/spl-token-3.3.0/src/processor.rs:165-205 | on raw bytes, has exactly the decided effect or error, including the abort after the key count was cut to eight bits; a success leaves the threshold and the listed keys |
| `Processor.Accounts.AuthorizeSpend` | neodyme-workshop/pocs/spl-token-3.3.0/src/processor.rs:263-290 | yields the account with the allowance the rules leave, or the decided error |
| `Processor.Accounts.MoveLamports` | neodyme-workshop/pocs/spl-token-3.3.0/src/processor.rs:312-322 | moves lamports, or fails untouched, or fails with only the source debited, exactly by which check fails |
| `Processor.Accounts.Settle` | neodyme-workshop/pocs/spl-token-3.3.0/src/processor.rs:303-325 | writes both records and the lamports of a transfer, or leaves the stranded debit |
| `Processor.Accounts.CompleteTransfer` | neodyme-workshop/pocs/spl-token-3.3.0/src/processor.rs:292-328 | ends a transfer as decided unless the destination has no room for the lamports; exactly the amount leaves the source and reaches the destination |
| `Processor.Accounts.ProcessTransfer` | neodyme-workshop/pocs/spl-token-3.3.0/src/processor.rs:217-328 | on raw bytes, has exactly the decided effect or error, and a success moves exactly the amount; the one partial effect is the stranded debit, whose condition is exact |
| `Processor.Accounts.ProcessApprove` | neodyme-workshop/pocs/spl-token-3.3.0/src/processor.rs:330-379 | on raw bytes, has exactly the decided effect or error; a success sets delegate and allowance |
| `Processor.Accounts.ProcessRevoke` | neodyme-workshop/pocs/spl-token-3.3.0/src/processor.rs:381-407 | on raw bytes, has exactly the decided effect or error; a success clears delegate and allowance |
| `Processor.Accounts.ProcessSetAuthority` | neodyme-workshop/pocs/spl-token-3.3.0/src/processor.rs:409-505 | on raw bytes, has exactly the decided effect or error; a success sets the requested authority |
| `Processor.Accounts.ProcessMintTo` | neodyme-workshop/pocs/spl-token-3.3.0/src/processor.rs:507-567 | on raw bytes, has exactly the decided effect or error; a success adds exactly the amount to supply and destination |
| `Processor.Accounts.ProcessBurn` | neodyme-workshop/pocs/spl-token-3.3.0/src/processor.rs:569-650 | on raw bytes, has exactly the decided effect or error; a success takes exactly the amount from supply and source |
| `Processor.Accounts.ProcessCloseAccount` | neodyme-workshop/pocs/spl-token-3.3.0/src/processor.rs:652-688 | on raw bytes, has exactly the decided effect or error; a success pays out all lamports, and the wiped bytes decode to the zero account |
| `Processor.Accounts.ProcessToggleFreezeAccount` | neodyme-workshop/pocs/spl-token-3.3.0/src/processor.rs:690-733 | on raw bytes, has exactly the decided effect or error; a success sets Frozen or Initialized as asked |
| `Processor.Accounts.ProcessSyncNative` | neodyme-workshop/pocs/spl-token-3.3.0/src/processor.rs:735-758 | on raw bytes, has exactly the decided effect or error; a success sets the balance to what the lamports exceed the reserve by |
| `Processor.Accounts.Process` | neodyme-workshop/pocs/spl-token-3.3.0/src/processor.rs:760-861 | from instruction bytes and raw accounts, has exactly the decided effect or error, and a success has the effect stated for the decoded instruction; a failure leaves every account unchanged if and only if no debit is stranded, and a stranded one fails with Overflow and takes exactly the amount from the source |
| `Processor.StrandedIsOverflow` | neodyme-workshop/pocs/spl-token-3.3.0/src/processor.rs:313-322 | the guards that define a stranded debit (accounts, funds, mint and approval in order, no room at the destination) hold exactly when the transfer is decided as Overflow for want of room |
| `Processor.Accounts.CheckAccountOwner` | neodyme-workshop/pocs/spl-token-3.3.0/src/processor.rs:863-870 | compares the raw account's owner with the program |
| `Atomicity.PairsFitNeverStrand` | neodyme-workshop/pocs/spl-token-3.3.0/src/processor.rs:312-322 | where any two accounts' lamports fit 64 bits together, nothing is stranded, so every failure is atomic |
| `Atomicity.ReachablePairsFit` | neodyme-workshop/pocs/spl-token-3.3.0/src/processor.rs:312-322 | in every reachable store any two accounts' lamports fit |
| `Atomicity.StrandingExists` | neodyme-workshop/pocs/spl-token-3.3.0/src/processor.rs:313-321 | without the bound, there are raw accounts and instruction bytes on which Process strands a debit |
| `Aborts.ProgramAbortsExactly` | neodyme-workshop/pocs/spl-token-3.3.0/src/processor.rs:761-861 | in every reachable store the program aborts if and only if the input is a checked instruction of fewer than nine bytes, or a multisig setup in order but for more than 11 keys whose number modulo 256 is between 1 and 11 |
| `Aborts.UnpackAbortsExactly` | neodyme-workshop/pocs/spl-token-3.3.0/src/instruction.rs:465-508 | decoding aborts exactly on tags 12 to 15 with fewer than eight bytes behind them |
| `Aborts.SetupAbortsExactly` | neodyme-workshop/pocs/spl-token-3.3.0/src/processor.rs:165-205 | setting up a multisig aborts exactly when every other check passes and the keys do not fit although their number, cut to eight bits, does |
| `Aborts.OwnerCheckAbortsExactly` | neodyme-workshop/pocs/spl-token-3.3.0/src/processor.rs:885-908 | the owner check aborts exactly on an initialized multisig of the program with a key count beyond the array and some account to compare |
| `Aborts.DecisionAborts` | neodyme-workshop/pocs/spl-token-3.3.0/src/processor.rs:761-861 | under the invariant only multisig setup can abort once the input is decoded |
| `Aborts.ShortBodyAborts` | neodyme-workshop/pocs/spl-token-3.3.0/src/instruction.rs:465-508 | the one-byte input 12 aborts where 3 is refused |
| `Aborts.ManyKeysAbort` | neodyme-workshop/pocs/spl-token-3.3.0/src/processor.rs:183-199 | in a reachable store, setting up a multisig with 257 keys aborts |
| `Bank.AcceptsAgree` | neodyme-workshop/pocs/solana-1.11.2/program-runtime/src/pre_account.rs:55-99 | for what the handlers write, the runtime's rule on bytes and the rule on decoded values agree |
| `Bank.Run` | neodyme-workshop/pocs/solana-1.11.2/program-runtime/src/pre_account.rs:30-99 | running an instruction on raw accounts is a step of a run on bytes: it commits if and only if the input decodes, everything is in order and the runtime lets the effect through, then has the stated effect, rolls back everything else, and keeps the invariant and the sum of lamports |
| `Bank.SettledIsExecuted` | neodyme-workshop/pocs/solana-1.11.2/program-runtime/src/pre_account.rs:30-99 | whatever the program left in the bytes, committing or rolling back by the rule on bytes decodes to what the typed ledger executes, a stranded debit included |
| `Bank.RawElsewhereLifts` | neodyme-workshop/pocs/solana-1.11.2/program-runtime/src/pre_account.rs:41-99 | what may happen to raw accounts outside the program is what may happen to the typed store |
| `Bank.RawRunLifts` | neodyme-workshop/pocs/spl-token-3.3.0/src/processor.rs:761-861 | every run on bytes, whose instruction steps are the program's writes followed by the runtime's rule on bytes, decodes to a run of the typed ledger |
| `Bank.RawRunIsReachable` | neodyme-workshop/pocs/spl-token-3.3.0/src/processor.rs:761-861 | the accounts at the end of every run on bytes decode to a reachable store, so all theorems about reachable stores hold of them |
| `StateCodec.KeyOptionRoundTrip` | neodyme-workshop/pocs/spl-token-3.3.0/src/state.rs:249-268 | an optional key packed over any bytes is read back; packing what is there changes nothing, although None leaves the body untouched |
| `StateCodec.U64OptionRoundTrip` | neodyme-workshop/pocs/spl-token-3.3.0/src/state.rs:269-288 | the same for an optional number |
| `StateCodec.MintRoundTrip` | neodyme-workshop/pocs/spl-token-3.3.0/src/state.rs:36-81 | a mint packed over any buffer is read back, and packing what a buffer holds leaves it byte-identical |
| `StateCodec.AccountRoundTrip` | neodyme-workshop/pocs/spl-token-3.3.0/src/state.rs:123-172 | a token account packed over any buffer is read back |
| `StateCodec.AccountRepack` | neodyme-workshop/pocs/spl-token-3.3.0/src/state.rs:123-172 | packing the account a buffer holds leaves it byte-identical |
| `StateCodec.MultisigRoundTrip` | neodyme-workshop/pocs/spl-token-3.3.0/src/state.rs:213-246 | a multisig is read back from its bytes |
| `StateCodec.MultisigRepack` | neodyme-workshop/pocs/spl-token-3.3.0/src/state.rs:213-246 | packing the multisig a buffer holds leaves it byte-identical |
| `StateCodec.WriteKeyOption` | neodyme-workshop/pocs/spl-token-3.3.0/src/state.rs:249-260 | writes an optional key in place |
| `StateCodec.WriteU64Option` | neodyme-workshop/pocs/spl-token-3.3.0/src/state.rs:269-280 | writes an optional number in place |
| `StateCodec.PackMint` | neodyme-workshop/pocs/spl-token-3.3.0/src/state.rs:59-80 | writes a mint in place, and refuses a buffer of another length untouched |
| `StateCodec.PackAccount` | neodyme-workshop/pocs/spl-token-3.3.0/src/state.rs:141-171 | writes a token account in place, and refuses a buffer of another length untouched |
| `StateCodec.PackMultisig` | neodyme-workshop/pocs/spl-token-3.3.0/src/state.rs:234-245 | writes a multisig in place, its keys in a loop, and refuses a buffer of another length untouched |
| `Memory.DecodePackedMint` | neodyme-workshop/pocs/solana-1.11.2/sdk/program/src/program_pack.rs:28-57 | through the length-checked decoder, a packed mint is that mint, and repacking changes no byte |
| `Memory.DecodePackedAccount` | neodyme-workshop/pocs/solana-1.11.2/sdk/program/src/program_pack.rs:28-57 | the same for token accounts |
| `Memory.DecodePackedMultisig` | neodyme-workshop/pocs/solana-1.11.2/sdk/program/src/program_pack.rs:28-57 | the same for multisigs |
| `Memory.ZeroDecodes` | neodyme-workshop/pocs/spl-token-3.3.0/src/state.rs:290-333 | a zeroed buffer decodes to a zeroed, uninitialized value, whatever its length |
| `InstructionCodec.RoundTrip` | neodyme-workshop/pocs/spl-token-3.3.0/src/instruction.rs:415-662 | every instruction is read back from its encoding, whatever bytes follow |
| `InstructionCodec.AcceptedStartsWithPacked` | neodyme-workshop/pocs/spl-token-3.3.0/src/instruction.rs:415-534 | every accepted byte string starts with the encoding of the instruction it yields |
| `InstructionCodec.PrefixFree` | neodyme-workshop/pocs/spl-token-3.3.0/src/instruction.rs:537-630 | no encoding starts with another: encodings are injective and prefix free |
| `InstructionCodec.PackOption` | neodyme-workshop/pocs/spl-token-3.3.0/src/instruction.rs:654-662 | appends an optional key |
| `InstructionCodec.Pack` | neodyme-workshop/pocs/spl-token-3.3.0/src/instruction.rs:537-630 | appending field by field yields the encoding |
| `Layout.WireFormat` | neodyme-workshop/pocs/spl-token-3.3.0/src/instruction.rs:537-630 | the encoding of an instruction is the one byte string with its tag number, its authority kind number, amounts and keys in base 256 with the least significant byte first, and optional keys behind a 0 or 1, each at its position |
| `Layout.DecodesExactly` | neodyme-workshop/pocs/spl-token-3.3.0/src/instruction.rs:415-534 | input is taken for an instruction if and only if it starts with that instruction in the wire format |
| `Layout.MintLayout` | neodyme-workshop/pocs/spl-token-3.3.0/src/state.rs:36-81 | a packed mint is the one 82-byte string with each field at its position, tags of 1 or 0 in four bytes, and absent keys leaving the old bytes |
| `Layout.AccountLayout` | neodyme-workshop/pocs/spl-token-3.3.0/src/state.rs:123-172 | the same for the 165 bytes of a token account, its state as 0, 1 or 2 |
| `Layout.MultisigLayout` | neodyme-workshop/pocs/spl-token-3.3.0/src/state.rs:213-246 | the same for the 355 bytes of a multisig |
| `Layout.RecordsReadExactly` | neodyme-workshop/pocs/spl-token-3.3.0/src/state.rs:36-246 | bytes of the right length are read as a record if and only if they lay it out |
| `Layout.DigitOf` | neodyme-workshop/pocs/spl-token-3.3.0/src/instruction.rs:548-560 | byte j of an encoded number n is n / 256^j modulo 256 |
| `Builders.BuildTransfer` | neodyme-workshop/pocs/spl-token-3.3.0/src/instruction.rs:889-917 | the built call is for the given program, decodes to the transfer, lists its accounts in order with their writable flags, and marks the authority as signer exactly when no signers are given; another program is refused |
| `Builders.BuildInitializeMultisig` | neodyme-workshop/pocs/spl-token-3.3.0/src/instruction.rs:830-858 | a call is built exactly for the program itself and 1 <= m <= n <= 11, with the multisig writable, the rent sysvar and the keys; otherwise the error says whether the program or the numbers are wrong |
| `Builders.BuiltCallIsApproved` | neodyme-workshop/pocs/spl-token-3.3.0/src/instruction.rs:902-910 | the owner check of a built call passes exactly when an ordinary authority was given no signers, or a multisig authority signers for at least m of its positions |
| `Builders.BuiltMultisigValidates` | neodyme-workshop/pocs/spl-token-3.3.0/src/instruction.rs:838-851 | a multisig set up by the builder on a fresh rent-exempt account is accepted, and all its keys together satisfy it |
| `Builders.AcceptedMultisigCanApprove` | neodyme-workshop/pocs/spl-token-3.3.0/src/processor.rs:189-199 | the program accepts every m and n between 1 and 11, and some account list satisfies the new multisig if and only if m is at most n |
| `Versions.OldMove` | neodyme-workshop/contracts/level4/vendored-spl-token-3.1.0/src/processor.rs:226-257 | the end of a transfer in the older version fails exactly when a balance or the lamports of a native transfer do not fit, always with Overflow |
| `Versions.OldTransfer` | neodyme-workshop/contracts/level4/vendored-spl-token-3.1.0/src/processor.rs:151-257 | the older transfer succeeds only in a state the event makes sense in |
| `Versions.OldMintTo` | neodyme-workshop/contracts/level4/vendored-spl-token-3.1.0/src/processor.rs:428-483 | the older mint succeeds only in a state the event makes sense in |
| `Versions.OldBurn` | neodyme-workshop/contracts/level4/vendored-spl-token-3.1.0/src/processor.rs:485-561 | the older burn succeeds only in a state the event makes sense in |
| `Versions.NewerNarrowsOlder` | neodyme-workshop/contracts/level4/vendored-spl-token-3.1.0/src/processor.rs:151-641 | for transfer, approve, revoke, mint, burn, freeze and thaw, from any store, the newer version gives the older one's error, or its event if the newer owner checks pass and IncorrectProgramId if not |
| `Versions.OldMeetsSpecification` | neodyme-workshop/contracts/level4/vendored-spl-token-3.1.0/src/processor.rs:151-641 | the older version succeeds if and only if everything but the owner checks is in order, and then has the same stated effect |
| `Versions.VersionsAgreeUnlessSlip` | neodyme-workshop/contracts/level4/vendored-spl-token-3.1.0/src/processor.rs:197-257 | from any store, both versions lead to the same committed store if and only if the call does not meet guards that can be read off the store beforehand: it transfers or burns nothing, between usable accounts of one mint (or an account and its mint), from an account of the program against a foreign one, approved by a delegate with no allowance |
| `Versions.GuardIsSlip` | neodyme-workshop/contracts/level4/vendored-spl-token-3.1.0/src/processor.rs:151-561 | those guards hold exactly when the older handler succeeds with such an event |
| `Versions.ReachableBurnsNeverSlip` | neodyme-workshop/contracts/level4/vendored-spl-token-3.1.0/src/processor.rs:520-561 | in reachable stores only a transfer, never a burn, meets the guards |
| `Versions.SlipExists` | neodyme-workshop/contracts/level4/vendored-spl-token-3.1.0/src/processor.rs:197-257 | such a transfer exists in a reachable store |
| `Versions.RunsCoincide` | neodyme-workshop/contracts/level4/vendored-spl-token-3.1.0/src/processor.rs:643-724 | the versions are in the same store after every call of a run of the shared instructions if and only if no call of the newer version's run meets the guards |
| `Versions.OwnedRunsCoincide` | neodyme-workshop/contracts/level4/vendored-spl-token-3.1.0/src/processor.rs:643-724 | they stay in the same store throughout if the program owns, in the start store, every destination and mint the transfers and burns of the run name |
| `VendoredProcessor.OldCompleteTransfer` | neodyme-workshop/contracts/level4/vendored-spl-token-3.1.0/src/processor.rs:226-257 | ends the older transfer as decided unless the destination has no room for the lamports; exactly the amount leaves the source and reaches the destination |
| `VendoredProcessor.OldProcessTransfer` | neodyme-workshop/contracts/level4/vendored-spl-token-3.1.0/src/processor.rs:151-257 | the older handler on raw bytes has exactly the decided effect or error, but for the stranded debit, and a success moves exactly the amount |
| `VendoredProcessor.OldProcessMintTo` | neodyme-workshop/contracts/level4/vendored-spl-token-3.1.0/src/processor.rs:428-483 | the older handler on raw bytes has exactly the decided effect or error; a success adds exactly the amount to supply and destination |
| `VendoredProcessor.OldProcessBurn` | neodyme-workshop/contracts/level4/vendored-spl-token-3.1.0/src/processor.rs:485-561 | the older handler on raw bytes has exactly the decided effect or error; a success takes exactly the amount from supply and source |
| `CrateOrder.BuildGraph` | neodyme-workshop/pocs/solana-1.11.2/ci/order-crates-for-publishing.py:27-33 | builds the dictionaries of names, manifests and filtered dependency lists |
| `CrateOrder.DictionariesMean` | neodyme-workshop/pocs/solana-1.11.2/ci/order-crates-for-publishing.py:27-33 | the dictionaries hold exactly the package names, each with the filtered dependencies and the manifest of its last package |
| `CrateOrder.FindDirectCycles` | neodyme-workshop/pocs/solana-1.11.2/ci/order-crates-for-publishing.py:36-40 | finds exactly the pairs of packages that depend on each other, a package on itself included |
| `CrateOrder.Pass` | neodyme-workshop/pocs/solana-1.11.2/ci/order-crates-for-publishing.py:59-67 | one pass emits, in order, exactly the packages none of whose dependencies is left |
| `CrateOrder.Round` | neodyme-workshop/pocs/solana-1.11.2/ci/order-crates-for-publishing.py:52-69 | one round of the while loop advances the state from k passes to k + 1 |
| `CrateOrder.SortLayers` | neodyme-workshop/pocs/solana-1.11.2/ci/order-crates-for-publishing.py:48-72 | the loop ends with all layers if the graph is acyclic, and otherwise, out of budget, with exactly the packages from which a cycle can be reached |
| `CrateOrder.GetPackages` | neodyme-workshop/pocs/solana-1.11.2/ci/order-crates-for-publishing.py:24-72 | succeeds if and only if the dependency graph is acyclic; then every package is listed once with its manifest after everything it depends on, layer by layer, in as many passes as a longest dependency chain has packages, at most the number of packages; direct cycles are reported exactly, and otherwise exactly the packages from which a cycle is reached |
| `CrateGraph.RestIsChains` | neodyme-workshop/pocs/solana-1.11.2/ci/order-crates-for-publishing.py:51-69 | what is left after k passes are the packages with a dependency chain of k steps, in any graph |
| `CrateGraph.StuckIffReachesCycle` | neodyme-workshop/pocs/solana-1.11.2/ci/order-crates-for-publishing.py:53-55 | after as many passes as packages, exactly those are left from which a cycle can be reached |
| `CrateGraph.WorkedOffIffAcyclic` | neodyme-workshop/pocs/solana-1.11.2/ci/order-crates-for-publishing.py:50-55 | the passes work off everything within as many passes as packages if and only if the graph is acyclic |
| `CrateGraph.LayerIsLongestChain` | neodyme-workshop/pocs/solana-1.11.2/ci/order-crates-for-publishing.py:59-67 | pass k emits exactly the packages whose longest dependency chain has k steps |
| `CrateGraph.LayersTopological` | neodyme-workshop/pocs/solana-1.11.2/ci/order-crates-for-publishing.py:59-67 | the layers list every package after its dependencies |

## Left out

- Minimum balances of zero (`Rent::free`): a live account could then be purged, and supplies would no longer match balances.
- The rent formula, which is floating point over configuration values, and the decoding of the rent sysvar account.
- The owner, close and initialization handlers of version 3.1.0, which differ from 3.3.0 in substance, not only in owner checks.
- The builders other than `transfer` and `initialize_multisig`: they repeat the same two account-list loops.
- The overflow branch of native initialization and the failure branches of the final writes: they are proved unreachable, so the methods do not contain them.
- The repeated-name test inside a pass of the ordering script: names are distinct, so it never applies.
- Error message texts, logging, the order in which direct cycles are printed, `load_metadata`, and the conversion between raw and displayed amounts.
- Writable and executable flags of accounts, and transactions as units of several instructions.
- The workshop contracts, the local-node scripts, the associated-token-account and memo programs, and the rest of the vendored Solana sources.
