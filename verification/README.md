# A model of the atomic round-trip executor, its evidence ledger and its guards

Dafny 4.11 proofs about four parts of the backrunner. `dafny verify dfyconfig.toml` checks them all.

**The compiler and the on-chain program.** A client merges two DEX instructions into one account table and one
byte string (`Builder`). A program parses the string (`Codec`), checks both venue ABIs (`Abi`), rebuilds leg one
and calls it, moves the amount it produced into leg two, calls that, and accepts or fails (`Executor`). A venue is
an arbitrary function; the only thing known about it is the runtime's rule that a call changes only writable,
non-executable accounts it was passed (`Solana.Invoke`). `CompileRun` proves that what was compiled means what the
two instructions meant, errors included, and `SharedKeys` what happens when the caller's three keys are not distinct.
`Outcomes` says exactly which accounts and which final balances the guards let through, with completed runs to show
it. `Wallet` puts the program inside the whole transaction, and `Landing` has transactions that attain its bound.
`PlainTrip` is the input the exhibited runs start from.

**The evidence ledger.** `Evidence` is the ledger as one atomic object, and what any list of operations adds up to.
`Protocol` is the real thing: processes that create a lock file exclusively, load, modify, write a temporary file,
rename it and release by owner token, with readers that take no lock, interleaved step by step, any of them stopping
anywhere, and any read, write or release failing. It is proved linearizable to `Evidence`. `Attempts` puts the trigger
path and its second lock on top. `EvidenceStore` has the same operations as methods that mutate.

**State machines.** `Momentum`, `Positions` and the limiter in `Sniper` are classes whose methods are proved equal to
functions of the old state; the lemmas follow those functions over whole runs. `Window` is the pruning argument two of
them share.

**Arithmetic and parsing.** `Risk` iterates the risk gate; `Sniper` has the Borsh creator parser.

## Where code and prose disagree

The model follows the code.

- `README.md:60` and `programs/atomic-executor/src/lib.rs:8` promise a final quote balance of at least the start plus
  `minimum_profit`. `lib.rs:421-425` reads the field as the largest loss allowed, saturating at zero.
  `Outcomes.OutcomesExactly` proves which final balances successful runs can have, and
  `Outcomes.ProfitFloorOnlyAtZero` that they all meet the older wording if and only if the field is zero. The unit
  tests at `lib.rs:442-500` and the case at `programs/atomic-executor/tests/atomicity.rs:359-362` are older than this.
- Meteora data is 32 bytes on both sides, and accounts of both token programs are accepted.
- The scan for other token accounts of the user (`lib.rs:376`) starts after the signer, and the signer is never
  compared with the other two accounts. `Outcomes.TokenEntriesExactly` proves that the entries holding a token account
  of the user are then 1 and 2, and entry 0 too exactly when the signing account is a token account with itself as
  authority; `Outcomes.SignerCanBeAThird` and `Outcomes.SignerCanBeTheQuote` are completed runs of that kind, with a
  third account and with the quote account passed in twice, and `Outcomes.SignerCanLose` is one in which that third
  account changes. `Outcomes.QuoteAndIntermediateAppearOnce` says exactly when
  the latter cannot be.
- The builder does not check that user, quote and intermediate differ. `SharedKeys.CompiledSucceedsExactly` proves that
  a compiled round trip succeeds exactly when they do and the two instructions do; `SharedKeys.DistinctKeysAreNeeded`
  is an accepted input on which only the instructions do.
- The client's Pump template check wants 24 bytes where the program also takes 25, and its Meteora check does not
  read the hook bytes 24..32; `Abi.PumpTemplatesAgree` and `Abi.MeteoraTemplatesAgree` prove these are the only gaps.
- `backrunner/snipers.py:144-149` reads as one fetch for each signature, but clears its record when it overflows.
  `Sniper.GrantedExactly` proves what a request is granted on, and `Sniper.RecordSizeIsTheBound` that one fetch for each
  is guaranteed exactly to runs over at most 5000 signatures; `Sniper.OverflowFetchesAgain` is the run with one more.
- After a rename the release can still fail (`backrunner/coordination.py:62-68`), so a recorded candidate or heartbeat can
  be reported as an error. `Protocol.RecordedButReportedAsError` is such a run; `Protocol.FailedReleaseExactly` proves that
  a call whose release fails took effect exactly when its body had ended, and `Protocol.FailedReleaseFreezes` what
  follows.

## What is assumed

- Keys are 32 bytes. Base58 is left out; the program ids are written as bytes.
- The system, associated-token and token programs behave in `Wallet` as its functions say: create-idempotent, transfer,
  sync-native, close. `Wallet.Tame` is what is assumed of venues there: they take no native lamports from the wallet
  and keep the lamports of the wrapped-SOL account at or above its amount plus its rent reserve.
- Exclusive create, rename and an open file's contents follow `open()` (O_CREAT with O_EXCL) and `rename()` in the System
  Interfaces volume of IEEE Std 1003.1-2017. A file is missing, torn or whole; JSON and fsync are not modelled.
- Timestamps are integer microseconds plus a flag for carrying a timezone; money, prices and clocks elsewhere are reals.
  Rounding is a relation: any value within half a unit, for hours, and any multiple of a cent within half a cent, for sizes.
- Clocks, prices, RPC answers and simulator reports are parameters.
- Executable accounts belong to a loader, not to a token program; the theorems that need it ask for it.

## Model

| member | source | states |
|---|---|---|
| Bytes.FromLeToLe | programs/atomic-executor/src/lib.rs:85-112 | writing a number little-endian and reading it back gives the number, at every width it fits |
| Bytes.ToLeFromLe | programs/atomic-executor/src/lib.rs:96-112 | reading bytes and writing them back gives the bytes, and the value fits the width |
| Bytes.FromLeConcat | programs/atomic-executor/src/lib.rs:96-112 | reading is positional: the value of two byte strings in a row is the first's plus the second's times 256 to the first's length |
| Codec.ParseOfSerialize | programs/atomic-executor/src/lib.rs:114-178 | every encodable configuration survives the wire |
| Codec.SerializeOfParse | programs/atomic-executor/src/lib.rs:114-178 | every accepted byte string is the serialization of its parsed fields: no byte is ignored |
| Codec.ParseIsCanonical | programs/atomic-executor/src/lib.rs:114-178 | the accepted strings are exactly the serializations, and two accepted strings that parse alike are equal |
| Codec.ParsesExactly | programs/atomic-executor/src/lib.rs:114-178 | a byte string parses to given fields if and only if each stands at its written-out offset, flags are 0 to 3, the lengths add up and the patched bytes fit; every refusal is the invalid-instruction error |
| Codec.FlagBits | programs/atomic-executor/src/lib.rs:305-306 | flag bit one is the signer right, bit two the writable one |
| Codec.Patched | programs/atomic-executor/src/lib.rs:85-94 | after a patch the eight bytes read back the amount, the length is the same and every other byte is as before |
| Codec.PatchU64Le | programs/atomic-executor/src/lib.rs:85-94 | the patch in place; it fails, touching nothing, exactly when eight bytes do not fit |
| Abi.PumpAcceptsExactly | programs/atomic-executor/src/lib.rs:221-234 | the Pump instructions accepted are exactly discriminator, amount, limit and at most one more byte, with ones in a template and positive values otherwise |
| Abi.MeteoraAcceptsExactly | programs/atomic-executor/src/lib.rs:236-260 | the Meteora instructions accepted are exactly those with a fitting amount, no minimum output and two empty hook slices |
| Abi.PatchKeepsFields | programs/atomic-executor/src/lib.rs:85-94 | patching offset 8 keeps discriminator, limit and tail, and reads back the amount |
| Abi.PatchedPumpIsSwap | programs/atomic-executor/src/lib.rs:221-234 | a Pump template patched with v passes the complete-instruction check exactly when v is positive |
| Abi.MeteoraSwapsArePatchedTemplates | programs/atomic-executor/src/lib.rs:236-260 | the complete Meteora instructions are exactly the templates patched with a positive amount |
| Abi.RouteSendsSwaps | programs/atomic-executor/src/lib.rs:262-281 | an accepted route, once patched with a positive amount, sends one complete swap to each of the two venues |
| Abi.RoutePassesExactly | programs/atomic-executor/src/lib.rs:262-281 | a route passes if and only if the offset is 8 and it is a Pump buy then a Meteora template, or a Meteora swap then a Pump sell template, byte layouts written out; each refusal has its error |
| Abi.PumpTemplatesAgree | scripts/lib/direct-venues.mjs:33-68 | client and program accept the same Pump templates but for length 25, which the program takes too |
| Abi.MeteoraTemplatesAgree | scripts/lib/direct-venues.mjs:33-68 | the program's Meteora templates are the client's with empty hook slices, and the difference is not empty |
| Abi.TemplatesAreRefusedExactly | scripts/lib/direct-venues.mjs:33-68 | which template the client refuses for which reason, in its order |
| Abi.PinMeteoraPlaceholder | scripts/lib/direct-venues.mjs:241-249 | the placeholder is written in place, nothing else changes, and what is returned is a template the program accepts when its hook slices are empty |
| Builder.MergeIsExact | scripts/lib/atomic-executor.mjs:53-85 | the merged table has no key twice, none missing or invented, and each flag is the OR of all uses |
| Builder.TableRights | scripts/lib/atomic-executor.mjs:53-85 | from the input alone: the keys are those named, each once; it signs if it is the user or a leg signs, it is writable if it is quote or intermediate or a leg writes |
| Builder.TableCountsKeys | scripts/lib/atomic-executor.mjs:64-66 | the table is as long as there are different keys, so it overflows exactly above 256 |
| Builder.TableIsInFirstUseOrder | scripts/lib/atomic-executor.mjs:67-85 | entries stand in the order their keys are first used |
| Builder.FixedPositions | scripts/lib/atomic-executor.mjs:73-77 | entries 0, 1 and 2 are user, quote and intermediate exactly when those three keys differ |
| Builder.RefOf | scripts/lib/atomic-executor.mjs:79-83 | a reference carries known flags only, the use's own rights, and an index holding the use's key |
| Builder.AccountTable.AddMeta | scripts/lib/atomic-executor.mjs:55-71 | the array and the index map stay in step; the result is where the key is; it fails only for a 257th key, changing nothing |
| Builder.AccountTable.RefsFor | scripts/lib/atomic-executor.mjs:79-85 | one leg's accounts merged in order, every reference still right in the final table |
| Builder.MergeLegs | scripts/lib/atomic-executor.mjs:53-85 | both legs merged after the five fixed entries; fails exactly when more than 256 keys are used |
| Builder.WriteInstruction | scripts/lib/atomic-executor.mjs:87-113 | the buffer written field by field and behind the cursor is exactly the wire format that the parser inverts |
| Builder.BuildExecutorInstruction | scripts/lib/atomic-executor.mjs:30-120 | each failure that RejectsExactly describes, otherwise the instruction that BuiltExactly and CompileRun give its meaning |
| Builder.AcceptsExactly | scripts/lib/atomic-executor.mjs:41-66 | an input is taken if and only if the programs are the pair, at most 256 keys are used, and some byte string the program parses carries this input's data, numbers and account counts |
| Builder.RejectsExactly | scripts/lib/atomic-executor.mjs:41-101 | each refusal's condition, on the input alone, in the source's order |
| Builder.BuiltExactly | scripts/lib/atomic-executor.mjs:91-119 | what is built is addressed to the executor, over the table, and parses to fields that carry the input |
| Executor.ResolvesExactly | programs/atomic-executor/src/lib.rs:299-317 | rebuilding an account list succeeds exactly when each reference is in range and asks for no right the caller lacks, and gives the accounts referred to |
| Executor.AdmitsExactly | programs/atomic-executor/src/lib.rs:334-394 | the checks before the first call, in their order, are together exactly the declared conditions on caller, programs, route layouts, accounts and slot |
| Executor.RefusedExactly | programs/atomic-executor/src/lib.rs:334-394 | every call is admitted from the quote account's amount or refused with the first error that applies, each condition on the bytes of accounts and legs |
| Executor.TokenStateExactly | programs/atomic-executor/src/lib.rs:200-219 | an account reads as a token account if and only if either token program owns it and its 72 bytes hold that mint, authority and amount |
| Executor.ScansExactly | programs/atomic-executor/src/lib.rs:376-390 | the scan passes if and only if no account past the third, programs aside, is a token account with the user's authority |
| Executor.LegsFailExactly | programs/atomic-executor/src/lib.rs:396-435 | when the two legs fail, which error it is, from the ledgers they passed through |
| Executor.ResolveFailsExactly | programs/atomic-executor/src/lib.rs:301-309 | which reference fails an account list: out of range, or beyond the caller's rights |
| Executor.LeftBehindIsACall | programs/atomic-executor/src/lib.rs:396-436 | without rollback an error leaves the ledger as it was or as one of the two calls left it |
| Solana.InvokeExactly | programs/atomic-executor/src/lib.rs:319-326 | a call takes effect if and only if the program succeeds and changes only writable, non-executable accounts passed to it |
| Executor.SucceedsExactly | programs/atomic-executor/src/lib.rs:329-436 | a run succeeds with given calls and ledgers if and only if the bytes parse, the caller is admissible, and the two legs complete on those ledgers |
| Executor.SuccessfulRoundTrip | programs/atomic-executor/src/lib.rs:329-436 | success implies owner's signature, WSOL against another mint, deadline, a positive amount moved, leg two sized by exactly it with all other bytes kept, no inventory left, loss within bound |
| Executor.RightsAreASubset | programs/atomic-executor/src/lib.rs:299-317 | every signer or writable right in either call was given to the program for that key |
| Executor.ChangesOnlyWritable | programs/atomic-executor/src/lib.rs:293-436 | a successful run changes only accounts the program was handed as writable, and no executable one |
| Executor.OtherUserTokensUntouched | programs/atomic-executor/src/lib.rs:363-390 | of all token accounts of the user, passed in or not, only quote and intermediate can change (and the signing account, if it is one) |
| Outcomes.OnlySignerEscapesTheScan | programs/atomic-executor/src/lib.rs:376-390 | as accounts, admitted entries hold no third token account of the user if and only if the signer is not one |
| Outcomes.TokenEntriesExactly | programs/atomic-executor/src/lib.rs:376-390 | entry by entry: those holding a token account of the user are 1 and 2, and 0 exactly when the signing account is one with itself as authority |
| Outcomes.SignerCanBeAThird | programs/atomic-executor/src/lib.rs:376-390 | a completed run exists, from the bytes on, whose signer is such an account |
| Outcomes.SignerCanLose | programs/atomic-executor/src/lib.rs:376-390 | for any two balances a successful run takes that third account from one to the other, so the frame theorem's exemption is needed |
| Outcomes.SignerCanBeTheQuote | programs/atomic-executor/src/lib.rs:338-372 | a completed run exists whose signer is the quote account, which is therefore passed in twice |
| Outcomes.QuoteAndIntermediateAppearOnce | programs/atomic-executor/src/lib.rs:363-390 | quote and intermediate differ; after entry 2 neither is passed in again save in a program position; and unless executable they are passed in once each if and only if the signer is neither |
| Outcomes.ProfitFloorOnlyAtZero | programs/atomic-executor/src/lib.rs:421-434 | every successful run ends at the start plus `minimum_profit` or above if and only if the field is zero; otherwise some run takes the whole loss |
| Outcomes.OutcomesExactly | programs/atomic-executor/src/lib.rs:420-434 | a start and a final quote balance are those of some successful run with a given limit if and only if the guard accepts them |
| Outcomes.EveryAllowedOutcomeHappens | programs/atomic-executor/src/lib.rs:329-436 | in either direction, from any ledger a round trip can start on, signer aliases included, every final balance the guard accepts is reached by a run of real bytes |
| Outcomes.BothDirectionsComplete | programs/atomic-executor/src/lib.rs:272-278 | a completed run of real bytes exists with either venue first |
| Executor.Bank.InvokeLeg | programs/atomic-executor/src/lib.rs:293-327 | the loop rebuilds the call that the references denote and hands over every account it names, so the call is never refused for a missing one; on any failure the ledger is as before |
| Executor.Bank.CrossProgramCall | programs/atomic-executor/src/lib.rs:319-326 | a call takes effect only if its program and all its accounts are handed over with it; otherwise nothing changes |
| Executor.Bank.Scan | programs/atomic-executor/src/lib.rs:376-390 | the loop says no exactly when some scanned account is another token account of the user |
| Executor.Bank.RunBothLegs | programs/atomic-executor/src/lib.rs:396-435 | the two legs on the live ledger agree with the specification, error by error, and leave the ledger of the leg they stopped after |
| Executor.Bank.ProcessInstruction | programs/atomic-executor/src/lib.rs:329-436 | the step-by-step program returns the specified outcome and leaves the specified ledger: untouched by a refusal, else that of the last leg that ran |
| Executor.Bank.Execute | programs/atomic-executor/src/lib.rs:329-436 | under runtime rollback any error leaves the whole ledger as it was |
| CompileRun.BuiltParses | programs/atomic-executor/src/lib.rs:114-178 | the built bytes always parse, to what was compiled |
| CompileRun.TableGrants | scripts/lib/atomic-executor.mjs:53-85 | the table holds every account of either leg with at least the rights that use asks for |
| CompileRun.RebuildsLegs | programs/atomic-executor/src/lib.rs:293-327 | rebuilding from table and references gives both original instructions: program, accounts, rights, data, and never an index or privilege error |
| CompileRun.ScanIsNoOtherTokens | programs/atomic-executor/src/lib.rs:376-390 | the scan over the merged table passes exactly when no unnamed account of either leg is a token account of the user |
| CompileRun.AdmitIsDirect | programs/atomic-executor/src/lib.rs:334-394 | the program's checks on the compiled form decide, error by error, what the same checks on the original instructions decide |
| CompileRun.CompileAndRun | scripts/lib/atomic-executor.mjs:53-113 | for every venue, slot and ledger, running the compiled form has the outcome of the two original instructions: same calls, ledgers, amount, or same error |
| SharedKeys.BuiltCallsAreOriginal | programs/atomic-executor/src/lib.rs:396-435 | a built round trip that succeeds, whatever its keys, sent leg one as it was and leg two as it was but for its eight amount bytes, with the guard's bound |
| SharedKeys.CompiledSucceedsExactly | scripts/lib/atomic-executor.mjs:53-113 | for every input the builder accepts, the compiled form succeeds with given calls and ledgers if and only if the three keys differ and the two instructions do so |
| SharedKeys.SharedKeysNeverSucceed | scripts/lib/atomic-executor.mjs:73-77 | with two equal keys no venue, slot or ledger makes the compiled form succeed |
| SharedKeys.ProgramMovesUp | scripts/lib/atomic-executor.mjs:73-77 | with two equal keys the program finds a venue's program where it looks for the quote or intermediate account |
| SharedKeys.DistinctKeysAreNeeded | scripts/lib/atomic-executor.mjs:73-77 | an accepted input exists whose two instructions succeed and whose compiled form fails |
| Wallet.PlanFundsLegOne | scripts/lib/direct-roundtrip.mjs:79-165 | a plan that lands calls the executor with at least what leg one may spend wrapped, the input when Meteora comes first and the pinned maximum when Pump does, on top of any earlier WSOL |
| Wallet.PlansExactly | scripts/lib/direct-roundtrip.mjs:79-191 | which plans are made and which refused, in both directions: the list of steps with its funding, or the first error that applies |
| Wallet.StepKeepsWealth | scripts/lib/direct-roundtrip.mjs:144-174 | each setup or cleanup step costs the wallet and its WSOL account at most that step's rent or tip; sync makes the amount cover all lamports above the reserve |
| Wallet.SetupKeepsWealth | scripts/lib/direct-roundtrip.mjs:144-165 | setup as a whole costs at most the intermediate account's rent, for every earlier WSOL balance |
| Wallet.ExecuteKeepsWealth | programs/atomic-executor/src/lib.rs:420-434 | the executor's token bound is a lamport bound on wallet plus quote account |
| Wallet.CleanupKeepsWealth | scripts/compose-direct-roundtrip.mjs:65-73 | closing and tipping cost at most the tip and leave everything that was wrapped in the wallet |
| Wallet.WholeWalletBound | scripts/lib/direct-roundtrip.mjs:128-191 | landed or failed, wallet plus quote-account lamports fall by at most allowed loss, new intermediate rent, tip and fee |
| Wallet.LandedIsUnwrapped | scripts/lib/direct-roundtrip.mjs:166-191 | when it lands the wallet alone holds all that the bound promises, and the quote account is gone but for a tip sent to it |
| Landing.BoundIsAttained | scripts/lib/direct-roundtrip.mjs:79-191 | in both directions, for any funding, allowed loss within it, reserve, rent, tip and fee, some transaction lands and costs exactly what the whole-wallet bound allows |
| Landing.SetupLands | scripts/lib/direct-roundtrip.mjs:144-165 | from a wallet with enough lamports and nothing else, setup lands and leaves exactly the funding wrapped, on a ledger the executor admits |
| Evidence.SignaturesStayDistinct | backrunner/coordination.py:156-168 | after any operations the recorded signatures are pairwise distinct and not empty |
| Evidence.DistinctSignaturesCount | backrunner/coordination.py:206 | so the candidate count is the number of different signatures |
| Evidence.RecordsAreTheAccepted | backrunner/coordination.py:150-168 | the records are the accepted ones in order; one is accepted exactly when the lookup before it finds nothing, and is found ever after |
| Evidence.CandidatesExactly | backrunner/coordination.py:150-168 | a candidate is refused without a signature or when an accepted record has the same one, and added otherwise; a lookup finds exactly the accepted signatures |
| Evidence.FoundExactly | backrunner/coordination.py:150-154 | the lookup finds a signature if and only if it is one of those recorded |
| Evidence.HeartbeatsExactly | backrunner/coordination.py:176-192 | which heartbeats are refused and why; any other becomes the last one, long gap or not, and adds the gap if and only if it is within the limit |
| Evidence.SummariesExactly | backrunner/coordination.py:194-209 | the five figures over the accepted records and heartbeats, refused exactly when some record lacks a timezone |
| Evidence.NetIsTheSum | backrunner/coordination.py:208 | the net is the sum of all records' nets, losses included |
| Evidence.SucceededCounts | backrunner/coordination.py:207 | the success count is the number of records that succeeded |
| Evidence.LedgerOnlyGrows | backrunner/coordination.py:156-192 | no further operations lose a record or lower the runtime |
| Evidence.EarliestIsLeast | backrunner/coordination.py:197-202 | the reported start is the earliest observation |
| Evidence.RuntimeIsCovered | backrunner/coordination.py:170-192 | the runtime is the sum of the consecutive gaps between accepted heartbeats that are within the later one's limit, and those never go back |
| Evidence.CoveredWithinSpan | backrunner/coordination.py:183-191 | covered time is between zero and last minus first |
| Evidence.CoveredPerGap | backrunner/coordination.py:183-191 | covered time is at most one gap limit per heartbeat after the first |
| Evidence.RuntimeBounds | backrunner/coordination.py:170-192 | both bounds, for the runtime of any reachable ledger: several writers never count time twice |
| Evidence.ExtraBeatNeverLowers | backrunner/coordination.py:183-191 | an extra heartbeat anywhere in order never lowers the covered time |
| Evidence.BackwardsHeartbeatChangesNothing | backrunner/coordination.py:186-188 | a heartbeat from the past leaves the payload and the accepted heartbeats alone |
| Evidence.ReadyMeansProven | backrunner/coordination.py:101-106 | ready at 72 hours and 100 candidates means 100 distinct signatures, a positive net, 72 hours less 1.8 milliseconds counted, and with two-minute gaps 2161 heartbeats |
| Evidence.ProvenMeansReady | backrunner/coordination.py:101-106 | 72 hours counted, 100 accepted candidates and a positive net are ready however the hours round |
| Protocol.StepKeepsInv | backrunner/coordination.py:29-192 | every step of every process keeps lock ownership, the file's agreement with the atomic ledger, and every process's place in the order |
| Protocol.RunKeepsInv | backrunner/coordination.py:29-192 | so every schedule does |
| Protocol.StoreIsAlwaysCommitted | backrunner/coordination.py:116-148 | on every schedule the evidence file is missing before the first commit, else whole and exactly the committed ledger, signatures distinct |
| Protocol.Linearizable | backrunner/coordination.py:116-209 | one order of operations explains every reply; a call's operation is in it at most once, and, once the call is over, exactly when its body ended or its read had opened the file, with the reply the body ended with; lock-free readers see the ledger at their own point |
| Protocol.AnsweredBeforeCalledComesFirst | backrunner/coordination.py:150-209 | the order respects real time, for calls that answered and calls that failed after the fact alike |
| Protocol.SoloCallsComplete | backrunner/coordination.py:116-209 | from every reachable state a process left alone completes any call with the ledger's answer and payload, told that the lock is taken exactly when there is a lock file |
| Protocol.FailedReleaseExactly | backrunner/coordination.py:60-69 | a call whose release fails is in the order if and only if its body had ended, with that reply |
| Protocol.FailedReadExactly | backrunner/coordination.py:116-134 | a read that fails is in the order if and only if it had opened the file, and changes nothing |
| Protocol.RecordedButReportedAsError | backrunner/coordination.py:140-168 | a run exists, for every candidate, that records it and tells the caller that the call failed |
| Protocol.CommittedIsNeverLost | backrunner/coordination.py:140-192 | whatever follows, and whoever stops, the committed order is only extended and no record or runtime is lost |
| Protocol.LockSafety | backrunner/coordination.py:29-69 | the lock file exists exactly while one process, live or stopped, holds it, or after a step at which a release or clean-up failed; never do two hold it, and after such a step nobody does |
| Protocol.AbandonedExactly | backrunner/coordination.py:48-69 | a lock file with no owner left is there if and only if a release or clean-up failed at some step |
| Protocol.OneHolder | backrunner/coordination.py:38-41 | two processes in the locked section are the same process |
| Protocol.DeletesOnlyItsOwn | backrunner/coordination.py:48-69 | though release is three steps, every deletion of the lock file, by release or after a failed write, is of the deleter's own and leaves the lock free |
| Protocol.ReleaseNeverRefuses | backrunner/coordination.py:60-69 | no other process ever makes a release meet a missing, unreadable or foreign lock file: the disk failing is a step of its own |
| Protocol.CrashedHolderFreezes | backrunner/coordination.py:38-41 | fail closed: once a process stops holding the lock, no schedule changes the lock or the evidence again |
| Protocol.FailedReleaseFreezes | backrunner/coordination.py:60-69 | a release that fails leaves the lock file for good, and what was committed by then stays the evidence |
| Attempts.TurnKeepsInv | backrunner/cli.py:188-222 | every step of every process, those on the attempt lock included, keeps: an attempt owns the attempt lock; records are made only in attempts; a trigger looked up in vain is absent until its own record |
| Attempts.FoundAbsentIsNeverADuplicate | backrunner/cli.py:192-220 | over every interleaving an attempt owns the attempt lock alone, and a trigger it found absent stays absent until its record, which is never refused as a duplicate |
| Attempts.AttemptAloneCompletes | backrunner/cli.py:191-221 | from every reachable state with both locks free, a process left alone looks up, counts, records and counts again, and leaves both locks free |
| Attempts.RemovesOnlyItsOwn | backrunner/coordination.py:29-69 | every removal of the attempt lock is of the remover's own, and no release of it meets another's or a missing file |
| Attempts.PromotionReadyIsEarned | backrunner/cli.py:70-85 | a process that finds its summary ready and no attempt lock saw the claims hold, the present ledger keeps them, and no attempt or record is under way |
| Protocol.ReadyReportIsEarned | backrunner/cli.py:80-82 | a process told it is ready saw a point of the agreed order where the claims held, and later ledgers keep those candidates and that runtime |
| EvidenceStore.AttemptLock.Enter | backrunner/coordination.py:29-52 | refuses an existing file, changing nothing; a failed payload write leaves the lock free; else the file carries the new token |
| EvidenceStore.AttemptLock.Exit | backrunner/coordination.py:54-69 | removes the file only if it carries this owner's token; any doubt, or a failing disk, leaves file and owner as they were |
| EvidenceStore.ShadowEvidence.FindSignature | backrunner/coordination.py:150-154 | the scan answers whether the signature is one of those recorded |
| EvidenceStore.ShadowEvidence.Contains | backrunner/coordination.py:150-154 | found exactly when the signature is one of those recorded |
| EvidenceStore.ShadowEvidence.Record | backrunner/coordination.py:156-168 | payload, lock file and answer for every disk: one atomic operation, or nothing when lock or save fails, or the operation with an error and the lock left when release fails |
| EvidenceStore.ShadowEvidence.Heartbeat | backrunner/coordination.py:170-192 | the same for heartbeats |
| EvidenceStore.ShadowEvidence.Summary | backrunner/coordination.py:194-209 | the figures that SummariesExactly describes, or the refusal of a timestamp without timezone |
| EvidenceStore.Attempt | backrunner/cli.py:195-221 | a complete attempt is heartbeat, record, heartbeat on the ledger and a failed one, whatever failed, a prefix of that; refused as known exactly when recorded before, and never later as a duplicate |
| EvidenceStore.AttemptsExactly | backrunner/cli.py:195-221 | when an attempt is refused without a write; and with free lock, working disk and clocks forward, its outcome, its record field by field and the time it counts |
| EvidenceStore.AttemptIsAPrefix | backrunner/cli.py:195-221 | whatever fails, the ledger is a prefix of the three operations on |
| EvidenceStore.WritesExactly | backrunner/coordination.py:140-192 | payload, lock and answer of a write for every state of lock and disk |
| EvidenceStore.WriteEffect | backrunner/coordination.py:140-192 | a write that does not answer done has changed nothing, unless its release failed; one that does is the atomic operation under a lock that was free |
| EvidenceStore.ShadowDirect | backrunner/cli.py:191-221 | the attempt under its own lock, which ends as it began unless its release fails; refused as active exactly when held, and then the ledger is not touched |
| Momentum.HotFlowAggregator.SetTrending | backrunner/momentum.py:100-103 | exactly the triggered mints on the list stay triggered, since when they were; window rows and seen signatures are untouched |
| Momentum.HotFlowAggregator.Add | backrunner/momentum.py:105-122 | the signal, whose conditions EmitsExactlyWhenDue gives, and the whole new state of the four fields |
| Window.KeepTwice | backrunner/momentum.py:113 | pruning by an earlier window and again by a later one is pruning by the later one |
| Momentum.KeptRowsSuffice | backrunner/momentum.py:113-115 | now and later, the pruned rows show the same window as every row ever accepted |
| Momentum.PruningIsInvisible | backrunner/momentum.py:113-118 | each accepted add is judged on the full history's window |
| Momentum.SeenExactly | backrunner/momentum.py:109-112 | a signature is known exactly when an accepted add carried it |
| Momentum.AcceptedExactly | backrunner/momentum.py:107-112 | an add is taken in if and only if its mint is on the last list set, or that is empty, and no accepted add had its signature |
| Momentum.RecentExactly | backrunner/momentum.py:113 | a row is kept exactly while no older than the window, in order |
| Momentum.TotalIsTheSum | backrunner/momentum.py:116 | the total is the sum of the rows' amounts |
| Momentum.SignatureCountsOnce | backrunner/momentum.py:109-112 | no two accepted adds share a non-empty signature, over all mints |
| Momentum.TriggeredExactly | backrunner/momentum.py:100-121 | a mint is triggered exactly when it emitted and no list since has left it out |
| Momentum.EmitsExactlyWhenDue | backrunner/momentum.py:105-122 | a signal comes if and only if the add is accepted, the full history's window has enough rows and enough SOL, and the mint has not emitted since it was last left out; every field of it |
| Positions.Position.Check | ops/strategy_loop.py:123-180 | one turn of the exit loop, field by field; it reports an exit exactly when the position closes |
| Positions.PositionManager.Active | ops/strategy_loop.py:116-117 | exactly the open positions, each once |
| Positions.PositionManager.CanOpen | ops/strategy_loop.py:109-111 | whether the open positions are fewer than the limit |
| Positions.OpenCountExactly | ops/strategy_loop.py:110-111 | the count is the number of positions not closed |
| Positions.PositionManager.CheckExits | ops/strategy_loop.py:119-181 | every open position is checked once, every closed one is left alone, and exactly those closed by this call are returned, each once |
| Positions.PositionManager.Consider | ops/strategy_loop.py:702-763 | a position is opened exactly when the mint is not held, there is room, the balance check passes, it is no dry run and the buy was submitted; otherwise nothing changes |
| Positions.HoldingsStayBounded | ops/strategy_loop.py:702-763 | on every run no two open positions share a mint and the limit holds |
| Positions.ClosedIsFinal | ops/strategy_loop.py:116-181 | positions keep their terms, and a closed one never changes again |
| Positions.ClosedMeansReturned | ops/strategy_loop.py:119-181 | a position is closed exactly when some check returned it |
| Positions.NeverReturnedAgain | ops/strategy_loop.py:119-181 | no later check returns it again |
| Positions.PeakIsLargestObserved | ops/strategy_loop.py:149-151 | over any run the peak is one of the usable prices observed and none exceeds it; zero before the first |
| Positions.ExitBands | ops/strategy_loop.py:153-180 | the price exits, as prices: trailing band below the peak first, then target, then stop, and none strictly inside all three |
| Positions.ChecksExactly | ops/strategy_loop.py:123-180 | one position's check in full: timeout, when a price is asked for, when the asking time moves, the peak, the exit by bands and the booked move |
| Positions.OpenMeansInsideBands | ops/strategy_loop.py:123-180 | a position a check leaves open is within its hold time and, three seconds in and since it last asked, with a usable answer, strictly inside every band |
| Positions.AfterCheckAllInside | ops/strategy_loop.py:119-181 | so after a check of all positions is every one still open, under the same three-second conditions |
| Positions.ReasonFixesResult | ops/strategy_loop.py:126-180 | timeout comes first and books zero; a profit exit books at least its target, a loss exit at least its limit; a price exit books the price move exactly |
| Sniper.ParseOfEncode | backrunner/snipers.py:36-75 | encoding any creation, with anything after it, and parsing gives back the creator |
| Sniper.AcceptedIsEncoded | backrunner/snipers.py:36-75 | though slicing clips silently, whatever is accepted holds three whole strings and a whole key |
| Sniper.ParserIsExact | backrunner/snipers.py:45-75 | the parser accepts exactly the encodings and finds their creator |
| Sniper.EncodesExactly | backrunner/snipers.py:45-73 | a creation's bytes written out: discriminator, three strings behind four-byte lengths, key, rest |
| Sniper.PumpSniper.CheckTx | backrunner/snipers.py:143-156 | whether the call may be made, and the whole new state |
| Sniper.KeptCallsSuffice | backrunner/snipers.py:151-156 | now and later, the kept calls show the same window as every call ever granted |
| Sniper.RecentExactly | backrunner/snipers.py:153 | a call is kept for less than sixty seconds, in order |
| Sniper.WindowLimit | backrunner/snipers.py:151-156 | calls granted less than sixty seconds apart never exceed three times the rate |
| Sniper.AskedIsRemembered | backrunner/snipers.py:145-149 | until the record is cleared a signature once asked about stays known |
| Sniper.SeenExactly | backrunner/snipers.py:145-149 | a signature is known if and only if it was asked about and the record has not been cleared since |
| Sniper.GrantedExactly | backrunner/snipers.py:145-156 | a request is granted if and only if its signature is not known and fewer calls than three times the rate were granted, over the whole run, in the last sixty seconds |
| Sniper.RepeatNeedsAClear | backrunner/snipers.py:145-149 | a signature is granted again only after a clear in between |
| Sniper.SeenIsAsked | backrunner/snipers.py:145-149 | a run over at most 5000 signatures never clears its record: it holds exactly those asked about |
| Sniper.FewSignaturesFetchOnce | backrunner/snipers.py:145-156 | such a run fetches no signature twice |
| Sniper.RecordSizeIsTheBound | backrunner/snipers.py:145-156 | runs over at most n signatures all fetch each once if and only if n is at most 5000 |
| Sniper.OverflowFetchesAgain | backrunner/snipers.py:145-156 | for every positive rate, 5001 different signatures and then the first again a minute later fetch that one twice |
| Risk.AllowedExactly | backrunner/risk.py:44-107 | the gate opens exactly when every proof, loss limit and pilot condition holds; the size is within cap and reserve, zero when shut |
| Risk.SizesExactly | backrunner/risk.py:84-107 | stage, and the size as the least of the stage's share of equity, the cap and what the reserve leaves |
| Risk.ReasonsExactly | backrunner/risk.py:44-91 | each reason is given exactly when its condition holds and no earlier group of reasons applies |
| Risk.NoTradeRoundsToNoTrade | backrunner/risk.py:97-105 | rounding to cents never turns no trade into a trade |
| Risk.AttemptKeepsReserve | backrunner/risk.py:97-101 | a guarded attempt that loses its whole size keeps the reserve to half a cent, even starting half a cent under |
| Risk.AttemptKeepsDrawdownFloor | backrunner/risk.py:68-101 | nor does it break the drawdown line less one attempt at the largest risk, when two of reserve, drawdown and risk are within their range |
| Risk.ReserveIsKept | backrunner/risk.py:44-107 | over any run the reserve is kept to half a cent, whatever the percentages |
| Risk.EquityStaysAboveFloors | backrunner/risk.py:64-107 | over any run, with high water the running maximum and a floor that is at most the whole of it, equity stays above both floors |
| Risk.FloorsAreKeptExactly | backrunner/risk.py:64-107 | no policy that leaves more than the whole high water keeps its floors on all runs; of the others every one with two of reserve, drawdown and risk in range does |

## Left out

- CompileRun.CompileAndRun: compares errors too, and for that asks that user, quote and intermediate keys differ; with equal keys both forms may fail for different reasons, and `SharedKeys` decides success for all inputs.
- CompileRun.AdmitIsDirect: asks the same, since with equal keys the program checks other accounts.
- CompileRun.ScanIsNoOtherTokens: asks the same, since with equal keys the scan skips other entries.
- Wallet.WholeWalletBound: asks that wallet, quote and intermediate accounts differ (they are a signing key and two derived addresses) and uses one reserve figure for the quote account throughout; the compute-budget price is part of the fee.
- Wallet.PlanFundsLegOne: the venue SDK calls that produce the two instructions, and the lookup-table and size steps around the plan, are not modelled.
- EvidenceStore.ShadowDirect: one process without interference; the interleavings are in `Attempts`.
- Momentum.HotFlowAggregator.Add: sums are exact.
- Positions.PositionManager.Consider: buying and selling are their answers, the risk bookkeeping after them is not modelled, and only the fields that exits read are kept.
- Sniper.PumpSniper.CheckTx: stops before the HTTP request and models one thread.
- Sniper.ParseOfEncode: gives the key's 32 bytes; UTF-8 replacement of the three strings and Base58 are not modelled.
- Risk.EquityStaysAboveFloors: takes from outside that an attempt loses at most the rounded size and that nothing else moves equity; asks for a high water that is not negative and for two of: a reserve that is not negative, a drawdown of at most 100 percent, risks of at most 100 percent.
- The watchers, the live loop and its timed-expiry lock, deployment and lookup-table scripts, and the network clients: I/O.
- `backrunner/config.py`, `engine.py`, `shadow.py`, `replay.py`, `detector.py`, `state.py`, `pools.py`, `scorer.py`: single checks, sums and field copies that would add only easy members.
