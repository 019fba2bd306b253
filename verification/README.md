# Verification of soro-fuzz

Dafny models of three parts of the repository, with proofs about every run of each.

1. **The campaign protocol of the server.** Clients create and cancel campaigns while any number of workers,
   in any number of processes, claim jobs, start runs, call a runner and finish runs. It is modelled twice.
   `Transactions.dfy` steps one SQL statement at a time: each transaction has a private write buffer that is
   also its set of row locks, plain SELECTs see committed rows only, a guarded UPDATE waits for its row and
   evaluates its guard again on the latest committed version, and any transaction may abort at any moment.
   `Store.dfy` gives each store call as one atomic step; `SerialCalls.dfy` proves that a transaction that
   meets no lock commits exactly that step, `MockStore.dfy` proves the in-memory store against the same
   steps, and `WorkerSystem.dfy` puts workers, progress hubs and an arbitrary runner on top of them;
   `WorkerProgress.dfy` shows that they can do every job.
   `Stream.dfy` is the live stream a client reads, over a 256-slot broadcast it may lag behind.
2. **The harness as a simulation checker.** `Harness.dfy` is the truncating, short-circuiting
   execute / apply / check loop for any contract; `HarnessTraces.dfy` characterises its verdict by what the
   contract, the shadow model and the checks answer. The token, counter and escrow examples are contracts over
   checked arithmetic run against shadow models over unchecked or saturating arithmetic; for each, the verdict of
   every run is characterised exactly.
3. **Printing a violation and reading it back.** `FuzzerOutput.dfy` prints a violation and searches a whole
   log for it; `Utf8.dfy` cuts the tail of a log at a byte limit. `FuzzTargets.dfy` joins this to part 2:
   what a token run violates is what the server records.

The functions that the methods and transition systems are proved against are themselves pinned down: the
lemmas named `...Decides` and `...Iff` say, without those functions, when each operation succeeds, with which
error it fails otherwise, what it changes and what it leaves alone.

Where proofs and prose in the repository differ, the model follows the code:

- `crates/server/src/store/mod.rs:72-75` promises that cancelling a campaign in a terminal state changes
  nothing. As whole calls that holds (`Store.TerminalIsFinal`, `WorkerSafety.TerminalRunsAreFinal`). Statement
  by statement it does not: `cancel_campaign` reads without a lock and updates without a guard, so a
  cancellation that read early overwrites a Completed or Failed run committed since.
  `SerialCalls.StaleCancelOverwrites` builds such an interleaving from every state that has a running run and
  no open transaction. `StaleCancels.CancelOverwritesIff` gives the exact condition: a committing cancellation
  overwrites an outcome if and only if the campaign already had one when its UPDATE took the row, which is what
  the UPDATE has no guard for; `StaleCancels.OverwriteIsAStaleCancel` proves that nothing else can do it, and
  `StaleCancels.OutcomesAreFinalIff` says in which behaviours outcomes are final. That
  Cancelled stays Cancelled, and that run and campaign mirror each other, hold at both levels.
- The token's `transfer` reads both balances before it writes either, so a transfer to oneself creates the
  amount. `Token.TransferDrift` and `TokenSafety.DriftIsSelfTransfers` state the exact drift,
  `TokenSafety.SelfTransferIsCaught` gives a run that the harness therefore reports, and
  `TokenSafety.TokenVerdict` says exactly which runs those are.
- A violation is read back from a log only if its name is not empty and has no backtick, its message does not
  start with a newline and its step fits i32 (`FuzzerOutput.ReadBackIffRecognisable`, `FuzzerOutput.PrintThenParse`).

Assumed of the environment, not proved: Postgres row locks, read-committed visibility, re-evaluation of guards
and SKIP LOCKED; a broadcast channel that keeps its newest 256 events; ids that are never generated twice; the
Soroban host's storage and authorization, reduced to maps and to membership of the required signer in the set
of signers. Clocks, ids, the runner's result and the text of an address are parameters.

## Model

| member | source | states |
|---|---|---|
| TransactionSafety.CommittedStatusesMirror | crates/server/src/store/postgres.rs:276-432 | in every interleaving of statements and aborts, every committed campaign has exactly one run and carries the image of its status, although start and finish lock run then campaign and cancel locks campaign then run |
| TransactionSafety.CancelledIsForever | crates/server/src/store/postgres.rs:347-409 | once Cancelled is committed for a run, no later step changes it on the run or its campaign, so no racing start or finish overwrites it |
| TransactionSafety.StatusNeverRegresses | crates/server/src/store/postgres.rs:344-409 | committed runs never disappear and their status only advances through pending, running, completed or failed, cancelled |
| TransactionSafety.StartCommitsAtMostOnce | crates/server/src/store/postgres.rs:344-379 | at most one `start_run` transaction per run ever commits with the answer true |
| StaleCancels.CancelOverwritesIff | crates/server/src/store/postgres.rs:279-303 | the exact condition: a cancellation that commits replaces a Completed or Failed if and only if its campaign was already Completed or Failed when its unguarded update took the lock; its run is Cancelled afterwards |
| StaleCancels.OutcomesAreFinalIff | crates/server/src/store/postgres.rs:276-309 | in a behaviour no committed Completed or Failed is ever replaced if and only if no cancellation that commits found its campaign Completed or Failed at its lock |
| StaleCancels.OverwriteIsAStaleCancel | crates/server/src/store/postgres.rs:279-303 | a step replaces a committed Completed or Failed if and only if it commits a cancellation of the run's campaign; that cancellation itself read the campaign, not terminal, before a finish of the run committed, and locked it after |
| StaleCancels.EveryCancelReadsThenLocks | crates/server/src/store/postgres.rs:279-298 | every cancellation that commits its writes did its own read in a state where the campaign was not terminal, and its own lock in a later one, the transaction staying open in between |
| StaleCancels.LockedCampaignStands | crates/server/src/store/postgres.rs:294-305 | from a cancellation's lock to its commit the committed campaign row does not change |
| StaleCancels.FinishedInBetween | crates/server/src/store/postgres.rs:381-409 | a run that has an outcome now and had none before got it from a `finish_run` that committed in between |
| TransactionSafety.StatementKeepsTx | crates/server/src/store/postgres.rs:200-432 | every statement keeps what its transaction's buffer promises at its program point, in particular that what commits is balanced between runs and campaigns |
| TransactionSafety.LocksAreExclusive | crates/server/src/store/postgres.rs:294-303 | in no state of any behaviour do two open transactions hold the same run or campaign row |
| TransactionSafety.StartCampaignKeepsTx | crates/server/src/store/postgres.rs:373-376 | while `start_run` holds a pending run its campaign is queued, so the guard of its campaign update passes |
| TransactionSafety.MergeKeepsConsistent | crates/server/src/store/postgres.rs:305-305 | committing a balanced buffer keeps one run per campaign, mirrored, with times set exactly when the status says so |
| SerialCalls.SerialCreate | crates/server/src/store/postgres.rs:200-237 | the statements of `create_campaign`, met by no lock, commit exactly the atomic call |
| SerialCalls.SerialStart | crates/server/src/store/postgres.rs:344-379 | the same for `start_run`, including its answer, for pending, missing and other runs |
| SerialCalls.SerialFinish | crates/server/src/store/postgres.rs:381-432 | the same for `finish_run` with any number of findings, whether or not the run is still running; Store.FinishDecides says what that is |
| SerialCalls.SerialFinishDecides | crates/server/src/store/postgres.rs:381-432 | what the statements commit for a running run, column by column: Completed, Failed or Cancelled on run and campaign exactly as reported, the report's iterations and log tail, the finish time, every other column and row as before, and one finding row per finding |
| SerialCalls.SerialCancel | crates/server/src/store/postgres.rs:276-309 | the same for `cancel_campaign`, with None exactly for an unknown campaign |
| SerialCalls.StaleCancelOverwrites | crates/server/src/store/postgres.rs:279-303 | from every reachable state with a running run and no open transaction, an interleaving commits any outcome and then overwrites it with Cancelled |
| SerialCalls.CreatedCanBeStarted | crates/server/src/store/postgres.rs:200-379 | from every state with no open transaction, creating a campaign and starting its run reaches that run Running, again with none open |
| SerialCalls.PendingCanBeStarted | crates/server/src/store/postgres.rs:344-379 | from every state with no open transaction, every pending run can be brought to Running |
| SerialCalls.SerialClaim | crates/server/src/store/postgres.rs:311-342 | the single statement of a claim is possible for exactly the claimable jobs and is then the atomic claim |
| SerialCalls.PendingIsNeverStuck | crates/server/src/store/postgres.rs:344-379 | from every state of every interleaving, whatever is open and locked, a pending run can still be brought to Running: no interleaving leaves the tables in a state that blocks it |
| SerialCalls.AllCanAbort | crates/server/src/store/postgres.rs:200-432 | from every state all open transactions can abort, which leaves the committed tables as they are |
| Store.FinishDecides | crates/server/src/store/postgres.rs:381-432 | finishing a running run writes the reported outcome word to run and campaign, its iterations, log tail and time, and appends its findings in order; otherwise only the findings; it fails exactly on findings of an unknown run |
| Store.StartDecides | crates/server/src/store/postgres.rs:344-379 | a run starts exactly if it is pending; run and campaign are then Running, start time set, its own findings gone, those of every other run and all other columns kept |
| Store.CancelDecides | crates/server/src/store/postgres.rs:276-309 | None exactly for an unknown campaign; a terminal one is left alone and reported; otherwise the campaign and every run it has are Cancelled, finish time set, all else kept |
| Store.CreateDecides | crates/server/src/store/postgres.rs:200-237 | the three new rows column by column: queued, pending with nothing run yet, unclaimed with no attempts; every other row kept |
| Store.ClaimDecides | crates/server/src/store/postgres.rs:311-342 | None exactly if no unclaimed job has a pending run; otherwise such a job is claimed by the worker with one more attempt, reported as stored, all else kept |
| Store.CreateKeepsConsistent | crates/server/src/store/postgres.rs:200-237 | creating keeps one run per campaign, the mirror and the timestamps |
| Store.CreateKeepsJobs | crates/server/src/store/postgres.rs:221-227 | creating keeps exactly one job per run, each naming its run's campaign |
| QueueSafety.OneRunAndJobEach | crates/server/src/store/postgres.rs:200-236 | in every interleaving of statements, each committed campaign has exactly one committed run and exactly one committed job, which names both |
| QueueSafety.MergeKeepsJobs | crates/server/src/store/postgres.rs:221-235 | committing any buffer keeps one job per run: a new run commits only together with its job |
| WorkerSafety.OneRunAndJobEach | crates/server/src/store/mod.rs:56-62 | in every schedule each campaign has exactly one run and each run exactly one job |
| Store.StartKeepsConsistent | crates/server/src/store/postgres.rs:344-379 | starting keeps the tables consistent, start time set with the status |
| Store.FinishKeepsConsistent | crates/server/src/store/postgres.rs:381-432 | finishing keeps the tables consistent whenever it does not fail on findings of an unknown run |
| Store.CancelKeepsConsistent | crates/server/src/store/postgres.rs:276-309 | cancelling keeps the tables consistent |
| Store.CancelRewritesOneRun | crates/server/src/store/postgres.rs:294-303 | the unguarded update of all runs of a campaign rewrites its one run and nothing else |
| Store.TerminalIsFinal | crates/server/src/store/mod.rs:72-102 | as atomic calls, start, finish and cancel leave the rows of a terminal run and of its campaign exactly as they are |
| Store.CancelTwice | crates/server/src/store/mod.rs:72-76 | cancelling twice leaves the tables and the answer of cancelling once |
| MockStore.MockStore.constructor | crates/server/src/store/mock.rs:37-43 | four empty vectors stand for empty tables |
| MockStore.MockStore.CreateCampaign | crates/server/src/store/mock.rs:86-121 | the pushes do to the tables what the atomic call does, return the new record, and keep creation times in order under a clock that does not go back |
| MockStore.MockStore.CancelCampaign | crates/server/src/store/mock.rs:155-169 | scan and in-place updates equal the atomic call; the record is the campaign's with its run's id; a terminal campaign is untouched and creation order is kept |
| MockStore.MockStore.ClaimJob | crates/server/src/store/mock.rs:171-191 | always claims and reports a claimable job, or None exactly when there is none, changing nothing; the oldest one when creation times follow insertion order |
| MockStore.MockStore.StartRun | crates/server/src/store/mock.rs:193-217 | run, findings and campaign phases together equal the atomic call and its answer; creation order is kept |
| MockStore.MockStore.FinishRun | crates/server/src/store/mock.rs:219-258 | run, campaign and findings phases together equal the atomic call that Store.FinishDecides decides; it fails exactly on findings of an unknown run; creation order is kept |
| MockStore.MockStore.PushFindings | crates/server/src/store/mock.rs:241-256 | appends one record per finding, in order, each carrying the campaign and target of its run |
| MockStore.MockStore.FindClaimable | crates/server/src/store/mock.rs:171-182 | the scan stops at the first claimable job, or at the end if there is none |
| MockStore.FirstIsOldest | crates/server/src/store/mock.rs:171-182 | the first claimable job of the vector is the oldest one when creation times follow insertion order |
| MockStore.DropIsFindingsNotOf | crates/server/src/store/mock.rs:209-209 | retaining the findings of other runs is the table delete |
| Listing.MatchedExactly | crates/server/src/store/mock.rs:123-136 | the filter keeps exactly the matching campaigns, as often as they occur |
| Listing.ListedDecides | crates/server/src/store/mock.rs:123-137 | a campaign is listed exactly if it is in the store and meets each given criterion: equal status, equal target, created no earlier than since and no later than until |
| Listing.PageDecides | crates/server/src/store/mock.rs:138-142 | a page is the entries from the offset on, in order, as many as the limit or up to the end |
| Listing.MatchedInOrder | crates/server/src/store/mock.rs:123-136 | and in their order |
| Listing.NewestFirstSorts | crates/server/src/store/mock.rs:137-137 | the sort is by descending creation time, a permutation, and keeps ties in insertion order |
| Listing.StableSortIsUnique | crates/server/src/store/mock.rs:137-137 | those properties determine the result, so any stable sort gives this list |
| MockStore.MockStore.PagesListEverything | crates/server/src/store/mock.rs:123-143 | on a store that stands still, for every filter and page size of at least 1, the pages read at offsets 0, L, 2L, ... until one is empty concatenate to every matching campaign exactly once, newest first, stable on ties |
| Listing.PagesListEverything | crates/server/src/store/mock.rs:137-142 | the same of the pages of a list |
| WorkerSafety.InvokedAndClaimedAtMostOnce | crates/server/src/worker/mod.rs:73-132 | in every schedule of any number of workers the runner is invoked at most once per run, each job is claimed at most once, and no two busy workers hold the same run |
| WorkerSafety.FindingsAndOutcomeKept | crates/server/src/store/postgres.rs:381-432 | a run's stored findings are none or exactly those its one `finish_run` stored, also when a cancellation won, and the run then stands at the very outcome word that was stored or at Cancelled |
| WorkerSafety.ReportsAreFinal | crates/server/src/worker/mod.rs:160-162 | what `finish_run` stored for a run is never replaced |
| WorkerSafety.TerminalRunsAreFinal | crates/server/src/store/mod.rs:87-102 | with whole calls atomic, a terminal status never changes in any schedule |
| WorkerSafety.ClaimedInOrder | crates/server/src/store/postgres.rs:314-327 | once a job is claimed, every job created before it is claimed or its run has left pending |
| WorkerSafety.HubIsTheLiveRuns | crates/server/src/worker/progress.rs:24-50 | a process's hub has a channel for exactly the runs one of its workers is between `publisher` and `close` on, and never more channels than workers |
| WorkerSafety.EmissionsMatchStore | crates/server/src/worker/mod.rs:119-164 | a worker has emitted exactly Running, then the outcome; once the store was told, it was told that outcome and holds it or Cancelled |
| WorkerSafety.StepKeepsFifo | crates/server/src/store/postgres.rs:314-327 | every step keeps claimed jobs no younger than claimable ones |
| WorkerSafety.StepKeepsHub | crates/server/src/worker/progress.rs:24-50 | every step keeps hub and live workers in one-to-one correspondence; closing removes only the worker's own channel |
| WorkerSafety.StepKeepsStages | crates/server/src/worker/mod.rs:86-165 | every step keeps what each worker's program point says about its job, run, emissions and report |
| WorkerSafety.StepKeepsFindings | crates/server/src/store/postgres.rs:368-426 | the delete of `start_run` removes nothing, since a run that can still start has no findings, and `finish_run` adds its findings only to a run without any; findings stay those reported |
| WorkerProgress.OldestCanBeDone | crates/server/src/worker/mod.rs:55-165 | from every reachable state an idle worker can take the oldest claimable job, its target being registered, to the end, whatever the runner returns: the run has that outcome and those findings, Running and then the outcome were emitted, the worker is idle and its channel closed |
| WorkerProgress.OldestCanBeStarted | crates/server/src/worker/mod.rs:73-131 | from every reachable state an idle worker can claim the oldest job, start its run and hand it to the runner |
| WorkerProgress.WorkCanBeStored | crates/server/src/worker/mod.rs:132-162 | whatever the runner returns for a running run can be announced and then stored as its report and status |
| Stream.ProgressHub.Publisher | crates/server/src/worker/progress.rs:24-31 | opens a channel for a run without one and reuses the existing one otherwise |
| Stream.ProgressHub.Subscribe | crates/server/src/worker/progress.rs:38-44 | a receiver exactly when the run has a channel, positioned after everything sent |
| Stream.ProgressHub.Close | crates/server/src/worker/progress.rs:48-50 | removes that run's channel and no other |
| Stream.StreamRun | crates/server/src/api/stream.rs:127-186 | the loop emits exactly the rendering of the delivered events up to the first terminal status; without a channel, the stored status once |
| Stream.RenderedFaithfully | crates/server/src/api/stream.rs:144-185 | every event is shown in its place, each progress event carries the status shown last before it, and the terminal status is shown once and last |
| Stream.RenderedUnterminated | crates/server/src/api/stream.rs:144-185 | a stream closed before any terminal status shows every delivered event in its place |
| Stream.RenderSays | crates/server/src/api/stream.rs:37-43 | each event is shown with its own fields, and a log level by the words info, warn and error respectively |
| Stream.Recv | crates/server/src/api/stream.rs:146-184 | lagged exactly if more than 256 events behind, told how many were skipped, 256 of them left; otherwise the next event |
| Stream.DeliveriesAreASubsequence | crates/server/src/api/stream.rs:146-184 | whatever the lag, the deliveries are an increasing selection of the log that misses none of the newest 256 events |
| Stream.SubscriberSeesOutcomeOnceAndLast | crates/server/src/worker/mod.rs:119-164 | a subscriber that joined before the terminal emission and reads to the end sees a faithful stream whose last event is the run's outcome and whose only terminal status that is |
| AddressPools.Generate | crates/core/src/auth.rs:24-27 | a pool of the asked size, at least one, of distinct addresses |
| AddressPools.GetWraps | crates/core/src/auth.rs:33-35 | an index within the pool names the address at that position, and indices repeat with the pool's size |
| AddressPools.Resolve | crates/core/src/auth.rs:47-56 | the loop computes the named addresses without repetitions |
| AddressPools.WithoutRepeatsInOrder | crates/core/src/auth.rs:45-56 | exactly the named addresses, each once, in the order of first appearance |
| AddressPools.SignersAreNamed | crates/core/src/auth.rs:45-56 | an address signs a step exactly if one of the step's raw indices, modulo the pool's size, names it |
| Harness.Harness.Run | crates/core/src/harness.rs:76-135 | the truncating loop returns the verdict that HarnessTraces.CleanIff and HarnessTraces.EndIff decide |
| Harness.Harness.TakeStep | crates/core/src/harness.rs:84-131 | one iteration: clock, authorizers, execution, panic check, shadow model, checks, in this order; HarnessTraces says when it goes on and with what it ends the run |
| Harness.Harness.CheckInvariants | crates/core/src/harness.rs:129-131 | the checks in registration order up to the first that fails |
| Harness.VerdictIsFirstStop | crates/core/src/harness.rs:76-135 | for every adapter, a run is clean exactly when no step stops it; otherwise the verdict is that of the one step that does, which lies within the bound |
| Harness.CheckAllIsFirstFailure | crates/core/src/harness.rs:129-131 | what a step reports is the first registered invariant that does not pass |
| Harness.StopIsUnchangedByContinuation | examples/counter/src/harness.rs:471-483 | a run that stops has the same verdict under every continuation and every larger bound |
| HarnessTraces.CleanIff | crates/core/src/harness.rs:76-135 | for every adapter, a run is clean if and only if there is a sequence of states from the set-up through all its steps within the bound such that at each step the command, executed at the saturated time by the named signers, returned without unwinding or panicking, the shadow model did not overflow and every registered check passed |
| HarnessTraces.EndIff | crates/core/src/harness.rs:83-131 | the verdict is any other one if and only if some step after such a sequence ends the run with it: a panic under its message, a shadow overflow, or the first check that does not pass |
| HarnessTraces.PanicIsFound | crates/core/src/harness.rs:103-115 | a command that unwinds or returns an undeclared panic at a reached step k makes the verdict no-undeclared-panic with that message at step k |
| Harness.OutcomeDecides | crates/core/src/command.rs:77-105 | Ok exactly for a returned call, a declared error with the contract's own code, an undeclared panic exactly for an abort with the authorization granted, rejected exactly for one without |
| Harness.AdvanceDecides | crates/core/src/harness.rs:84-87 | time moves by the seconds asked for and stops at the last u64 |
| Invariants.NoNegativeBalanceDecides | crates/invariants/src/no_negative_balance.rs:29-41 | passes if and only if no holder's balance is negative; otherwise it names itself and the step |
| Invariants.CheckedSumOfNonNegative | crates/invariants/src/supply_conservation.rs:28-44 | over non-negative balances the running i128 sum overflows only if the whole sum does, so the sign check must come first |
| Invariants.CheckedSumDecides | crates/invariants/src/supply_conservation.rs:28-34 | the running sum is the whole sum if every partial sum fits i128 and overflows otherwise |
| Invariants.SupplyConservationDecides | crates/invariants/src/supply_conservation.rs:28-44 | overflows exactly if a partial sum leaves i128, else passes exactly if the balances sum to the supply, else fails under its name at the step |
| Invariants.AuthRequiredDecides | crates/invariants/src/auth_required_for_mutation.rs:39-55 | fails, under its name at the step, exactly if the command succeeded and its required address is not among the authorizers |
| Token.TokenContract.Mint | examples/token/src/lib.rs:47-71 | the in-place mint has the result and storage that Token.MintDecides decides |
| Token.TokenContract.Burn | examples/token/src/lib.rs:73-102 | the same for a burn |
| Token.TokenContract.Transfer | examples/token/src/lib.rs:104-128 | the same for a transfer, both balances read before either is written |
| Token.MintDecides | examples/token/src/lib.rs:47-71 | accepted exactly if the amount is not negative, the admin signed and balance and supply stay within i128; then exactly one balance and the supply rise by it; error codes 2 and 3 and the abort have exact conditions and change nothing |
| Token.BurnDecides | examples/token/src/lib.rs:73-102 | the same for a burn, signed and covered by its holder, with error codes 1, 2 and 3 |
| Token.TransferDecides | examples/token/src/lib.rs:104-128 | the same for a transfer: between distinct ends the amount moves, to oneself it is added, the supply stays |
| Token.MintConserves | examples/token/src/lib.rs:47-71 | a mint changes the sum of balances and the supply alike |
| Token.BurnConserves | examples/token/src/lib.rs:73-102 | so does a burn |
| Token.TransferDrift | examples/token/src/lib.rs:112-126 | a transfer keeps the sum of balances if its ends differ and raises it by the amount if they are the same |
| TokenHarness.TokenModel.BalanceMut | examples/token/src/harness.rs:35-42 | the first entry of an address, pushed with zero if there is none |
| TokenHarness.TokenModel.Apply | examples/token/src/harness.rs:177-202 | the in-place updates of the shadow model; it fails exactly when an unchecked addition overflows |
| TokenHarness.AddedAt | examples/token/src/harness.rs:35-57 | updating at the position of the scan is adding to the first entry, whose value the lookup reads |
| TokenSafety.AddedChangesOne | examples/token/src/harness.rs:35-57 | adding keeps keys unique and changes one balance and the total by the same amount |
| TokenSafety.NeverPanics | examples/token/src/harness.rs:110-175 | no command panics, and one that succeeds was signed |
| TokenSafety.CommandDecides | examples/token/src/harness.rs:110-175 | in every state a run reaches, a command succeeds exactly if the step authorizes its signer, the payer covers it and balance and supply stay within i128; rejected exactly without the signature; declared errors 1 and 2 exactly otherwise |
| TokenSafety.MintKeepsRelated | examples/token/src/harness.rs:184-187 | a successful mint cannot overflow the shadow and keeps the contract dominating it |
| TokenSafety.BurnKeepsRelated | examples/token/src/harness.rs:188-191 | a successful burn cannot overflow the shadow; it keeps the relation within the shadow balance and leaves a negative one beyond it |
| TokenSafety.TransferKeepsRelated | examples/token/src/harness.rs:192-199 | the same for a transfer; to oneself it puts the contract ahead by the amount |
| TokenSafety.RelatedPasses | crates/invariants/src/supply_conservation.rs:28-44 | in related states all three checks pass and no partial sum leaves i128 |
| TokenSafety.ChecksDecide | fuzz/fuzz_targets/token_fuzz.rs:10-18 | for any shadow model with unique keys: negative balance, then overflow or supply mismatch, then missing signature, each reported exactly when it holds and the ones before do not |
| TokenSafety.StepDecided | crates/core/src/harness.rs:83-131 | a step from related states either overdraws the shadow, and is reported as a negative balance at its own index, or goes on in related states; nothing else can happen |
| TokenSafety.DriftIsSelfTransfers | examples/token/src/harness.rs:177-202 | after every step of every run not yet stopped, supplies agree and each address's contract balance exceeds its shadow balance by exactly the total of its successful self-transfers |
| TokenSafety.TokenVerdict | fuzz/fuzz_targets/token_fuzz.rs:10-18 | every run's verdict: never a crash, an overflow or another invariant; a negative balance at step k exactly when k is a reached step that overdraws |
| TokenSafety.SelfTransferIsCaught | examples/token/src/lib.rs:112-126 | for any pool, a self-transfer followed by a burn of the initial supply plus one is reported at step 1 |
| TokenSafety.DistinctEndsAgree | examples/token/src/harness.rs:177-202 | while no reached step is a positive self-transfer, contract and shadow balances agree |
| TokenSafety.DistinctEndsAreClean | fuzz/fuzz_targets/token_fuzz.rs:10-18 | a run without a successful positive self-transfer is clean |
| TokenSafety.BooksOffBySelfTransfers | examples/token/src/lib.rs:104-128 | after every step the contract's balances sum to its supply plus everything self-transfers created, so to its supply if and only if no reached step was a positive self-transfer that succeeded |
| Counter.CounterContract.Increment | examples/counter/src/lib.rs:37-42 | checked increment: the new count or the overflow error |
| Counter.CounterContract.Decrement | examples/counter/src/lib.rs:44-49 | checked decrement |
| Counter.CounterContract.Reset | examples/counter/src/lib.rs:51-56 | back to zero by the admin only |
| Counter.CounterContract.Set | examples/counter/src/lib.rs:58-63 | assignment by the admin only |
| Counter.CountingDecides | examples/counter/src/lib.rs:37-49 | counting fails exactly at the ends of i64, with code 1 above and 2 below, and otherwise moves the count by the step |
| Counter.AssignedDecides | examples/counter/src/lib.rs:51-63 | aborts exactly without the admin's signature and otherwise stores the value |
| Counter.CommandSucceedsIff | examples/counter/src/harness.rs:62-100 | which commands succeed by the count and the addresses a step authorizes, and what they leave |
| Counter.CounterVerdict | examples/counter/src/harness.rs:136-155 | for increments of 1 or 2, a mismatch at step k exactly when k is a reached increment that diverges from the saturating model |
| Counter.CorrectCounterIsClean | examples/counter/src/harness.rs:103-126 | the counter is clean on every run although it checks and the model saturates |
| Counter.BrokenCounterVerdict | examples/counter/src/harness.rs:309-441 | the broken variant is reported at exactly the first executed increment from a count of at most i64::MAX - 2 |
| Counter.BrokenIncrementCaught | examples/counter/src/harness.rs:471-483 | a run that begins with an increment is reported at step 0 under every continuation |
| Escrow.EscrowContract.MakeDeposit | examples/escrow/src/lib.rs:60-71 | the one deposit, signed by the depositor |
| Escrow.EscrowContract.MakeRelease | examples/escrow/src/lib.rs:75-89 | release only of a deposit and only before the deadline |
| Escrow.EscrowContract.MakeRefund | examples/escrow/src/lib.rs:94-105 | refund only of a deposit and only from the deadline on |
| Escrow.DepositDecides | examples/escrow/src/lib.rs:60-71 | accepted exactly from Empty with the depositor's signature, storing that amount; every failure has its exact condition and changes nothing |
| Escrow.ReleaseDecides | examples/escrow/src/lib.rs:75-89 | accepted exactly from Deposited, signed, before the deadline; codes 2 and 4 otherwise, with exact conditions |
| Escrow.RefundDecides | examples/escrow/src/lib.rs:94-105 | accepted exactly from Deposited at or after the deadline; codes 2 and 3 otherwise |
| Escrow.CommandSucceedsIff | examples/escrow/src/harness.rs:80-119 | which commands succeed in a reached state by clock, status and authorized addresses, and where the clock then stands, saturating |
| Escrow.StatusCheckDecides | examples/escrow/src/harness.rs:141-166 | passes exactly if contract and shadow model have the same status, and otherwise fails under its name at the step |
| Escrow.EscrowIsClean | examples/escrow/src/harness.rs:80-165 | every escrow run is clean, with time moved both by steps and by commands, saturating |
| Escrow.EscrowOnlyMovesForward | examples/escrow/src/lib.rs:60-105 | along every run time does not go back, parties and deadline stay, the status only advances and the amount is frozen once deposited |
| Escrow.SettlementRespectsDeadline | examples/escrow/src/lib.rs:75-105 | a release succeeds only strictly before the deadline and a refund only at or after it |
| Escrow.AtMostOneSettlement | examples/escrow/src/lib.rs:75-105 | at most one release or refund ever succeeds in a run |
| Decimal.ShowThenRead | crates/core/src/invariant.rs:40-42 | a printed number is digits only and reads back as itself |
| Decimal.FirstDigitCountsMost | crates/server/src/runner/output.rs:104-104 | numbers are read most significant digit first |
| FuzzerOutput.MatchIsSpelling | crates/server/src/runner/output.rs:28-34 | the deterministic matcher finds, at each position, exactly what the pattern read as a grammar describes |
| FuzzerOutput.FirstMatchIsLeftmost | crates/server/src/runner/output.rs:101-102 | the search returns the match with the smallest start |
| FuzzerOutput.WrittenIsFound | crates/server/src/runner/output.rs:28-34 | for every such pattern, values written out after a prefix without its opening words are what the search returns, whatever follows; if one is empty the search passes over them |
| FuzzerOutput.PrintThenParse | crates/server/src/runner/output.rs:101-108 | a recognisable violation printed after a prefix that does not say "invariant \`" parses back to its name, step and trimmed first line before any suffix, even one that looks like a violation; only a step beyond i32 is lost |
| FuzzerOutput.ReadBackIffRecognisable | crates/core/src/invariant.rs:36-44 | at its own position a violation is read back if and only if its name is non-empty and free of backticks and its message has a non-empty first line |
| FuzzerOutput.PrintedIsFound | crates/server/src/runner/output.rs:101-108 | the search finds a recognisable violation and reads on one character later past any other whose name has no backtick |
| FuzzerOutput.CrashedRunFinding | crates/server/src/runner/output.rs:56-82 | the finding of a run that printed a violation: none on a timeout or a zero or missing exit code, otherwise the violation, or the fallback if its step is beyond i32 |
| FuzzerOutput.SilentCrashFinding | crates/server/src/runner/output.rs:56-82 | a crash whose log does not say "invariant \`" is an undeclared panic at step 0 with the last 2000 bytes of the log |
| FuzzerOutput.ArtifactThenParse | crates/server/src/runner/output.rs:97-99 | a path without whitespace is recovered from the line it is printed on |
| Utf8.EncodeChar | crates/server/src/runner/output.rs:112-121 | one to four bytes, of which exactly the first is not a continuation byte (section 3 of RFC 3629) |
| Utf8.EncodeCharDecides | crates/server/src/runner/output.rs:112-121 | one, two, three or four bytes by the code-point ranges of section 3 of RFC 3629, whose first byte announces that length and whose payload bits are the code point |
| Utf8.EncodeThenDecode | crates/server/src/runner/output.rs:112-121 | reading the bytes of any text by the bit layouts of section 3 of RFC 3629 gives back its code points |
| Utf8.CharsBefore | crates/server/src/runner/output.rs:120-120 | every boundary splits the text between characters, so slicing there never cuts one |
| Utf8.BoundariesAreCharacterEnds | crates/server/src/runner/output.rs:117-119 | the byte test of a boundary holds exactly where whole characters end |
| Utf8.BoundaryIsNear | crates/server/src/runner/output.rs:117-119 | the search for a boundary moves at most three bytes |
| Utf8.TailIsLongestSuffix | crates/server/src/runner/output.rs:112-121 | for every text and limit, before trimming `tail` keeps the longest suffix of whole characters within the limit and leaves at most three bytes unused |
| Utf8.AsciiTail | crates/server/src/runner/output.rs:112-121 | of ASCII text the last `max` characters are kept, before trimming |
| Utf8.TrimIsTheCore | crates/server/src/runner/output.rs:106-106 | trimming recovers any text without outer whitespace from inside any whitespace |
| Utf8.WhitespaceListed | crates/server/src/runner/output.rs:106-106 | the 25 characters of Unicode's White_Space property are what trimming removes |
| FuzzTargets.ReportIsRecorded | crates/server/src/runner/output.rs:56-82 | a reported violation with a plain name is recorded under that name and step from any log that does not say "invariant \`" earlier |
| FuzzTargets.TokenFindingIsRecorded | fuzz/fuzz_targets/token_fuzz.rs:10-18 | when a token run overdraws at step k, the target panics and the server records a negative balance at step k |
| FuzzTargets.CounterTargetIsSilent | fuzz/fuzz_targets/counter_fuzz.rs:11-16 | the counter target never panics |
| FuzzTargets.CounterFindingIsRecorded | examples/counter/src/harness.rs:443-460 | hypothetical, as the broken counter exists only under test: a target built for it like the counter's would have its mismatch recorded at the diverging step |

## Left out

- `parse_iterations` and the display of iteration counts: scans of the same kind as the artifact path, with an easy maximum.
- Unicode digits: `\d` also matches non-ASCII digits, which i32 parsing then rejects; the pattern here matches ASCII digits only.
- FuzzerOutput.PrintThenParse: is about a violation followed by a newline, as the panic handler prints it; the end of the log directly after the message is not stated.
- PgStore as a class: its transactions are a transition system over values, since what matters is their interleaving; statement effects are connected to the atomic calls by the serial lemmas instead of method contracts.
- Row locks of statements that match no row at their re-check are not kept; the model lets such a transaction go on without the lock, which only adds interleavings.
- Deadlock detection: any open transaction may abort at any time, which includes every victim Postgres could choose.
- The SELECT at the end of `create_campaign` and the record `cancel_campaign` assembles from its read: the values returned over HTTP, not stored ones.
- Columns `worker`, `updated_at`, `claimed_at`, `shrunk_input` and the step sequence of a finding, and the read-only `get_run`, `get_finding` and `list_findings_for_run`.
- MockStore.MockStore.FinishRun: one clock value per call, where the mock reads the clock for every record; a panic of the mock is an answer false, without the poisoned mutex it leaves behind.
- MockStore.MockStore.StartRun: calls are atomic, while the mock releases its locks between phases.
- Liveness: nothing is proved to happen eventually, only what stays possible (`WorkerProgress.dfy`); a worker that gives up after claiming leaves the job claimed and the run pending.
- Stream.StreamRun: the timestamp of log and finding events and failures to serialise an event.
- Stream.SubscriberSeesOutcomeOnceAndLast: assumes, as the runner interface documents by omission, that a runner publishes no terminal status of its own.
- Panic or cancellation of a runner future: the runner returns a result or an error.
- Harness.FromTryResult: an abort is the only host failure, its message is shortened, and the panic on a result that cannot be converted is not modelled.
- The Soroban host, WASM execution, signatures, storage time-to-live and rollback: the contracts write only after all their checks.
- Values returned by successful contract calls, which the harness discards.
- Sampling strategies, process spawning, pipes and time limits, configuration, HTTP routing and JSON.
- `usize` saturation in the mock's page slice: offsets and limits are natural numbers, clamped by the API before they reach the store.
