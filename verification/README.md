# Company-fund ledger model

A model of the company-fund ledger engine (`internal/companyfund`) and of the background
scheduler (`internal/adaptiveschedule`), with proofs of what their protocols guarantee.

Durable state is modelled as maps of rows. Each SQL statement or transaction is one atomic
step, and the interleavings of workers, crashes, expired leases and operators are sequences
of such steps. Methods carry the program's own control flow; each is tied to a function of
the old state, and the theorems are about those functions over whole runs.

| file | subject |
|---|---|
| `Reconciler.dfy`, `ReconcilerRuns.dfy`, `ReconcilerExamples.dfy` | paged ingestion with a durable checkpoint of limited size: closure, exactness over crashes, number of attempts |
| `AccountLifecycle.dfy`, `AccountLifecycleRuns.dfy`, `AccountLifecycleWorker.dfy` | leased lifecycle commands, the audit log, the worker's turn |
| `LedgerTasks.dfy` | leased ledger tasks with an SLA |
| `ConversionPairs.dfy`, `ReversalChecks.dfy` | pairing of conversion legs, reversal semantics |
| `MovementIdentity.dfy` | fallback identities of movements |
| `FinanceFilter.dfy`, `FinanceQuery.dfy`, `FinanceDrilldown.dfy` | the finance filter, its compilation to SQL conditions, dashboard drill-down |
| `RuntimeConfig.dfy`, `RuntimeRules.dfy` | the Airwallex rule compiler, what acceptance asks of each field and what it guarantees later stages |
| `ProviderMerge.dfy` | merging provider facts, status policies |
| `FactBinding.dfy` | facts before movements |
| `TokenCache.dfy` | the single-flight access-token cache |
| `Backoff.dfy`, `AdaptiveSchedule.dfy` | delays in int64, adaptive loops under one shared window |
| `DueQueue.dfy`, `Models.dfy`, `Ordering.dfy`, `Text.dfy`, `Wrappers.dfy` | first-due selection, shared names, sorting, byte strings, option and result |

The bounds of the model: time is an integer; amounts are integers or reals in exact
arithmetic; SHA-256 is an injective constructor; strings are byte sequences with ASCII
trimming and upper-casing. A listing is a fixed function from page number to items. Clocks
of the leased state machines are arbitrary; only the shared-window theorem asks for a
monotone clock, and its instants are the readings the gate is asked with.

## Where the code is narrower than a reader might expect

Each has its exact condition as a theorem and a lemma at a concrete input.

- A relationship SLA of less than one microsecond (`relationship_sla: "500ns"`) passes the
  configuration but every task made from it is refused; likewise references too long for
  the pending marker. `RuntimeConfig.TaskAcceptedExactly`, `RuntimeConfig.HastyRule`.
- The loop's package comment says MoreWork re-enters immediately; with a future NextDue the
  loop sleeps until it. `AdaptiveSchedule.MoreWorkReentersExactly`,
  `AdaptiveSchedule.MoreWorkSleeps`.
- A loop that oversleeps its opening by the grace period can be turned away again.
  `AdaptiveSchedule.BlockedThenAllowed`, `AdaptiveSchedule.OversleptOpening`.
- Merging is not independent of delivery order for fields the newest fact lacks and older
  facts dispute. `ProviderMerge.MergeConverges`, `ProviderMerge.DisputedHash`.
- A dashboard total over a currency that is not stored in canonical form cannot be drilled
  into. `FinanceDrilldown.DrilldownReproducesGroup`,
  `FinanceDrilldown.LowerCaseTotalHasNoDetails`.
- Canonicalising a filter changes what it matches when it asks for such a currency.
  `FinanceDrilldown.CanonicalKeepsMatches`, `FinanceDrilldown.LowerCaseRequestLosesRow`.
- EventsCreated undercounts by one for each crash between a fresh ingest and its
  checkpoint. `ReconcilerRuns.RunIsExact`, `ReconcilerExamples.TornCrashUndercounts`.
- In a listing of more than 2001 pages the checkpoint stays at page 2000 and CandidatesSeen
  counts that page again on each later attempt. `ReconcilerRuns.CandidatesExactly`,
  `ReconcilerExamples.LastPageCountedTwice`.
- A page with more than 157 distinct items is never copied, though page sizes up to 1000 are
  accepted: the store refuses checkpoints over 16384 bytes, at 158 IDs only when it reads
  the text back, so that every later open fails too. `ReconcilerRuns.ClosureExactly`,
  `ReconcilerRuns.FreshAttempts`, `ReconcilerExamples.CrowdedPage`,
  `ReconcilerExamples.CrowdedPageSticks`.
- A conversion whose row is already linked to another group or leg ends in an error, so its
  task is neither buried nor retried but claimed again, also past its SLA.
  `ConversionPairs.RefusedExactly`, `ConversionPairs.AnotherGroupIsAnError`,
  `LedgerTasks.PastSlaTurnEnds`, `LedgerTasks.ErringTaskOutlivesItsSla`.
- The order of two Safeheron deliveries of one highest rank but different status decides
  the status. `ProviderMerge.StatusConverges`, `ProviderMerge.TwoTerminals`.
- An upsert may declare a row COMPLETE that has no peer; the pairing of complete legs rests
  on no caller doing so. `ConversionPairs.UpsertKeepsExactly`,
  `ConversionPairs.CompleteOnArrivalIsUnpaired`.

## Model

| member | source | states |
|---|---|---|
| Reconciler.ValidateCheckpoint | internal/companyfund/airwallex_reconciler.go:259-284 | A stored checkpoint is accepted exactly when its numbers are in range, its in-flight list is bounded, duplicate free and made of valid event IDs; it resumes at the in-flight page if there is one |
| Reconciler.Store.CopyItems | internal/companyfund/airwallex_reconciler.go:72-98 | The item loop, stopped at any step by a failing call or a crash, leaves exactly what that many atomic steps leave; it only stops early for a refused item, a checkpoint the store does not take, or the fault |
| Reconciler.Store.SaveCheckpoint | internal/companyfund/sync_run_adapter.go:331-362 | Writing succeeds exactly when the checkpoint is valid, its encoding is within 16384 bytes and so is the text read back; when only the text is too long it has been written all the same |
| ReconcilerRuns.CheckpointSize | internal/companyfund/sync_run_types.go:186-215 | A valid checkpoint of the reconciler's own event IDs can be written as long as it lists at most 158, and read back if and only if it lists at most 157, whatever its counters |
| Reconciler.Store.Reconcile | internal/companyfund/airwallex_reconciler.go:49-126 | A whole attempt, with a fault in front of any step, leaves the durable state of that many steps of the crash machine; it answers Completed if and only if the run is completed, and every answer means what it says of the listing, the page it stands on and the pages fetched |
| Reconciler.AttemptStands | internal/companyfund/airwallex_reconciler.go:49-126 | What each answer means, over any listing and after any number of steps: Completed that the page read was the last and holds no refused item; the safety limit that more pages follow and MaxPages were fetched or page 2000 was reached; out of bounds a page past 2000; too large a page over the requested size; refused the first item not yet handled; not saved a checkpoint the store does not take |
| Reconciler.AnswersExclude | internal/companyfund/airwallex_reconciler.go:49-126 | No state bears two of these answers, a checkpoint not saved set aside |
| ReconcilerRuns.CheckpointAccepted | internal/companyfund/airwallex_reconciler.go:259-284 | Whatever opens, steps and crashes happened, over a listing of any length, the checkpoint of an unfinished run is valid and resumes at the page it belongs to; the next open accepts it if and only if it lists at most 157 IDs, and it never lists more than its page has distinct items |
| ReconcilerRuns.ClosureExactly | internal/companyfund/airwallex_reconciler.go:49-126 | Checkpoint closure: the checkpoint of every unfinished run is accepted by the next open if and only if no page that can be reached lists more than 157 distinct items before a refused one |
| ReconcilerRuns.StopsAt | internal/companyfund/airwallex_reconciler.go:72-98 | From any point of a run that has not passed such a page there are events that lead to a checkpoint the store cannot read back |
| ReconcilerRuns.StuckForGood | internal/companyfund/sync_run_repository.go:396-399 | Once the stored checkpoint cannot be read back, no further opens, steps or crashes change anything durable |
| ReconcilerRuns.RunIsExact | internal/companyfund/airwallex_reconciler.go:49-126 | Over any opens, steps and crashes and a listing of any length: the inbox stays within initial content plus listing, created + existing = seen, created falls short of the new inbox entries by exactly the crashes between a fresh ingest and its checkpoint; while unfinished, seen is the entries of the pages behind plus those in flight plus the recounts of page 2000; on completion inbox and candidate count are exactly the listing's |
| ReconcilerRuns.RecountedIsClosings | internal/companyfund/airwallex_reconciler.go:100-123 | The recounts are the distinct entries of page 2000 once for each time that page was closed with more pages behind it |
| ReconcilerRuns.CandidatesExactly | internal/companyfund/airwallex_reconciler.go:100-123 | In an unfinished run the candidate count is that of the pages behind and in flight if and only if page 2000 was never closed with more pages behind it, or is empty |
| ReconcilerExamples.TornCrashUndercounts | internal/companyfund/airwallex_reconciler.go:72-98 | One item, a crash between its ingest and its checkpoint: the completed run reports no event created although the inbox gained one |
| ReconcilerExamples.LastPageCountedTwice | internal/companyfund/airwallex_reconciler.go:100-123 | A listing of more than 2001 pages, two attempts that reach page 2000: its one entry is counted twice, and the checkpoint is still accepted and stays at page 2000 |
| ReconcilerRuns.BeyondBoundNeverEnds | internal/companyfund/airwallex_reconciler.go:100-123 | A listing of more than 2001 pages never completes, and no page past number 2000 is read |
| ReconcilerRuns.CompletionNeedsReadableListing | internal/companyfund/airwallex_reconciler.go:54-76 | A completed run implies at most 2001 pages, none over the requested size, no refused item, and no page with more than 157 distinct items |
| ReconcilerRuns.AttemptIsRun | internal/companyfund/airwallex_reconciler.go:53-126 | The attempt the reconciler performs is a run of the crash machine: one open and its steps |
| ReconcilerRuns.AttemptsNeeded | internal/companyfund/airwallex_reconciler.go:53-126 | From any state a run can be left in, over any listing, k fault-free attempts complete it if and only if the listing can be copied (at most 2001 pages, each within the page size, readable and with at most 157 distinct items) and k times MaxPages covers the pages left |
| ReconcilerRuns.FreshAttempts | internal/companyfund/airwallex_reconciler.go:53-126 | A fresh run over any listing of P pages is complete after k fault-free attempts if and only if the listing can be copied and k is at least ceil(P / MaxPages) |
| ReconcilerExamples.CrowdedPage | internal/companyfund/airwallex_reconciler.go:72-98 | One page of n different items at page size 200 is completed by fault-free attempts if and only if n is at most 157 |
| ReconcilerExamples.CrowdedPageSticks | internal/companyfund/sync_run_repository.go:298-301 | On a page of 158 items a run gets to where the checkpoint has been written, its stored text is over 16384 bytes, and nothing durable changes any more |
| ReconcilerExamples.SizesInBytes | internal/companyfund/sync_run_types.go:186-215 | Exact sizes: 131 stored bytes for an empty checkpoint; 16299 for one that lists 157 new items of page 0; 16234 written and 16402 stored for 158 |
| DueQueue.PickFirst | internal/companyfund/account_lifecycle_repository.go:15-22 | The row a claim takes is the first by (next attempt, id) of those it may take |
| AccountLifecycle.Repository.Claim | internal/companyfund/account_lifecycle_repository.go:13-46 | Claims the first due row that is not locked, bumps its attempt and leases it; answers something if and only if some unlocked row is due: pending at its time, or leased past expiry |
| AccountLifecycle.Repository.Apply | internal/companyfund/account_lifecycle_repository.go:346-644 | The whole application transaction: it commits the transition, audit rows and applied marker together or changes nothing; a command not yet applied is applied if and only if every check on the rows passes, an applied one changes nothing |
| AccountLifecycle.AppliedExactly | internal/companyfund/account_lifecycle_repository.go:346-644 | Eleven checks on the rows: lease live, target there, target at the expected version and in a state the command may start from, the transition's own conditions on identity, related row, unfinished events and references, lease still live at the end. An unapplied command is applied if and only if all pass, and otherwise refused with the error of the first that fails |
| AccountLifecycle.Repository.Complete | internal/companyfund/account_lifecycle_repository.go:216-234 | Succeeds exactly for the live holder of an applied command |
| AccountLifecycle.Repository.Fail | internal/companyfund/account_lifecycle_repository.go:236-250 | Succeeds exactly for the live holder of a command that was not applied |
| AccountLifecycle.Repository.Retry | internal/companyfund/account_lifecycle_repository.go:252-269 | Succeeds exactly for the live holder whose flag agrees with the applied marker |
| AccountLifecycleRuns.ApplicationShape | internal/companyfund/account_lifecycle_repository.go:510-681 | An application that takes effect is a legal move of the related row (cutover only) followed by one of the target row, and the audit insert's conflict clause never swallows a row |
| AccountLifecycleRuns.NextKeeps | internal/companyfund/account_lifecycle_repository.go:13-269 | Every step of any worker or operator keeps the invariant that ties account rows to their audit history and commands to the audit log |
| AccountLifecycleRuns.AuditReplays | internal/companyfund/account_lifecycle_repository.go:196-201 | Over every interleaving, replaying an account's audit rows (each row's old values checked) from its first row gives its lifecycle and key; its version rose once per audit row; enabled holds exactly for CURRENT; identity evidence is there exactly when an audit row proved one and names the present key; ever-enabled is what the log says; every audit row follows the lifecycle graph; a deleted account was never enabled |
| AccountLifecycleRuns.CommandsAgreeWithAudits | internal/companyfund/account_lifecycle_repository.go:203-250 | SUCCEEDED implies applied, FAILED implies never applied, a lease exists exactly while PROCESSING, and the log holds exactly one row per account an applied command moved |
| AccountLifecycleRuns.AppliedAtMostOnce | internal/companyfund/account_lifecycle_repository.go:346-419 | Over every interleaving of claims, expiries, crashes and re-claims a command's transition takes effect at most once, and the applied marker says exactly whether it did |
| AccountLifecycleRuns.OutdatedClaimIsInert | internal/companyfund/account_lifecycle_repository.go:48-59 | Once a command was claimed again or ended, every statement of the earlier worker changes nothing, now and after any further run |
| AccountLifecycleRuns.LeaseGuardsTheCommand | internal/companyfund/account_lifecycle_repository.go:203-269 | A leased command's row stays as it is over any run of steps that are not its holder's and do not claim it at or after expiry |
| AccountLifecycleRuns.ClaimFencesOut | internal/companyfund/account_lifecycle_repository.go:13-46 | A claim hands the command to one worker: over any run of other workers' steps its lease holds until expiry, and every earlier claim is inert after any run at all |
| AccountLifecycleRuns.RowsMoveOnlyByApplication | internal/companyfund/account_lifecycle_repository.go:381-389 | An account row changes only through a live, not yet applied command that names it |
| AccountLifecycleRuns.TerminalRowsStay | internal/companyfund/account_lifecycle_repository.go:485-508 | RETIRED and DELETED rows never change again, over any run |
| AccountLifecycleRuns.LiveAccountsConserved | internal/companyfund/account_lifecycle_repository.go:559-604 | Over any run the number of CURRENT-or-PAUSED accounts grows by exactly the cutovers that name no related account; a cutover that names one replaces it |
| AccountLifecycleRuns.IdentityCorrectionCarriesReferences | internal/companyfund/account_lifecycle_repository.go:539-558 | Correcting a key moves every reference of four tables from the old to the new key, touches no other row, leaves none behind and carries unfinished events along; no other command touches references |
| AccountLifecycleWorker.Worker.Conclude | internal/companyfund/account_lifecycle_worker.go:120-146 | A turn's last statement takes effect exactly when the lease is live and the applied marker fits, and is one step of the run |
| AccountLifecycleWorker.Worker.ProcessNext | internal/companyfund/account_lifecycle_worker.go:43-146 | A turn with arbitrary interference is a run of the step machine; it is idle if and only if no unlocked row is due; a temporary provider failure leaves the command retrying, a permanent one or an error of the application rejects it, a successful application finishes it once refreshed and retries it otherwise, each unless the lease is gone; without interference inside the lease it never is |
| AccountLifecycleWorker.Worker.ValidateAndApply | internal/companyfund/account_lifecycle_worker.go:64-118 | For an unapplied command: temporary provider failure, permanent one, and the application decide how the turn ends; the provider counts only for commands that need an identity |
| AccountLifecycleWorker.Worker.RefreshAndConclude | internal/companyfund/account_lifecycle_worker.go:120-146 | An applied command is finished if the registry was refreshed and pending again after the retry delay otherwise; the turn is not lost while the lease is live and the applied marker fits |
| FinanceFilter.CanonicalPositiveSet | internal/companyfund/finance_query_types.go:120-134 | Refuses exactly lists with a non-positive ID, otherwise the strictly increasing list of the same IDs, whatever order the set was listed in |
| FinanceFilter.CanonicalStrings | internal/companyfund/finance_query_types.go:58-84 | Refuses exactly lists with an invalid name, otherwise the sorted duplicate-free list |
| FinanceFilter.CanonicalCurrencies | internal/companyfund/finance_query_types.go:86-105 | The same for currencies, checked before and after trimming and upper-casing |
| FinanceFilter.Canonicalize | internal/companyfund/finance_query_types.go:45-118 | The first offending field in checking order, or the canonical filter |
| FinanceFilter.ErrorsExactly | internal/companyfund/finance_query_types.go:45-134 | What each error says of the filter, that a filter is accepted exactly when nothing of it is wrong, and that the error is that of the first check that fails |
| FinanceFilter.CanonicalIsCanonical | internal/companyfund/finance_query_types.go:45-134 | Canonicalising twice is canonicalising once; every list is strictly increasing with the members it had, currencies normalized |
| FinanceQuery.WhereBuilder.AppendArgument | internal/companyfund/finance_query.go:172-177 | Hands out the next placeholder and appends its value |
| FinanceQuery.WhereBuilder.AppendIn | internal/companyfund/finance_query.go:178-184 | Restricts the selected rows to those whose column is among the values, keeping placeholders consecutive |
| FinanceQuery.WhereBuilder.AppendEither | internal/companyfund/finance_query.go:199-209 | The account condition: payer or payee among the IDs, which are bound twice |
| FinanceQuery.DateMeans | internal/companyfund/finance_query.go:10 | The date expression under SQL nulls is the first of occurred, completed and created |
| FinanceQuery.DirectionMeans | internal/companyfund/finance_query.go:13-17 | The CASE expression is the direction of the reversed transaction for reversals that have one, else the row's own |
| FinanceQuery.InclusionMeans | internal/companyfund/finance_query.go:12 | The inclusion expression is the override, or else not auto-excluded |
| FinanceQuery.ConversionMeans | internal/companyfund/finance_query.go:241 | Under three-valued logic the condition is TRUE exactly for non-conversions and complete conversions |
| FinanceQuery.ThreeValued | internal/companyfund/finance_query.go:168-249 | The truth tables of OR, NOT and equality that conditions are evaluated with: unknown unless one side decides |
| FinanceQuery.BuildTransactionWhere | internal/companyfund/finance_query.go:168-249 | For every filter and first placeholder: the generated conditions under the generated arguments select exactly the rows the plain inclusion rule picks, and the placeholders are the consecutive block up to the returned index, each once and in order |
| FinanceDrilldown.Select | internal/companyfund/finance_query.go:110-114 | Running the compiled clause over a table gives exactly the rows the plain rule picks |
| FinanceDrilldown.Dashboard | internal/companyfund/finance_query.go:101-132 | One aggregate per (effective direction, currency) of the canonical filter's rows, each with its drill-down filter |
| FinanceDrilldown.ListDetails | internal/companyfund/finance_query.go:134-166 | Refuses a bad filter, limit or offset with the error of the first check that fails, otherwise the asked page of the canonical filter's rows, newest first |
| FinanceDrilldown.RequestsExactly | internal/companyfund/finance_query.go:134-145 | A request is accepted exactly with a valid filter, a limit from 0 to 1000 and an offset of at least 0; no limit means 100 |
| FinanceDrilldown.PagesCoverDetails | internal/companyfund/finance_query.go:134-166 | Listed page by page to the end, the detail list gives each matching row exactly once and in order |
| FinanceDrilldown.DrilldownReproducesGroup | internal/companyfund/finance_query.go:276-281 | A group's re-canonicalised drill-down lists exactly that group's rows, hence its count and sums, if and only if its currency is stored in canonical form |
| FinanceDrilldown.DrilldownsPartition | internal/companyfund/finance_query.go:97-132 | With canonical stored currencies the drill-downs are accepted, disjoint, and cover exactly the dashboard's rows |
| FinanceDrilldown.CountsAddUp | internal/companyfund/finance_query.go:36-42 | The aggregates' counts add up to the number of matching rows |
| FinanceDrilldown.ReversalNetsOut | internal/companyfund/finance_query.go:13-21 | A movement and its full reversal, anywhere in a table, fall into one aggregate of the dashboard; there and in every other aggregate the sums, amount and USD, are those of the table without the two, and only the count rises |
| FinanceDrilldown.LowerCaseTotalHasNoDetails | internal/companyfund/finance_query.go:276-281 | One row stored with currency usd: its group has a total of 100 and its drill-down lists nothing |
| FinanceDrilldown.CanonicalKeepsMatches | internal/companyfund/finance_query_types.go:45-118 | Canonicalising leaves every row's verdict alone if and only if the currencies asked for were already canonical; otherwise it matches the normalized spellings |
| FinanceDrilldown.LowerCaseRequestLosesRow | internal/companyfund/finance_query_types.go:86-105 | A filter for usd matches a row stored as usd before canonicalisation and not after |
| MovementIdentity.LengthDelimitedTuple | internal/companyfund/identity.go:201-208 | The loop builds the length-delimited encoding |
| MovementIdentity.NormalizedExactly | internal/companyfund/identity.go:125-159 | Which inputs are refused, and with which error, in checking order |
| MovementIdentity.NormalizationKeeps | internal/companyfund/identity.go:125-199 | Over inputs: normalization keeps channel, kind and amount, parent, payer, payee, provider key and contract up to outer spaces, currency and chain code up to letter case as well; two accepted inputs normalize alike if and only if they agree in all of these |
| MovementIdentity.KeysIdentifyInputs | internal/companyfund/identity.go:13-34 | Over inputs: two accepted inputs have the same key if and only if they agree in those fields and are the same occurrence, counted from 1 |
| MovementIdentity.DecodeTuple | internal/companyfund/identity.go:201-208 | A decoder recovers the exact component list from every encoding |
| MovementIdentity.TupleInjective | internal/companyfund/identity.go:201-208 | Distinct component lists of any lengths encode differently |
| MovementIdentity.TuplesIdentify | internal/companyfund/identity.go:161-199 | Movement tuples are equal exactly when all identity fields are, nested asset fields included, and with occurrences when those are too |
| MovementIdentity.TuplesAreVersioned | internal/companyfund/identity.go:161-177 | Every tuple starts with the name of what it identifies and the version of the encoding |
| MovementIdentity.StoredInputRebuildsKey | internal/companyfund/identity.go:24-34 | The normalized input kept in an identity builds that very identity again |
| MovementIdentity.AssignBatch | internal/companyfund/identity.go:85-123 | One invalid input fails the batch; otherwise the stable sort and the running counter give the specified identities |
| MovementIdentity.OrderDoesNotMatter | internal/companyfund/identity.go:81-123 | Any permutation of a batch is accepted alike and returns the same list of identities |
| MovementIdentity.BatchKeysDistinct | internal/companyfund/identity.go:108-120 | No two identities of a batch share a key |
| MovementIdentity.BatchNumbering | internal/companyfund/identity.go:108-120 | There is one identity per input, and each class of equal movements is numbered exactly 1 to its size |
| MovementIdentity.BatchAgreesWithBuild | internal/companyfund/identity.go:13-22 | The identity numbered k is the one built alone with occurrence k |
| MovementIdentity.BatchNumbersInputs | internal/companyfund/identity.go:81-123 | Seen from the inputs: the batch holds the identity an input has as occurrence k if and only if k is at most the number of inputs that are the same movement |
| ProviderMerge.CompareIsNotAnOrder | internal/companyfund/lifecycle.go:319-354 | The metadata comparison is antisymmetric; a concrete mixed triple shows it is not transitive |
| ProviderMerge.CompareTransitive | internal/companyfund/lifecycle.go:319-354 | On facts that uniformly carry or lack revision and timestamp it is transitive |
| ProviderMerge.ComparesExactly | internal/companyfund/lifecycle.go:319-431 | A fact is newer exactly by revision when both have one, then by time when both have one, then by source rank; otherwise by time, then by revision, one that is missing counting as oldest, then by source rank |
| ProviderMerge.MergesExactly | internal/companyfund/lifecycle.go:219-251 | A fact neither newer nor older is quarantined exactly when amount, currency or asset contradict; otherwise it is applied exactly when it is newer or fills in a missing field, and without that leaves every field as it was |
| ProviderMerge.FoldState | internal/companyfund/lifecycle.go:219-251 | After any deliveries the state has the newest fact's metadata and every field that fact carries; other fields hold some carried value if there is one |
| ProviderMerge.MergeConverges | internal/companyfund/lifecycle.go:219-251 | Every permutation of the deliveries leaves the same state if and only if each field is carried by the newest fact or undisputed, and so does every order with redeliveries; a newest fact that carries all fields is the state |
| ProviderMerge.DisputedHash | internal/companyfund/lifecycle.go:219-251 | Three facts in two orders: two dispute the hash, the newest has none, and the final hashes differ |
| ProviderMerge.MergeForChannelFacts | internal/companyfund/lifecycle.go:269-317 | One merge: manual fields kept, quarantine changes nothing, no field lost, status changes only as the channel's policy applies |
| ProviderMerge.NothingErased | internal/companyfund/lifecycle.go:253-317 | Over any facts manual fields never change and no present field becomes nil |
| ProviderMerge.QuarantineChangesNothing | internal/companyfund/lifecycle.go:269-299 | A fact that is quarantined when it arrives can be left out of the deliveries: the movement after all of them is the same |
| ProviderMerge.StatusAside | internal/companyfund/lifecycle.go:269-317 | Status aside, the channel's merge is the plain merge; it quarantines exactly what the channel's policy or the plain merge quarantines, and everything of a channel without policy |
| ProviderMerge.SafeheronMovesExactly | internal/companyfund/lifecycle.go:19-77 | A first supported Safeheron status and every higher rank are applied, a rank not higher keeps the current status, and an unsupported status is quarantined |
| ProviderMerge.SafeheronRanks | internal/companyfund/lifecycle.go:51-77 | The statuses of each Safeheron rank; the terminal ones are those of rank 5 |
| ProviderMerge.AirwallexMovesExactly | internal/companyfund/lifecycle.go:86-143 | A first known Airwallex status and every move of the transition table are applied, the same status is kept, anything else is quarantined |
| ProviderMerge.SafeheronOnlyAdvances | internal/companyfund/lifecycle.go:19-77 | Over any facts a Safeheron status never drops in rank and a terminal one is final |
| ProviderMerge.FinalRankIsHighest | internal/companyfund/lifecycle.go:19-77 | Over any facts the final rank is the highest among the start and the deliveries that were not quarantined |
| ProviderMerge.StatusConverges | internal/companyfund/lifecycle.go:269-317 | For deliveries that agree on money, every order ends with the same status if and only if those of the highest rank name one status or none ranks above the start |
| ProviderMerge.TwoTerminals | internal/companyfund/lifecycle.go:38-40 | A completed and a failed delivery in two orders: whichever comes first stays |
| ProviderMerge.AirwallexFinalStays | internal/companyfund/lifecycle.go:86-143 | Over any facts an Airwallex status without outgoing transition is final |
| Ordering.SortedList | internal/companyfund/airwallex_runtime_config.go:474-483 | Map keys listed in any order and sorted are the strictly increasing list of the keys |
| RuntimeConfig.ClassSnoc | internal/companyfund/airwallex_runtime_config.go:450-453 | The loop's classification check is exactly what keeps the rules in agreement and the table in step |
| RuntimeConfig.TableSnoc | internal/companyfund/airwallex_runtime_config.go:455-471 | The loop's duplicate check is exactly what keeps rule keys distinct and the table in step |
| RuntimeConfig.Compile | internal/companyfund/airwallex_runtime_config.go:402-489 | An enabled configuration is accepted exactly when its API version is an exact calendar date, its other versions are in form, every rule is sound alone, rules agree on classifications and no two cover one tuple; then both tables hold exactly what the rules say, the flag for transfer details included |
| RuntimeConfig.StrictNormalizer | internal/companyfund/airwallex_normalizer.go:309-348 | The second check accepts exactly versions in form and a non-empty list whose members normalize to different keys, and builds the table of the normalized members |
| RuntimeConfig.StrictNormalizerAccepts | internal/companyfund/airwallex_runtime_config.go:243-252 | The strict normalizer never refuses what the compiler hands it, and the table it builds from the sorted list is the very classification table of the rules |
| RuntimeRules.ApiVersionExactly | internal/companyfund/airwallex_time.go:30-39 | An API version is accepted exactly when it is a date of the Gregorian calendar written with four, two and two digits |
| RuntimeRules.ClassificationExactly | internal/companyfund/airwallex_normalizer.go:696-753 | Which classifications are accepted, field by field, and that nothing of them is lost but outer spaces and the case of the two type names |
| RuntimeRules.RelationshipExactly | internal/companyfund/airwallex_runtime_config.go:575-634 | What each strategy asks of evidence, SLA, kind, leg and currencies, and what is kept of it |
| RuntimeRules.RuleExactly | internal/companyfund/airwallex_runtime_config.go:491-573 | A rule is accepted exactly when its fields, classification, relationship and the other end are as asked |
| RuntimeRules.RuleKeeps | internal/companyfund/airwallex_runtime_config.go:491-573 | An accepted rule is kept whole, up to outer spaces and the case of names and currencies |
| RuntimeRules.InputKeyExactly | internal/companyfund/airwallex_runtime_config.go:366-394 | Which events have a rule key, and that it is their account and four names normalized as the rules are |
| RuntimeConfig.AcceptedRuleIsSound | internal/companyfund/airwallex_runtime_config.go:491-634 | What an accepted rule guarantees about kind, direction, strategy, account side and counterparty key together |
| RuntimeConfig.ResolutionFailsOnlyOnBlankReference | internal/companyfund/airwallex_runtime_config.go:636-733 | An accepted rule's relationship fails to resolve exactly when its strategy's reference is blank; it waits exactly for the three deferring strategies, always with a task of the matching kind |
| RuntimeRules.LinksCarryTheReference | internal/companyfund/airwallex_runtime_config.go:636-733 | Every link and task carries the reference of its strategy where that strategy puts it, and a task its rule's evidence and SLA |
| RuntimeConfig.MatchedRule | internal/companyfund/airwallex_runtime_config.go:351-394 | An event that finds a rule also finds, under the strict normalizer's own key, the classification of that very rule |
| RuntimeConfig.AccountsResolve | internal/companyfund/airwallex_normalizer.go:1017-1088 | For a sound APPLY rule account resolution succeeds, and whose the ends are: own then other for side FROM, other then own for side TO, own as payee of an inflow and payer of an outflow with nobody of the company opposite, own on both ends of a conversion |
| RuntimeRules.ResolutionExactly | internal/companyfund/airwallex_normalizer.go:1017-1088 | For any account pair and side: account resolution succeeds exactly for an external movement or conversion without an internal assignment and for a transfer between two different accounts with a side |
| RuntimeRules.RelationshipCheckExactly | internal/companyfund/lifecycle.go:163-217 | The relationship check, kind by kind and direction by direction |
| RuntimeConfig.AcceptedConfigNeverRejects | internal/companyfund/airwallex_normalizer.go:430-459 | Acceptance is sound: for every event that finds a rule, with a non-blank reference and a known counterparty, the strict normalizer's own table has the classification, and neither account resolution nor the relationship check rejects it if it is APPLY; the money then runs between the ends the rule says |
| RuntimeConfig.HastyConfigMatches | internal/companyfund/airwallex_runtime_config.go:351-489 | The premises of acceptance can be met: a concrete configuration is accepted and a concrete event finds its rule |
| RuntimeRules.TasksExactly | internal/companyfund/ledger_task_types.go:122-183 | Any deferred task: accepted exactly with a reference and evidence that are not blank and not too long, an SLA of at least a microsecond, and room for the marker its kind puts in front of the reference |
| RuntimeConfig.TaskAcceptedExactly | internal/companyfund/ledger_task_types.go:122-183 | The deferred task of an accepted rule is accepted exactly when the SLA is at least one microsecond and the reference leaves room for the pending marker |
| RuntimeConfig.HastyRule | internal/companyfund/airwallex_runtime_config.go:598-600 | A concrete accepted rule (SLA 500ns) whose task is always refused |
| LedgerTasks.TaskTable.Claim | internal/companyfund/ledger_task_worker.go:12-52 | Takes the first claimable row, bumps its attempt and leases it; nothing only when nothing is claimable |
| LedgerTasks.TaskTable.Complete | internal/companyfund/ledger_task_worker.go:54-68 | Completes exactly for the live holder; a missing subject keeps the stored one |
| LedgerTasks.TaskTable.Retry | internal/companyfund/ledger_task_worker.go:70-87 | For the live holder: back to WAITING before the SLA instant, dead letter at or after it |
| LedgerTasks.TaskTable.Bury | internal/companyfund/ledger_task_worker.go:89-102 | Dead-letters exactly for the live holder |
| LedgerTasks.MicrosTruncate | internal/companyfund/ledger_task_worker.go:228-241 | Durations are cut to whole microseconds towards zero, and a retry without a positive delay waits a minute |
| LedgerTasks.TaskTable.NextDue | internal/companyfund/ledger_task_worker.go:104-112 | The least instant at which a live row falls due, nothing if there is no live row |
| LedgerTasks.ClaimableExactlyWhenDue | internal/companyfund/ledger_task_worker.go:12-28 | Something is claimable at t if and only if the next due instant exists and is at most t |
| LedgerTasks.RowChanges | internal/companyfund/ledger_task_worker.go:54-102 | One step changes a leased row only through its live holder or a claim after expiry; a terminal row never; a row becomes WAITING only before its SLA instant |
| LedgerTasks.LeaseGuardsTheRow | internal/companyfund/ledger_task_worker.go:54-102 | A leased row stays as it is over any run of steps that are not its holder's and do not claim it at or after expiry |
| LedgerTasks.OnlyTheHolderActs | internal/companyfund/ledger_task_worker.go:62-67 | An outdated attempt, another owner or an ended task can change nothing, now and after any further run |
| LedgerTasks.ClaimFencesOut | internal/companyfund/ledger_task_worker.go:12-52 | A claim hands the task to one processor: over any run of other processors' steps its lease holds until expiry, and every earlier claim is inert after any run at all |
| LedgerTasks.TerminalStays | internal/companyfund/ledger_task_worker.go:54-102 | COMPLETED and DEAD_LETTER rows never change again, over any run |
| LedgerTasks.NoWaitingPastSla | internal/companyfund/ledger_task_worker.go:70-80 | Once its SLA is over, a task that is not waiting never waits again, over any run |
| LedgerTasks.ProcessNext | internal/companyfund/ledger_task_processor.go:215-259 | A processor turn with arbitrary interference is a run, it is idle exactly when nothing unlocked is due, its answer is what the row says, a processing error leaves the row leased, the turn is lost exactly when the lease is not live at its last statement, and at or after the SLA instant it never goes back to waiting |
| LedgerTasks.PastSlaTurnEnds | internal/companyfund/ledger_task_processor.go:215-259 | A turn that ends at or after the SLA instant ends the task if and only if processing did not fail with an error and the lease is live |
| LedgerTasks.ErringTaskOutlivesItsSla | internal/companyfund/ledger_task_processor.go:228-232 | A task whose processing always errors is leased again after any number of claims past its SLA |
| ConversionPairs.PairEvidenceIsSymmetric | internal/companyfund/ledger_task_processor.go:633-697 | The evidence check gives the same verdict, down to the conflict code, for (a,b) and (b,a); accepted opposite legs sell the first and buy the second currency on one account |
| ConversionPairs.ConflictsExactly | internal/companyfund/ledger_task_processor.go:633-697 | The evidence is accepted exactly when tasks, accounts, facts, values and currencies all fit, each spelled out, and otherwise the conflict is the first of the five that does not |
| ConversionPairs.UpsertJoins | internal/companyfund/transaction_linkage_repository.go:309-346 | An upsert goes through exactly when some row keeps whatever account, group and leg are set on either side, and stores that row; a different account is what quarantines it; COMPLETE is never undone |
| ConversionPairs.AgreedExactly | internal/companyfund/ledger_task_processor.go:476-518 | The conversion reaches the transaction exactly when the peer can be read, both facts are there, the evidence is accepted, one leg sells and the other buys, and both proposals are valid |
| ConversionPairs.LoadPeer | internal/companyfund/ledger_task_processor.go:569-614 | The one live peer if there is exactly one and it can be read; a conflict exactly when there are several or the one cannot be read |
| ConversionPairs.Ledger.StorePair | internal/companyfund/ledger_task_processor.go:521-566 | The transaction ends refused with the first upsert's refusal, unbalanced, or committed with both rows paired, each exactly when the two upserts and the group say so; only a commit changes rows |
| ConversionPairs.Ledger.ProcessPair | internal/companyfund/ledger_task_processor.go:469-566 | With the peer read, every way out has its exact condition: missing fact (an error), the evidence conflict found, equal legs, invalid proposal, quarantined upsert, failed upsert (an error), unbalanced group, linked |
| ConversionPairs.Ledger.ProcessConversion | internal/companyfund/ledger_task_processor.go:455-567 | No peer waits, several or an unreadable one conflict, and otherwise as the pair is processed; when linked, the rows are the transaction's result, the two proposals are COMPLETE, point at each other and carry the proposed legs, every other row is as before, and complete legs stay paired; otherwise the ledger is unchanged |
| ConversionPairs.RefusedExactly | internal/companyfund/repository.go:1188-1235 | The first proposal whose row belongs to another account quarantines; the first whose row is in another group or leg fails with an error, as do two proposals for one key; nothing else of identity and linkage is refused |
| ConversionPairs.AnotherGroupIsAnError | internal/companyfund/transaction_linkage_repository.go:245-250 | A concrete pair of group g2 whose key is stored in group g1 ends in an error: not buried, not retried |
| ConversionPairs.RerunIsIdle | internal/companyfund/ledger_task_processor.go:455-567 | After a committed conversion whose task was not completed, running it again or running the peer's task is linked and changes no row |
| ConversionPairs.UpsertKeepsExactly | internal/companyfund/transaction_linkage_repository.go:318-346 | An upsert keeps complete legs paired if and only if it does not itself declare an incomplete row COMPLETE |
| ConversionPairs.CompleteOnArrivalIsUnpaired | internal/companyfund/transaction_linkage_repository.go:338-346 | A first upsert that says COMPLETE stores a complete leg without a peer |
| ConversionPairs.CompletionIsTotal | internal/companyfund/ledger_task_processor.go:58-95 | The completing statement updates two rows or none, and two exactly for one SELL and one BUY |
| ConversionPairs.CompleteLegsArePaired | internal/companyfund/ledger_task_processor.go:58-95 | In every reachable ledger each COMPLETE leg has an opposite peer in its group that points back, and nothing else is paired |
| ConversionPairs.CommittedConversionPairsItsLegs | internal/companyfund/ledger_task_processor.go:521-566 | A committed conversion leaves its two proposals COMPLETE and pointing at each other in whatever ledger it started, touches no other row, and keeps complete legs paired |
| ConversionPairs.RekeyMoves | internal/companyfund/account_lifecycle_repository.go:539-558 | Correcting an account key moves each of its groups to the new key and touches nothing else of any row |
| ReversalChecks.ReversalRunsBackwards | internal/companyfund/ledger_task_processor.go:415-453 | A reversal is accepted exactly when it takes back at most the value, in the same currency, between complete opposite ends; then every company account's flow is the opposite |
| Backoff.Delay | internal/companyfund/provider_event_worker_types.go:189-208 | Delay(n) is min(Initial * 2^(n-1), Max), without leaving int64 |
| Backoff.PoliciesExactly | internal/companyfund/provider_event_worker_types.go:174-187 | Which retry policies are refused and why |
| Backoff.NextIdle | internal/adaptiveschedule/loop.go:355-374 | Doubles up to the ceiling, always within the bounds, without leaving int64 |
| Backoff.IdleClosedForm | internal/adaptiveschedule/loop.go:355-374 | After k empty cycles idle is min(MinIdle * 2^k, MaxIdle) |
| AdaptiveSchedule.MaintenanceWindow.constructor | internal/adaptiveschedule/maintenance.go:30-39 | Fills in the default quiet budget and grace period; never opened yet |
| AdaptiveSchedule.MaintenanceWindow.Allow | internal/adaptiveschedule/maintenance.go:80-111 | Allows exactly in grace or when due, and then opens; a refusal names a future opening |
| AdaptiveSchedule.AskedMeans | internal/adaptiveschedule/maintenance.go:80-111 | Who asks is let through exactly before the grace period has run out or once the next opening has come; the second opens for the grace period and sets the next opening a quiet budget later |
| AdaptiveSchedule.DefaultGrace | internal/adaptiveschedule/maintenance.go:136-150 | The default grace period is a fifth of the quiet budget, between a millisecond and five seconds |
| AdaptiveSchedule.Loop.RunPass | internal/adaptiveschedule/loop.go:225-312 | One pass: when the cycle runs, the next idle time, and the wait; a refused pass always sleeps, exactly to the sooner of the next opening and its own deadline |
| AdaptiveSchedule.CycleMeans | internal/adaptiveschedule/loop.go:276-312 | After a cycle: work resets the idle time, more work sets it to zero, a quiet cycle lets it grow; the sleep is the idle time or ends at the reported deadline, and a wake during it resets the idle time and is remembered |
| AdaptiveSchedule.MoreWorkReentersExactly | internal/adaptiveschedule/loop.go:281-301 | After MoreWork the loop re-enters at once, past the gate whatever the next pass is, if and only if no reported deadline lies ahead; otherwise it sleeps until it |
| AdaptiveSchedule.MoreWorkSleeps | internal/adaptiveschedule/loop.go:281-301 | MoreWork with a deadline one second ahead sleeps that second |
| AdaptiveSchedule.QuietCyclesBackOff | internal/adaptiveschedule/loop.go:281-301 | n quiet cycles from the start leave idle, and the sleep after the last, at min(MinIdle * 2^(n-1), MaxIdle) |
| AdaptiveSchedule.DrainProcessOne | internal/adaptiveschedule/loop.go:390-412 | Stops at the first empty or failed attempt; more work exactly when the limit was reached |
| AdaptiveSchedule.SharedWindowAlignsLoops | internal/adaptiveschedule/loop.go:220-313 | For any number of loops under a monotone clock: every gated cycle is let through within openFor of an opening, openings are MaxIdle apart, a span T holds at most T/MaxIdle + 1, idle is 0 or within bounds |
| AdaptiveSchedule.BlockedThenAllowed | internal/adaptiveschedule/maintenance.go:99-110 | A loop turned away is let through at every instant within openFor of the opening it was told, whatever others asked since; and with openFor shorter than MaxIdle at no later instant is that certain |
| AdaptiveSchedule.OversleptOpening | internal/adaptiveschedule/maintenance.go:80-111 | With the defaults: another loop asks at the opening, and a loop that wakes openFor later is refused |
| TokenCache.Client.Access | internal/companyfund/airwallex_client.go:159-178 | Use a usable token, join the flight in the air, or lead a new one |
| TokenCache.UsedTokensAreFresh | internal/companyfund/airwallex_client.go:245-247 | A cached token is handed out exactly when the clock has not come within the skew of its expiry |
| TokenCache.Client.FinishLogin | internal/companyfund/airwallex_client.go:180-193 | Installs the next generation or records the failure, and clears the flight |
| TokenCache.Client.Invalidate | internal/companyfund/airwallex_client.go:234-243 | Drops the cached token only when generation and value match |
| TokenCache.OneLoginAtATime | internal/companyfund/airwallex_client.go:152-194 | Under every interleaving at most one login is in flight, and whoever waits for a pending flight has a leader |
| TokenCache.GenerationsIncrease | internal/companyfund/airwallex_client.go:180-186 | Installed generations strictly increase |
| TokenCache.AtMostOneRetryWithANewerToken | internal/companyfund/airwallex_client.go:199-224 | One authenticated GET sends at most two business requests, the second with a strictly newer token |
| TokenCache.RequestsGoOn | internal/companyfund/airwallex_client.go:152-243 | What one GET does next in every state: wait for or lead a login, send one request with the token got, and after the first rejection drop it and ask once more |
| TokenCache.RejectionClearsExactly | internal/companyfund/airwallex_client.go:234-243 | A rejection clears the cache exactly when it holds the rejected token; a newer token survives |
| TokenCache.RejectionsSpareNewerTokens | internal/companyfund/airwallex_client.go:212-222 | The same for every rejection in every reachable state |
| FactBinding.Validate | internal/companyfund/provider_event_worker_types.go:61-125 | Accepts exactly the results whose names are present, distinct and known |
| FactBinding.Prepare | internal/companyfund/provider_event_worker_facts.go:55-96 | Succeeds exactly when no movement brings a fact ID, provenance matches and the bindings are sound |
| FactBinding.CheckBindings | internal/companyfund/provider_event_worker_facts.go:79-94 | The counting loop accepts exactly bindings of proven totals, shared facts that are derivable, and movements of the event's channel |
| FactBinding.Worker.StoreFacts | internal/companyfund/provider_event_worker_facts.go:28-38 | Stores a prefix of the bound facts; succeeds, with all of them, exactly when every insert answers a positive ID |
| FactBinding.Worker.Persist | internal/companyfund/provider_event_worker_facts.go:18-53 | What is stored is a prefix of facts then tasks; nothing on a preparation error; succeeds exactly when preparation does and no insert or enqueue fails, and then the movements carry their bound IDs |
| FactBinding.Worker.Process | internal/companyfund/provider_event_worker.go:129-175 | The effects of an event are a prefix of facts, tasks, movements in that order; no movement that names another delivery is stored, each carries the leased event's provenance; it succeeds exactly when nothing is wrong, and then all of it is stored |
| FactBinding.StoredNamesItsEvent | internal/companyfund/provider_event_worker.go:129-175 | Every stored fact carries the leased event's ID and digest, every stored movement its provider ID, ID, digest and routing; facts and tasks are otherwise stored as normalized |
| FactBinding.FactsPrecedeReferences | internal/companyfund/provider_event_worker_facts.go:28-52 | However far an event gets, whatever refers to a fact ID comes after a fact was stored under that positive ID, and that fact is the bound form of the one the task or the movement's binding names |
| FactBinding.MovementsCarryTheirFacts | internal/companyfund/provider_event_worker_facts.go:40-44 | A movement carries an ID exactly when a binding names it, then that fact's; it is no unproven total and, if shared, proven derivable |

## Left out

- HTTP transport, webhook signatures, encryption and JSON decoding: foreign calls whose results are parameters.
- UTF-8 validity and Unicode trimming and case folding: strings are bytes with ASCII rules.
- Decimal text: amounts are compared and rendered as exact numbers, so equal values have one rendering.
- int64 row versions, counters and page arithmetic are unbounded integers; only the delay arithmetic models the 64-bit range, and the size of a checkpoint takes a counter to have at most 19 digits. The 32-bit counter columns of sync runs can be exceeded only by recounting page 2000.
- Database unique indexes of migration 063 (one CURRENT, one CANDIDATE, one command in flight) and serialization failures: they only refuse more transactions; the theorems hold without them.
- Display data, result summaries, error codes and messages of commands and tasks.
- Opening, leasing and finalizing of sync runs and provider events, lease heartbeats and valuation wake-ups.
- The claim of a provider event and the whole body of the transaction upsert are abstracted: a keyed write whose account, group and leg are immutable once set.
- Fee classification, reversal inheritance, counterparty backfill and the maintenance sweep of the ledger task processor.
- Rate-request budgets, the current-rate cache and the account registry's own loading.
- The numeric and risk checks of the Airwallex normalizer; only its classification, account and relationship spine is modelled.
- The order of dashboard groups.
- Goroutines, panic recovery, cancellation of a running cycle, logging and instrumentation.
- ReconcilerRuns.RunIsExact: assumes the listing does not change between attempts, because a drifting page can outgrow the in-flight bound that validation enforces.
- AccountLifecycleRuns.AuditReplays: starts from freshly migrated rows, without commands, audit rows or identity evidence, as migration 063 leaves them; commands are the only writers of account rows.
- ProviderMerge.MergeConverges: facts carry no status and are uniform with distinct ranks, because the comparison is not an order on mixed facts (CompareIsNotAnOrder).
- RuntimeConfig.AcceptedConfigNeverRejects: covers account resolution and the relationship check, not the amount, time, asset-policy and risk checks that depend on the event's values.
- FactBinding.Validate: a deferred task's own checks are one flag, because they end in the transaction upsert's whole validation; RuntimeConfig.TaskAcceptedExactly covers the part an accepted rule decides.
- ConversionPairs.Ledger.ProcessConversion: whether a proposal passes the transaction upsert's validation is a flag of the proposal, and the upsert's checks besides account, group and leg (provenance, provider identity, field merge, fact ownership, other links) are the parameter `others`, which says for which keys they refuse first and whether by quarantine or error.
- ConversionPairs.CompleteLegsArePaired: assumes no other upsert declares a row COMPLETE, which is the exact condition of UpsertKeepsExactly.
