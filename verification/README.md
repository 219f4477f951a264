# A model of the fiscal kernel

A Dafny model of the transactional core of the fiscal module and of the encodings it rests on, with proofs of what
they promise. `dafny verify dfyconfig.toml` checks the whole of it.

Text is a sequence of bytes written as characters; identifiers drawn at random are opaque names; instants are
integers. Where int64 can wrap, the wrap is written out (`Prelude.Wrap64`).

**Sealing, outbox, ledger, operators.** `Tables` holds the tables as values. `Sealing`, `Outbox` and `Operator` give
each transaction as a function of the database before it. `Protocol` puts them together as a state machine: any number
of clients seal, any number of workers step through claim - mark - submit - release or persist (each one transaction,
with anything happening in between, a release that may silently not happen, and no bound on how late a step comes),
and any number of operators look a key up and act later. `ProtocolSafety` proves that every step of every interleaving
keeps one invariant and everything already recorded; `ProtocolTheorems`, `ProtocolProgress` and `ProtocolOperators`
draw the conclusions about whole runs, and `ProtocolWitness` runs the schedules on which tempting claims fail.
`OutboxEffects`, `SealingEffects`, `OperatorEffects` and `ProtocolEffects` say what each transaction writes and
answers, column by column. `StoreTables` and `FiscalStore` are the same transactions as methods that update tables in
place, statement by statement, and roll back; their contracts are the functions above.

**Request hash and gates.** `Canonical`, `Money`, `Quantity`, `FiscalTime`, `SealGate`, `DocumentIntake`, and
`IntakeEffects`, which follows an accepted body into the tables. The digest is a parameter; where it matters it is
assumed collision-free. Zone data and time parsing are a `Calendar` of functions.

**Credentials.** `Credentials` (table, statements, transactions), `CredentialRuns` (whole runs, and who is let in),
`CredentialStores` (the store and the authenticator as classes), `CredentialEffects` (what each transaction writes,
and to whom the door opens right after it).

**Compact JWS.** `Base64Url`, `JsonTokens`, `CompactJws`, `HeaderEffects`. The signature scheme and the text of JSON
are parameters.

**SAF-T export.** `SaftAmounts` and `SaftQuantities` (decimal accumulators over int64), `SaftPeriods` (dates, their
string order, period filters), `SaftExport` (the filter-and-total loop of invoices, payments and work documents),
`SaftLedger` and `SaftLedgerPeriods` (general ledger entries), `GlMapping`, `GlAccounting`, `GlExport`, `GlTheorems`,
`GlEffects`, `GlWitness` (from accounting records to an export), `SaftEffects` (what the filters keep and add up),
`PurchaseMapping` (suppliers of purchases). Structural validators of unseen types are parameters.

Properties that fail, and exactly when:

- A persisted row's report repeats the worker's own outcome, so it may differ from the ledger: exactly when the row
  had already succeeded with another one (`ReportAgreesWithLedger`; a schedule in `ZombieDisagrees`).
- A row's queue can grow after its due time: exactly by a retry an operator began no later than that time and commits
  later (`QueueAheadShrinks`, `RetryJumpsTheQueue`).
- A SAF-T total can wrap, even with a major part of MaxInt64/100 (`WrappedTotal`). `WrongTotalExactlyWhen` and
  `SafeAmounts` say when one addition goes wrong, `WrongListExactlyWhen` when a list of any length does: exactly when
  no running sum wraps to a negative number and the true sum does not fit int64. Amounts that fit int64 cents are
  always added exactly. Quantities behave the same (`WrappedQuantity`, `WrongQuantitiesExactlyWhen`).
- Two periods on consecutive days lose what is dated with a blank behind it: such a date passes validation and falls
  between them (`PaddedDateFallsBetween`). Parts are the whole exactly when nothing falls between. On amounts that
  overflow a part can fail where the whole succeeds (`WrappingBreaksParts`): exactly when a running sum of its own
  amounts wraps to a negative number (`PeriodsCompose`, `LedgerPeriodsCompose`). Parts that succeed with nothing
  between always have totals that add up.
- The ledger export drops mapped transactions exactly when one is dated before the trimmed start of the period, which
  takes a configured start with a blank in front (`ExportKeepsAllExactlyWhen`; a record in `MappedAndDropped`).
- A configured supplier with blanks around its identifier fails the purchase export (`SupplierCheckPassesExactlyWhen`,
  `PaddedSupplierFails`).
- `VerifyCompact` refuses an empty payload that `SignCompact` signs (`SignedVerifies`).
- The second gate trims the text of `issued_at` before it compares, so a padded one is accepted and stored padded
  (`AcceptedTextIsCanonical`). The gates disagree exactly on UTC years outside 0..9999 (`FirstGateImpliesSecond`,
  `LateYearSplitsTheGates`).
- An action that commits does not always use up the version it named: at any distance, it does exactly when it was
  stamped with another, that is, unless the clock stood still between the row's last change and the call
  (`VersionIsUsedUpExactlyWhen`, `BothActionsCommit`).

## Model

| member | source | states |
|---|---|---|
| ProtocolSafety.ApplyKeepsInv | internal/persistence/outbox.go:192-241 | any step of any client, worker or operator, in any reachable interleaving, keeps the invariant and everything recorded |
| ProtocolSafety.RunKeepsInv | internal/persistence/outbox.go:132-521 | so does any run, of any length |
| ProtocolSafety.StepGood | internal/persistence/outbox.go:256-521 | every transaction a step commits keeps the database invariant and the past, and stamps the rows it changes |
| ProtocolTheorems.NothingIsAhead | internal/adminops/actions.go:70-76 | in every reachable state no row and no waiting operator is stamped ahead of the clock |
| ProtocolTheorems.LedgerIsAChain | internal/persistence/outbox.go:256-521 | in every reachable state each document's ledger is 1..n without gap, linked, by legal moves only, and an authority outcome can only be its last event |
| ProtocolTheorems.SucceededExactlyWhenSubmitted | internal/persistence/outbox.go:354-515 | a row is succeeded iff its ledger ends in an outcome, iff it has exactly one attempt, numbered 1, whose response carries that outcome, iff it has an attempt at all |
| ProtocolTheorems.SuccessIsFinal | internal/persistence/outbox.go:366-380 | no continuation changes a succeeded row, its ledger, its attempt or its outcome |
| ProtocolTheorems.CancelIsForever | internal/adminops/actions.go:111-136 | after a committed cancel no continuation records an attempt or outcome, whatever was in flight; the row stays dead and cancelled |
| ProtocolTheorems.ReportAgreesWithLedger | internal/persistence/outbox.go:372-379 | a committed persist reports the ledger's outcome iff the row had not already succeeded with a different one |
| ProtocolWitness.ZombieDisagrees | internal/persistence/outbox.go:372-379 | on any sealable request, a run from the empty database in which a worker is left to report a rejection while the ledger records acceptance |
| ProtocolTheorems.CommittedStateIsSound | internal/persistence/seal_tx.go:92-283 | in every reachable state numbers per scope and series are exactly 1..last_seq once each, external ids are unique, records and documents pair up, every document has one outbox row |
| ProtocolTheorems.ReplayAtAnyDistance | internal/persistence/seal_tx.go:237-336 | after a successful seal and any continuation, a request with the same scope and key succeeds iff its projection is the first one field for field, with the same answer but for the hit flag and no change; the stored document and lines reconstruct that projection |
| ProtocolProgress.StaleRowIsClaimable | internal/persistence/outbox.go:145-151 | an in-flight row is claimable in the next claim iff untouched for 30 s, and that claim then takes some row |
| Outbox.FirstExists | internal/persistence/outbox.go:153-168 | when any row is claimable, the ordered query has a first row |
| ProtocolProgress.QueueAheadShrinks | internal/persistence/outbox.go:132-190 | past a row's due time a step adds to the rows ahead of it iff it is an operator's retry of another row, stamped no later than that time, that passes its guards: version, no final state, unused key; it then adds one |
| ProtocolWitness.RetryJumpsTheQueue | internal/adminops/actions.go:73-112 | for any two sealable requests, a run from the empty database after which a retry begun at 5 and committed at 20 goes ahead of a row due since 10 |
| ProtocolProgress.NobodyIsStranded | internal/persistence/outbox.go:132-190 | over any run in which a due row keeps waiting, the claims committed and the rows still ahead are together no more than were ahead at the start and were put there by such late retries |
| ProtocolProgress.NoLateRetries | internal/adminops/actions.go:73-112 | there are none when at the start no operator call that began by the due time is waiting to retry |
| ProtocolOperators.KeyCommitsOnce | internal/adminops/actions.go:78-92 | a key that committed never commits again in any continuation; its lookup replays in the same context and conflicts in another; a call past its lookup is rolled back |
| ProtocolOperators.ActsOnTheVersionSeen | internal/adminops/actions.go:98-166 | with an advancing clock an action commits only on the very row the operator saw, whatever happened in between, only with an unused key, and leaves a later version |
| ProtocolOperators.OneActionPerVersion | internal/adminops/actions.go:98-160 | on a clock that need not advance, once an action stamped with another version than it named committed, any other naming that version is stale in every continuation |
| ProtocolOperators.VersionIsUsedUpExactlyWhen | internal/adminops/actions.go:98-160 | a committed action makes the version it named stale in every continuation iff it was stamped with another |
| ProtocolOperators.RunNotOlder | internal/adminops/actions.go:138-160 | no row's version ever goes back, when operators name no version later than their call |
| ProtocolOperators.RunNewer | internal/adminops/actions.go:138-160 | with an advancing clock every changed row carries a strictly later version |
| Operator.SecondActionOnOneVersion | internal/adminops/actions.go:103-105 | of two actions naming one version, one right after the other, the second passes the version check iff the first was stamped with that version |
| ProtocolWitness.BothActionsCommit | internal/adminops/actions.go:98-160 | on any sealable request, a run from the empty database after which two actions naming one version both commit |
| ProtocolWitness.InvoicesCanBeSealed | internal/persistence/seal.go:104-123 | a one-line invoice passes the gate and can be sealed into the empty database |
| Operator.CommittedKeyAnswers | internal/adminops/actions.go:78-92 | a committed key answers later lookups with the same result as a replay, or a conflict |
| Operator.ActStepsRow | internal/adminops/actions.go:107-172 | an action touches only its row and keeps that row's invariant, success and cancellation |
| Outbox.PersistAnswer | internal/persistence/outbox.go:354-515 | under the invariant persisting has three outcomes: repeat on succeeded, refusal on dead, attempt 1 with the outcome otherwise; the repairing branch never runs |
| Outbox.MarkStepsRow | internal/persistence/outbox.go:307-351 | marking a claimed row always commits, touches nothing but its ledger, and keeps its invariant |
| OutboxEffects.MarkDoes | internal/persistence/outbox.go:307-351 | marking adds one processing event to a sealed ledger, or nothing; no row, attempt or response changes |
| Outbox.ReleaseStepsRow | internal/persistence/outbox.go:256-304 | releasing a claimed row always commits and never disturbs a succeeded or dead one |
| OutboxEffects.ReleaseDoes | internal/persistence/outbox.go:256-304 | releasing a row in flight leaves it pending, due at now + 5 000 000 microseconds and stamped now, its ledger ending in sealed by at most one event more; any other row stays; nothing else changes |
| ProtocolEffects.ReleasedIsClaimableAgain | internal/persistence/outbox.go:256-304 | in every reachable state a release that goes through on a row in flight does that; the row is claimable from that instant on and not before |
| ProtocolEffects.AnswersMean | internal/persistence/outbox.go:192-241 | which outcome of the authority a worker goes on to persist, and which replies make it release |
| Outbox.PersistStepsRow | internal/persistence/outbox.go:354-521 | persisting touches only the claimed row, its ledger, attempts and unused responses, and keeps its invariant |
| OutboxEffects.PersistDoes | internal/persistence/outbox.go:354-515 | persisting on a row waiting or in flight succeeds it, stamped now, with attempt 1, its response, the events that end its ledger in the outcome, and a report of it; on a succeeded row it changes nothing, on a dead one it fails |
| OutboxEffects.PersistRepairs | internal/persistence/outbox.go:395-421 | a ledger that already has its outcome while its row has not succeeded is made good: the row succeeds and that outcome is reported, without an attempt |
| Outbox.ClaimKeepsRows | internal/persistence/outbox.go:132-190 | a claim keeps every row's invariant, and success and cancellation everywhere |
| OutboxEffects.ClaimFindsTheDue | internal/persistence/outbox.go:132-190 | some claim commits iff some row is pending and due, or in flight and untouched for 30 s |
| OutboxEffects.ClaimTakes | internal/persistence/outbox.go:132-190 | a claim takes such a row with the least due time, puts it in flight stamped now, answers its ids, and makes every other stale row pending and due now |
| Tables.OutcomeIsLast | internal/persistence/outbox.go:395-421 | on a chain an authority outcome is the last event |
| Tables.ChainAlternates | internal/persistence/outbox.go:256-470 | a ledger alternates sealed and processing, until one of the three outcomes may end it |
| Tables.ChainTop | internal/persistence/outbox.go:384-391 | on a chain the greatest number is the length and the query's top event is the last |
| Sealing.SealKeepsInv | internal/persistence/seal_tx.go:92-235 | a seal, whatever its answer, keeps numbering, uniqueness and the one-to-one correspondences |
| Sealing.SealedNumbering | internal/persistence/seal_tx.go:338-401 | a seal uses exactly the next number of its scope and series |
| Sealing.SealedIdempotency | internal/persistence/seal_tx.go:212-222 | after a seal records are all completed and pair up with documents |
| Sealing.SealedOutbox | internal/persistence/seal_tx.go:205-212 | after a seal every document has one row, sharing neither document nor submission |
| Sealing.StoredRoundTrip | internal/persistence/seal_tx.go:157-193 | the stored document and lines stand for exactly the request's projection |
| SealingEffects.FreshSealDoes | internal/persistence/seal_tx.go:92-235 | under a new key a seal is refused for an external id in use or a quantity not positive; otherwise it writes exactly the rows spelled out, with the number after all those of its series, and answers that number with the request's series, scope and external id |
| SealingEffects.SealAnswersWhatIsStored | internal/persistence/seal_tx.go:92-336 | the answer of a committed seal, fresh or replayed, is the stored document's number, series, scope, external id and creation time, with the submission of its only outbox row; a hit iff the key was recorded |
| Sealing.RecordReconstructs | internal/persistence/seal_tx.go:237-283 | a recorded hash is the request's iff the stored rows reconstruct the request's projection |
| Sealing.RecordedKeyAnswer | internal/persistence/seal_tx.go:264-282 | a key with a record answers the recorded result for the stored projection and a conflict for any other; nothing changes |
| Sealing.SuccessIsRecorded | internal/persistence/seal_tx.go:212-235 | a successful seal leaves a record from which the same answer can be loaded |
| Sealing.LoadStable | internal/persistence/seal_tx.go:285-336 | what a replay loads stays the same as long as nothing recorded is lost |
| FiscalStore.Store.SealInTx | internal/persistence/seal.go:104-123 | gate, hash and one transaction over tables in place: the answer and the new state are those of the sealing step, and the answer is that of the stored document and its one outbox row; an error changes nothing |
| FiscalStore.Store.SealInQuerier | internal/persistence/seal_tx.go:92-235 | the transaction's body answers, and on success leaves, what the sealing step says |
| FiscalStore.Store.ResolveIdempotency | internal/persistence/seal_tx.go:237-283 | insert-or-ignore and lookup decide replay, conflict or sealing anew |
| FiscalStore.Store.LoadCompletedResult | internal/persistence/seal_tx.go:285-336 | finds the one row of the join |
| FiscalStore.Store.NextFiscalSeq | internal/persistence/seal_tx.go:338-401 | returns and stores the number after the last |
| FiscalStore.Store.InsertLines | internal/persistence/seal_tx.go:183-193 | inserts the lines numbered from 1 in order, or reports the one the table refuses |
| FiscalStore.Store.ClaimOutbox | internal/persistence/outbox.go:132-190 | commits the claim of some first due row after reclaiming, and nothing when no choice of row would |
| FiscalStore.Store.MarkAuthorityProcessing | internal/persistence/outbox.go:307-351 | the step that records processing, on tables in place |
| FiscalStore.Store.ReleaseOutboxUnavailable | internal/persistence/outbox.go:256-304 | on tables in place: a row still in flight is pending again, due 5 s from now and stamped now, its ledger back at sealed; any other row is as it was |
| FiscalStore.Store.RecordOutcome | internal/persistence/outbox.go:444-470 | the running sequence number and from-status give the same events as two separate moves |
| FiscalStore.Store.PersistAuthoritySuccess | internal/persistence/outbox.go:354-521 | the step that records the outcome, on tables in place, undone when the row no longer waits |
| FiscalStore.Store.FinishOutbox | internal/persistence/outbox.go:192-241 | undisturbed, a worker's three transactions one after the other: by the reply, the row succeeded with its outcome, attempt and report, or pending, due 5 s on, its ledger at sealed; signing is part of the reply |
| FiscalStore.OpsStore.ApplyQueueAction | internal/adminops/actions.go:57-183 | checks, lookup, transaction: a call that commits leaves the row its action's text says; whatever does not commit changes nothing; the invariant stays |
| OperatorEffects.CommittedActionDoes | internal/adminops/actions.go:93-183 | by the text of a committed action: "retry" leaves the row pending, without disposition, due now; "cancel" dead and cancelled; "manual_review" dead for review; the due time stays for the last two; the answer and the key's record say the same |
| OperatorEffects.ActionAnswers | internal/adminops/actions.go:93-183 | on a known submission: a stale version, a final state and a used key are refused, in this order, and nothing else is |
| OperatorEffects.GuardMeans | internal/adminops/actions.go:186-196 | only the simulator, or no mode, in production is forbidden, whatever case or padding |
| OperatorEffects.RefusalsMean | internal/adminops/actions.go:57-76 | which check refuses a call before anything is looked up |
| Operator.PaddingIsIgnored | internal/adminops/actions.go:57-76 | padding changes nothing in what is admitted, and admitted is exactly what has its fields, a known action, a version and an environment the guard allows |
| FiscalStore.OpsStore.Commit | internal/adminops/actions.go:93-183 | the optimistic update and the key insert, both or neither |
| Canonical.MaterializeV2Injective | internal/canonical/canonical.go:79-133 | equal version 2 texts come from projections equal in every field and every line in order |
| Canonical.MaterializeV1Determines | internal/canonical/canonical.go:74-133 | equal version 1 texts come from projections equal but for zone and offset, and conversely |
| Canonical.VersionsNeverCoincide | internal/canonical/canonical.go:73-86 | no version 1 text is a version 2 text |
| Canonical.RecordsDecode | internal/canonical/canonical.go:135-144 | length-prefixed records determine the fields |
| Canonical.Materialize | internal/canonical/canonical.go:103-133 | the builder loop writes the material |
| Canonical.Builder.WriteLV | internal/canonical/canonical.go:140-144 | appends one record to what was written |
| Canonical.HeaderSays | internal/canonical/canonical.go:103-122 | each header field stands under its own name, in this order; version 1 leaves out the temporal pair |
| Canonical.LineSays | internal/canonical/canonical.go:124-131 | each line says its five named things, in the lines' order |
| Canonical.MaterialSays | internal/canonical/canonical.go:73-133 | both materials are a version line and then the records of those names and values |
| Money.FormatAfterParse | internal/money/money.go:43-74 | the parser accepts exactly the canonical strings, and formatting gives each back |
| Money.ParseAfterFormat | internal/money/money.go:43-74 | formatting then parsing is the identity exactly below 10^18 cents |
| Money.FormatInjective | internal/money/money.go:67-74 | amounts with the same text are the same, over all of int64 |
| Quantity.ParseCanonical | internal/quantity/quantity.go:44-75 | the padding loop computes the specified parse |
| Quantity.FormatAfterParse | internal/quantity/quantity.go:44-88 | the parser accepts exactly the canonical strings, and formatting gives each back |
| Quantity.ParsedMeans | internal/quantity/quantity.go:44-75 | an accepted text denotes its quantity: whole units and decimals, in ten-thousandths |
| Quantity.ParseAfterFormat | internal/quantity/quantity.go:44-88 | formatting then parsing is the identity exactly on positive values below 10^16 |
| Quantity.FormatInjective | internal/quantity/quantity.go:78-88 | quantities with the same text are the same |
| FiscalTime.NormalizedIsValid | internal/fiscaltime/fiscaltime.go:42-138 | what normalisation produces passes the second check iff its UTC year has four digits |
| FiscalTime.NormalizedMeans | internal/fiscaltime/fiscaltime.go:42-103 | an instant and a zone normalise iff the text is an instant whose offset is the zone's at it, within fourteen hours; the result is that instant in whole microseconds, its text, the zone and the offset |
| FiscalTime.LateYearFails | internal/fiscaltime/fiscaltime.go:42-138 | half an hour before midnight of the last day of 9999, an hour behind UTC, normalises and fails the second check |
| FiscalTime.AcceptedTextIsCanonical | internal/fiscaltime/fiscaltime.go:105-138 | an accepted text is the canonical one of its instant iff it came unpadded |
| FiscalTime.GateIgnoresPadding | internal/fiscaltime/fiscaltime.go:105-110 | padding changes no decision of the check |
| Text.TrimSpaceTakes | internal/fiscaltime/fiscaltime.go:105-110 | trimming takes blanks off both ends and nothing else |
| SealGate.PrepareSealRequest | internal/persistence/seal.go:125-185 | the checking loop gives the first problem, or the request with its series trimmed |
| SealGate.AcceptsExactlySealable | internal/persistence/seal.go:125-185 | exactly the sealable requests pass, changed only in the padding of the series, and pass again unchanged |
| SealGate.RefusalsMean | internal/persistence/seal.go:125-185 | a refusal names the first of the header checks that fails or, when none does, the first line that lacks something |
| DocumentIntake.MapIntent | internal/httpapi/documents.go:318-391 | the loop collects all errors, or all lines |
| DocumentIntake.Itoa | internal/httpapi/documents.go:393-405 | the byte buffer filled from the right is the decimal numeral |
| DocumentIntake.AcceptsExactlyMappable | internal/httpapi/documents.go:318-391 | exactly the mappable bodies pass, with one line per body line in order |
| IntakeEffects.BodyCarried | internal/httpapi/documents.go:318-391 | every field of an accepted body, the scope and the issue context are in their own places in the intent; each line carries its texts, and numbers whose canonical texts are the body's |
| IntakeEffects.AcceptedBodyIsStored | internal/persistence/seal_tx.go:157-193 | a fresh seal of an accepted body stores that body: its seller and customer, its texts, its lines in order |
| IntakeEffects.RefusalsMean | internal/httpapi/documents.go:318-391 | the errors of a refused body are exactly what is wrong with it |
| DocumentIntake.FirstGateImpliesSecond | internal/persistence/seal.go:125-185 | a request built from an accepted body passes the second gate iff its UTC year has four digits |
| DocumentIntake.LateYearSplitsTheGates | internal/persistence/seal.go:125-185 | with that issued_at any mappable body passes the first gate and is refused by the second |
| Credentials.MakingRoom | internal/persistence/credentials.go:343-379 | revoking the old grace before demoting runs into no uniqueness constraint, and every statement keeps the invariant |
| Credentials.RevokeKeeps | internal/persistence/credentials.go:823-846 | revoking any credential keeps uniqueness, coherence and links |
| Credentials.DemoteKeeps | internal/persistence/credentials.go:359-379 | so does demoting the active one when its scope has none in grace |
| Credentials.InsertKeeps | internal/persistence/credentials.go:780-821 | so does inserting into a scope without an active one, from a credential nothing replaced yet |
| Credentials.IssueKeeps | internal/persistence/credentials.go:241-307 | Issue, succeeding or failing, keeps the invariant |
| CredentialEffects.IssueDoes | internal/persistence/credentials.go:241-307 | when Issue is refused, and with what; otherwise the one row it adds, column by column, and one audit record |
| CredentialEffects.IssueWindow | internal/persistence/credentials.go:241-307 | right after Issue the new token is accepted exactly in an open scope of its environment and before its expiry; nobody else's acceptance changes |
| Credentials.RotateKeeps | internal/persistence/credentials.go:311-415 | Rotate, succeeding or failing, keeps the invariant |
| CredentialEffects.RotateDoes | internal/persistence/credentials.go:311-415 | when Rotate is refused, and with what; otherwise the new row, the demoted and the revoked one, column by column, and one audit record |
| Credentials.RevokeTxKeeps | internal/persistence/credentials.go:418-467 | Revoke, succeeding or failing, keeps the invariant |
| CredentialEffects.RevokeDoes | internal/persistence/credentials.go:418-467 | when Revoke is refused, and with what; otherwise the one row it changes, and one audit record |
| CredentialEffects.RevokeWindow | internal/persistence/credentials.go:418-467 | after Revoke the credential named is accepted at no instant, every other as before |
| CredentialRuns.RunKeeps | internal/persistence/credentials.go:241-467 | any run keeps the invariant; rows only move from active to grace to revoked, audits are only appended |
| CredentialRuns.LineageIsAChain | migrations/sqlite/0003_sandbox_credentials.up.sql:45-51 | following rotated_from stays in the scope, goes strictly back, never loops, and only its head can be active |
| CredentialRuns.LineagesDoNotBranch | internal/persistence/credentials.go:384-396 | of two lineages that meet, one contains the other |
| CredentialRuns.AtMostTwoAccepted | internal/auth/auth.go:211-237 | among three tokens of a scope accepted at one instant two are the same |
| CredentialRuns.RevokedNeverAccepted | internal/auth/auth.go:222-224 | a revoked token is accepted at no instant of any continuation |
| CredentialRuns.GraceEndsOnTime | internal/auth/auth.go:229-233 | from its deadline on a token in grace is not accepted in any continuation |
| CredentialRuns.RotationWindows | internal/persistence/credentials.go:311-415 | right after a rotation exactly the new token until its expiry and the replaced one until deadline or expiry are accepted |
| CredentialStores.CredentialStore.Issue | internal/persistence/credentials.go:241-307 | the transaction on tables in place; a failed delivery, like any error, changes nothing |
| CredentialStores.CredentialStore.Rotate | internal/persistence/credentials.go:311-415 | the transaction in statement order, each keeping the invariant; any error changes nothing |
| CredentialStores.CredentialStore.Revoke | internal/persistence/credentials.go:418-467 | the transaction on tables in place; any error changes nothing |
| CredentialStores.CredentialStore.InsertCredential | internal/persistence/credentials.go:780-821 | inserts iff no unique index objects, and keeps the invariant either way |
| CredentialStores.CredentialStore.Demote | internal/persistence/credentials.go:359-379 | succeeds iff the scope has no credential in grace |
| CredentialStores.CredentialStore.MarkRevoked | internal/persistence/credentials.go:823-846 | changes one row of the scope that is not revoked yet, or none |
| CredentialStores.Authenticator.Authenticate | internal/auth/auth.go:172-209 | lets in iff the token is well formed and the hash of an accepted credential, and appends exactly one audit record, with the credential or the reason of the refusal |
| CredentialStores.ValidSandboxTokenFormat | internal/auth/auth.go:258-276 | the byte loop decides the format |
| CredentialEffects.TokensAreWellFormed | internal/persistence/credentials.go:999-1009 | a token drawn from 32 bytes has the form asked of it, and two draws give the same one iff the bytes are the same |
| Base64Url.DecodesExactlyTheEncoded | internal/fejws/compact.go:241-257 | the canonical decoder accepts exactly the encoder's image and inverts it |
| Base64Url.RefusesExactlyTheNonCanonical | internal/fejws/compact.go:245-257 | of what the lenient decoder takes it refuses exactly texts with a line break or a non-zero bit past the last byte |
| Base64Url.BytesOfSextets | internal/fejws/compact.go:241-243 | splitting bytes into sextets loses nothing |
| Base64Url.SameNumber | internal/fejws/compact.go:241-243 | the characters are the bytes' own number in base 64, shifted by the zero bits of the last one |
| Base64Url.AlphabetIs | internal/fejws/compact.go:241-243 | the URL-safe alphabet in its order |
| JsonTokens.SkipValue | internal/fejws/compact.go:216-239 | the recursive skipper terminates on any stream where the walk says |
| JsonTokens.SkipsExactlyOneValue | internal/fejws/compact.go:216-239 | wherever a value stands, of any nesting and whatever follows, it consumes exactly that value |
| JsonTokens.CutShortFails | internal/fejws/compact.go:216-239 | on a stream cut off inside the value it fails |
| JsonTokens.ObjectKeysRejectDuplicates | internal/fejws/compact.go:178-214 | the loop over a decoder computes the names or the error, on any stream |
| JsonTokens.ObjectKeysOf | internal/fejws/compact.go:178-214 | on a well-formed object it succeeds iff the top-level names are distinct, with exactly those |
| CompactJws.AcceptsExactlyTheGenuine | internal/fejws/compact.go:87-127 | a text is accepted with a payload iff it is the compact form of that payload with an acceptable header and a signature verifying over the text before it |
| CompactJws.CompactInjective | internal/fejws/compact.go:46-70 | compact forms are equal iff header, payload and signature are |
| CompactJws.OneTextPerToken | internal/fejws/compact.go:87-110 | two accepted texts that decode leniently to the same bytes are the same text |
| CompactJws.SignedVerifies | internal/fejws/compact.go:46-127 | what was signed verifies to the exact payload, unless that is empty, which is refused |
| CompactJws.AcceptedHeaders | internal/fejws/compact.go:138-176 | the order of the checks, token stream first: distinct names, readable fields, the algorithm, the critical names |
| HeaderEffects.HeadersAccepted | internal/fejws/compact.go:138-176 | exactly these headers: objects with distinct names, alg and typ in any case strings or null, the last alg that is not null RS256, and a crit that is absent, null, or an array of strings each "alg" or "typ" and the name of a field |
| HeaderEffects.TokensAccepted | internal/fejws/compact.go:87-176 | a text is accepted with a payload iff it is three base64url parts, such a header, that payload and a signature the key takes over the text before it |
| HeaderEffects.HeadersRefused | internal/fejws/compact.go:138-176 | which error a refused header gets: the first thing wrong with it |
| HeaderEffects.VerifyAnswers | internal/fejws/compact.go:87-127 | a compact form with an empty part is malformed; any other is judged by its header, then for want of a key, then by its signature |
| HeaderEffects.OtherTextsAreMalformed | internal/fejws/compact.go:87-110 | every other text is malformed |
| SaftAmounts.AddMoneyIs | internal/saftao/export.go:1034-1090 | an addition shows the sum modulo 2^64 if that is not negative, for every accumulator and amount |
| SaftAmounts.AddMoneyExact | internal/saftao/export.go:1034-1090 | amounts that fit int64 cents are added exactly, or the sum does not fit and the call fails |
| SaftAmounts.WrongTotalExactlyWhen | internal/saftao/export.go:1058-1090 | a wrong total comes out iff the cents overflow unnoticed and the sum wraps past zero |
| SaftAmounts.SafeAmounts | internal/saftao/export.go:1058-1090 | which amounts no accumulator can turn into a wrong total |
| SaftAmounts.WrappedTotal | internal/saftao/export.go:1034-1090 | a concrete total that wraps |
| SaftAmounts.AccumulateIs | internal/saftao/export.go:166-181 | any list of amounts fails iff one is not taken or a running sum wraps to a negative number, and otherwise shows the sum modulo 2^64 |
| SaftAmounts.WrongListExactlyWhen | internal/saftao/export.go:166-181 | a list comes to a wrong total iff no running sum is negative and the true sum does not fit int64 |
| SaftAmounts.AccumulateExact | internal/saftao/export.go:166-181 | after any number of fitting amounts the accumulator denotes their sum, or the call has failed |
| SaftQuantities.ParseDecimalMilli | internal/saftao/export.go:813-844 | the padding loop computes the specified parse |
| SaftQuantities.SumText | internal/saftao/export.go:800-810 | the trimmed text of a sum denotes it again |
| SaftQuantities.SumTextIsShortest | internal/saftao/export.go:800-810 | no superfluous zero at either end, and no point behind a whole number |
| SaftQuantities.AddDecimalExact | internal/saftao/export.go:784-811 | decimals that fit int64 milli-units are added exactly, or the call fails |
| SaftQuantities.WrongQuantityExactlyWhen | internal/saftao/export.go:784-844 | a wrong sum comes out iff the milli-units overflow unnoticed and the sum wraps past zero |
| SaftQuantities.WrappedQuantity | internal/saftao/export.go:784-844 | a concrete quantity whose milli-units wrap to 384 |
| SaftQuantities.AccumulateMilliIs | internal/saftao/export.go:278-285 | any list of decimals fails iff one is not taken or a running sum wraps to a negative number, and otherwise shows the sum modulo 2^64 |
| SaftQuantities.WrongQuantitiesExactlyWhen | internal/saftao/export.go:278-285 | a list comes to a wrong total iff no running sum is negative and the true sum does not fit int64 |
| SaftQuantities.AccumulateMilliExact | internal/saftao/export.go:278-285 | after any number of fitting lines the total denotes their sum, or the call has failed |
| SaftPeriods.DateOrder | internal/saftao/dates.go:13-38 | date texts compare as the days they denote |
| SaftPeriods.WithinDays | internal/saftao/export.go:155-158 | a date is in a period iff its day is neither before the first nor after the last |
| SaftPeriods.DateRoundTrip | internal/saftao/dates.go:13-38 | a date text is the text of its day |
| SaftPeriods.DayRoundTrip | internal/saftao/dates.go:13-38 | every day of the calendar up to 9999 has such a text |
| SaftPeriods.MonthsAre | internal/saftao/dates.go:13-38 | the lengths of the months, leap years included |
| SaftPeriods.NoDateBetweenDays | internal/saftao/dates.go:13-38 | no unpadded date falls between a day and the next |
| SaftPeriods.PaddedDateFallsBetween | internal/saftao/dates.go:16-38 | a date with a blank behind passes validation and does |
| SaftPeriods.PartsAreWholeExactlyWhen | internal/saftao/export.go:155-158 | two parts of a period select all of it iff nothing falls between; their totals then add up |
| SaftExport.FilterDocuments | internal/saftao/export.go:149-190 | the loop with its running totals computes the selection |
| SaftExport.AddLines | internal/saftao/export.go:166-181 | the inner loop computes both totals, or fails as either does |
| SaftExport.SelectionIs | internal/saftao/export.go:149-230 | it succeeds iff dates are valid, what is in the period allowed and sound, and amounts add up; it selects exactly that in order |
| SaftExport.TotalsAre | internal/saftao/export.go:149-230 | on any amounts: the filter succeeds iff they are summable, with the sums modulo 2^64 |
| SaftExport.TotalsAreExact | internal/saftao/export.go:149-230 | with fitting amounts the totals are exact sums, and an export whose sums do not fit fails |
| SaftEffects.SelectionAddsUp | internal/saftao/export.go:149-190 | a successful filter keeps the documents dated in the period, in order, and shows the sums of their own lines' debits and credits |
| SaftEffects.RefusalMeans | internal/saftao/export.go:149-190 | a refusal names the first document that does not pass and the first thing wrong with it |
| SaftExport.PeriodsCompose | internal/saftao/export.go:149-230 | on any amounts: given that the whole period succeeds, a part succeeds iff its own amounts are summable, always so when the totals of the whole are true; two parts that succeed are disjoint, are all of the whole iff nothing falls between, and then their totals add up to those of the whole, wrapped or not |
| SaftExport.FittingPeriodsCompose | internal/saftao/export.go:149-230 | with fitting amounts both parts succeed and their totals add up whenever nothing falls between |
| SaftExport.WrappingBreaksParts | internal/saftao/export.go:166-181 | with an amount that overflows, a whole period succeeds with a wrapped total while its first part fails |
| SaftLedger.FilterGeneralLedgerEntries | internal/saftao/export.go:882-964 | the nested loops compute the filtered entries |
| SaftLedger.FilterIsIdempotent | internal/saftao/export.go:882-964 | the filter changes nothing on its own output |
| SaftLedgerPeriods.LedgerIs | internal/saftao/export.go:895-938 | the journals pass iff dates, types, structure and amounts do, and what comes out is exactly what lies in the period |
| SaftLedgerPeriods.FilteredIs | internal/saftao/export.go:882-964 | on any amounts: when the filter succeeds, and with which transactions and totals |
| SaftEffects.LedgerLeaves | internal/saftao/export.go:882-964 | the filter leaves the journals with transactions in the period, in order, with their headings and those transactions, and their number; nothing only if there are none and no empty ledger was asked for |
| SaftLedgerPeriods.PartExportable | internal/saftao/ledger_entries.go:125-186 | a part of a period passes every check the whole passes, journals and duplicates included, but perhaps not its sums |
| SaftLedgerPeriods.LedgerPeriodsCompose | internal/saftao/export.go:882-964 | on any amounts: given that the whole period succeeds, a part succeeds iff its own amounts are summable, always so when the totals of the whole are true; two parts that succeed are disjoint, are all of the whole iff nothing falls between, and then their totals add up to those of the whole, wrapped or not |
| SaftLedgerPeriods.FittingLedgerPeriodsCompose | internal/saftao/export.go:882-964 | with fitting amounts both parts succeed and their totals add up whenever nothing falls between |
| GlMapping.MapOneRecord | internal/saftao/mapglentries.go:212-361 | a record gives its transaction or the list of what is missing |
| GlEffects.FateIs | internal/saftao/mapglentries.go:89-361 | what becomes of a record: passed over, omitted under the names of what is wrong, or a transaction with its trimmed identifier, its date and type, whose i-th debit denotes the i-th debit line's cents, and so for credits |
| GlEffects.OmissionsAre | internal/saftao/mapglentries.go:212-361 | the omissions are exactly the fields named, each under its record's scope and document |
| GlMapping.MapRecords | internal/saftao/mapglentries.go:89-139 | the loop over sorted records fills journals, order, omissions and count |
| GlAccounting.MappingAccounts | internal/saftao/mapglentries.go:89-139 | it succeeds iff neither omissions nor transactions are too many, and then every record is omitted with its omissions or filed once under its journal |
| GlEffects.TakenInOrder | internal/saftao/mapglentries.go:68-139 | records are taken by journal, document and instant; the mapping succeeds iff omissions and transactions stay within their limits |
| GlEffects.JournalsOpen | internal/saftao/mapglentries.go:126-139 | journals stand in the order of the records that opened them, with those records' descriptions |
| GlExport.MapLedgerToExport | internal/saftao/mapglentries.go:60-209 | sort, map, seed and export in sequence, with every early error |
| GlExport.SeedSide | internal/saftao/mapglentries.go:153-174 | the nested seeding loops add up all lines |
| GlExport.SortOrders | internal/saftao/mapglentries.go:78-87 | the sorted copy is an ordered permutation |
| GlTheorems.EveryRecordAccountedFor | internal/saftao/mapglentries.go:60-209 | Mapped counts the mappable records, the omissions are those of the others, the journals hold each transaction once |
| GlTheorems.ExportKeepsAllExactlyWhen | internal/saftao/mapglentries.go:140-209 | the export is exactly what was mapped, number and totals included, iff nothing mapped is dated before the trimmed start; always when the start has no blank in front |
| GlTheorems.PaddedStartAdmits | internal/saftao/mapglentries.go:113-115 | with a blank in front of its start a period admits any earlier date, which the same period trimmed does not |
| GlWitness.MappedAndDropped | internal/saftao/mapglentries.go:140-209 | a concrete record that is mapped and counted, and missing from the export |
| GlTheorems.SeededTotalsAreExact | internal/saftao/mapglentries.go:152-176 | the seeded totals are the exact sums of the cents of the transactions mapped |
| GlEffects.ExportComesTo | internal/saftao/mapglentries.go:60-209 | the export has one entry for each record exported, and its totals are the sums of these records' own debit and credit cents |
| PurchaseMapping.CollectSuppliers | internal/saftao/mappurchase.go:66-120 | the two loops collect configured suppliers, then placeholders for those used and unseen |
| PurchaseMapping.ConfiguredInOrder | internal/saftao/mappurchase.go:72-79 | of each identifier that is not blank the first configured supplier, in their order |
| PurchaseMapping.UsedInOrder | internal/saftao/mappurchase.go:112-117 | then a placeholder for each identifier used and not seen |
| PurchaseMapping.NewInOrder | internal/saftao/mappurchase.go:112-117 | in the order of first use |
| PurchaseMapping.ValidateSupplierRefs | internal/saftao/export.go:649-663 | the check by map lookup |
| PurchaseMapping.SupplierCheckPassesExactlyWhen | internal/saftao/mappurchase.go:72-79 | the check passes iff the first configured supplier of every used trimmed identifier is written trimmed |
| PurchaseMapping.PaddedSupplierFails | internal/saftao/mappurchase.go:72-79 | a supplier configured as " S1" fails an invoice that names S1 |

## Left out

- PostgreSQL: its dialect, row locks and SKIP LOCKED; the model is SQLite's serial transactions.
- Storage failures inside a statement: a transaction here commits whole or fails for one of the modelled reasons.
- Ids of ledger events and responses, event types, message types, and the timestamps of idempotency records.
- FiscalStore.Store.FinishOutbox: runs undisturbed and with releases that succeed; failing ones are events of the
  protocol.
- CredentialStores.Authenticator.Authenticate: always writes its audit record, while the code ignores a write that
  fails; it returns the credential, not the whole binding of its scope.
- GlMapping.MapOneRecord: carries the fields other than identifier, date, type and amounts as an opaque value.
- GlExport.MapLedgerToExport: of the export it makes the ledger filter; header, account and party references, and the
  schema check are not part of this model.
- PurchaseMapping.CollectSuppliers: takes the supplier ids of the mapped invoices; which records are mapped is not
  modelled.
- Signing the envelope and the authority's transport: a submission's reply is any of the possible ones.
- TrimSpace on Unicode blanks outside ASCII; text is bytes.
- Text.TrimSpace: models the ASCII blanks only.
- SealInTx on a body of more than MaxInt64 lines or numbers, which int64 could not count.
- JSON text: an unreadable header is one error here; the code may name a repeated key met before the text breaks.
- CompactJws.Unmarshal: compares names in either case over ASCII only.
- RSA, SHA-256 and the random source: a matching scheme, a collision-free digest, and fresh names.
- Token and header size limits, bearer header extraction, the development authenticator, scope creation checks.
- BuildIncrementalExport beyond filters, totals and the supplier check: header, tax tables, customers, products, XML,
  XSD.
- Stock movement and purchase filters: the same loop as SaftExport with a quantity total or none.
- ValidateStructural of invoices, payments, work documents, transactions and their fields: parameters.
- GlExport.SortRecords: one stable order; the library's sort may order equal records otherwise.
- The count of omitted documents by joined key (LedgerMapResult.Omitted).
- Series lifecycle, authority profiles, availability evaluation, HTTP handling, sessions: flat checks or plumbing.
