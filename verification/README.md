# Verified models of Notify-Chain

Notify-Chain watches Soroban contracts and notifies people about what happens on them. This
project models the parts of it that hold money or carry an algorithm, and proves what those parts
promise.

**The TaskBounty contract.** A poster escrows a reward, contributors submit work, and the poster
approves one submission (which pays its contributor) or cancels (which refunds the poster); the
parties can dispute. `TokenLedger` holds the tokens, `BountyTypes` the records, `BountySpec` what
each entry point does (the first check that refuses a call, and the effect when none does), and
`BountyContract` the contract as an object whose entry points read and write stored maps, each
proved against `BountySpec`, with the host's rollback of a call that panics. `BountyInvariants`
shows what every call keeps. `BountyRuns` adds what storage does not remember: the payments made
for each task, the times a finished task was disputed open again (a *reopening*), and the ledger
as it would be had the contract never moved a token. `BountyTheorems` states the results over
every run: any sequence of calls, at times that never run backwards, among transfers other
accounts make on the same tokens (gifts to the contract included). `BountyAnswers` says, for every
reachable state and over the stored fields alone, when each entry point is accepted, which error it
gives otherwise, and what it changes. `BountyWorstCase` builds the costliest runs.

**The API credential registry** of the same contract: `ApiKeys` (operations and object),
`ApiKeyTheorems` (every run of register, rotate and revoke by any organizations) and `ApiKeyAnswers`
(what each call answers and leaves, over the keys' fields).

**Dashboard and script algorithms**, each on its own: `CsvExport` with a reader of RFC 4180,
section 2; `PayloadRedaction` over object graphs that may share or contain themselves;
`TemplateRendering`; `ConfigMigration`, with `ConfigReading` on what a given file reads as; `EventStore` (deduplication as events stream in);
`StableSorting` and `EventSorting`; `TimeBuckets` (activity chart, webhook chart, heatmap,
percentile); `VirtualList`; `LatencyRanking`. `Sequences`, `Numbers`, `JsText` and `Events` are
shared by these.

`dafny verify dfyconfig.toml` checks the project.

## Where the code and its documents differ

The models follow the code.

- The workflow documents draw Completed and Cancelled as final. `raise_dispute` looks at the
  submission's status and not at the task's (`Documents/Task Bounty/src/dispute.rs:32-60`), so a
  finished task can become Disputed. `FinishedIsAbsorbing` says when it cannot: a finished task
  keeps its outcome and its payments however the run goes on iff every submission of it is approved
  or under dispute (or the dispute counter is used up). `ReopenedTaskPaidTwice` gives a run in which
  a reopened task is paid again out of another task's escrow, which is then stuck, and
  `ReopenedTaskCannotBeCancelled` one in which the reopened task itself is stuck.
  `OnePaymentPerFinishedTask` says that a task was paid as its status says iff it was never
  reopened, `PaidOnceForGoodExactly` when that is so on every continuation, `CostIsBounded` how
  often a task can have been paid, `CostIsReached` that it can be paid that often whatever number of
  submissions it takes, `CancelSucceedsExactly` when a live task can be cancelled, and `LedgerLaw` and `FundsNeverStuck` are stated by the number of reopenings.
- The rotation audit says that revoking a key promotes another active key. The code makes the
  oldest active key primary at every revocation, also when the revoked key was not the primary
  (`PrimaryKeptExactly`, `RevokingAnotherMovesPrimary`).
- The activity chart documents its buckets as [start, end); the placement puts an event on an
  inner boundary into the earlier bucket (`DocumentedBucketExactly`, `BoundaryEventMisplaced`).
- The webhook chart counts a delivery in (start, end] but averages latencies over [start, end)
  (`AveragedExactly`), so a success can be counted and not averaged or averaged and not counted
  (`EdgesCountedOrAveraged`).
- The ranking does not follow either usual rule for ties throughout: latencies 1, 1, 2, 3 are ranked
  1, 1, 2, 4, where dense ranks are 1, 1, 2, 3 and competition ranks 1, 1, 3, 4
  (`NeitherDenseNorCompetition`). `RankBetween` says exactly when a rank is the one or the other.

## What is assumed

- `initialize` is called once, first; the object's constructor stands for it.
- `require_auth` succeeds for the account a call names, and never for the contract's own address.
- A token accepts a transfer exactly when the amount is not negative and the payer holds it.
- Integer arithmetic panics on overflow, as the release profile of the contract's manifest sets.
- Strings, addresses and key fingerprints are compared for equality and otherwise opaque.
- The naive list draws the same 88-pixel rows as the virtualised one, row i at i x 88; its source sets no height.
- Times, latencies and ledger numbers on the dashboard are whole numbers; scroll positions are reals.

## Model

| member | source | states |
|---|---|---|
| BountyContract.TaskBountyContract.Initialize | Documents/Task Bounty/src/lib.rs:41-46 | a new contract has no records, and counters at zero |
| BountyContract.TaskBountyContract.Serve | Documents/Task Bounty/src/lib.rs:61-166 | an entry point answers as specified and leaves the specified storage; a call that panics leaves storage and balances as they were |
| BountyContract.TaskBountyContract.AddTaskSubmission | Documents/Task Bounty/src/storage.rs:54-59 | the task's list, empty if absent, gets the id at its end and no other list changes |
| BountyContract.TaskBountyContract.DoCreateTask | Documents/Task Bounty/src/task.rs:10-65 | the first failing check is the error; otherwise the reward moves from poster to contract and an Open task with the next id is stored |
| BountyContract.TaskBountyContract.DoSubmitWork | Documents/Task Bounty/src/submission.rs:7-68 | the first failing check is the error; otherwise the submission, its list entry, the contributor's mark, the count and the status are stored |
| BountyContract.TaskBountyContract.DoApprove | Documents/Task Bounty/src/submission.rs:71-131 | the first failing check is the error; otherwise the submission is Approved, the task Completed, and the reward moves to the contributor |
| BountyContract.TaskBountyContract.DoReject | Documents/Task Bounty/src/submission.rs:134-176 | the first failing check is the error; otherwise only the submission's status changes, to Rejected |
| BountyContract.TaskBountyContract.DoCancel | Documents/Task Bounty/src/task.rs:68-107 | the first failing check, the scan over the submissions included, is the error; otherwise the task is Cancelled and the reward moves to the poster |
| BountyContract.TaskBountyContract.DoRaiseDispute | Documents/Task Bounty/src/dispute.rs:7-64 | the first failing check is the error; otherwise the dispute is stored and active, and the task is Disputed whatever it was |
| BountyAnswers.CreateTaskAnswers | Documents/Task Bounty/src/task.rs:10-65 | a task is created iff the poster is not the contract, the reward is at least 1,000,000 and held by the poster, the deadline is ahead and within 31,536,000 seconds, and submissions are taken; each error iff its check is the first to fail |
| BountyAnswers.CreateTaskLeaves | Documents/Task Bounty/src/task.rs:38-65 | the new id is answered, the task is stored with all the call gave and the reward moves to the contract; a refused call changes nothing |
| BountyAnswers.SubmitWorkAnswers | Documents/Task Bounty/src/submission.rs:7-48 | work is taken iff the task is Open or InProgress, its deadline has not passed, the contributor has no submission to it and it is not full; each error iff its check is the first to fail |
| BountyAnswers.SubmitWorkLeaves | Documents/Task Bounty/src/submission.rs:41-68 | the new id is answered and the Pending submission, its list entry, the mark, the count and InProgress are all that changes |
| BountyAnswers.ApproveAnswers | Documents/Task Bounty/src/submission.rs:71-121 | an approval is accepted iff its caller is the task's poster, the submission is the task's and Pending, the task is not finished, the pair is not under dispute and the contract holds the reward; each error iff its check is the first to fail |
| BountyAnswers.ApproveLeaves | Documents/Task Bounty/src/submission.rs:104-121 | the submission becomes Approved, the task Completed, the reward moves to the contributor, and nothing else changes |
| BountyAnswers.RejectAnswers | Documents/Task Bounty/src/submission.rs:134-168 | a rejection is accepted iff its caller is the task's poster and the submission is the task's and Pending; each error iff its check is the first to fail |
| BountyAnswers.RejectLeaves | Documents/Task Bounty/src/submission.rs:170-172 | the submission becomes Rejected and nothing else changes |
| BountyAnswers.CancelAnswers | Documents/Task Bounty/src/task.rs:68-103 | a cancellation is accepted iff its caller is the task's poster, the task is not finished, no submission of it is Approved and the contract holds the reward; each error iff its check is the first to fail |
| BountyAnswers.CancelLeaves | Documents/Task Bounty/src/task.rs:96-107 | the task becomes Cancelled, the reward moves to the poster, and nothing else changes |
| BountyAnswers.DisputeAnswers | Documents/Task Bounty/src/dispute.rs:7-42 | a dispute is accepted iff its caller is the task's poster or the submission's contributor, the submission is the task's, not Approved and not under dispute; each error iff its check is the first to fail |
| BountyAnswers.DisputeLeaves | Documents/Task Bounty/src/dispute.rs:44-60 | the record and the active entry are stored under the next number, the task becomes Disputed, and nothing else changes |
| BountyAnswers.RejectedForGood | Documents/Task Bounty/src/submission.rs:165-172 | on every continuation a rejected submission stays Rejected, every approval of it is refused, and nobody is awarded for it |
| BountyAnswers.PaymentsAreThePosters | Documents/Task Bounty/src/submission.rs:79-121 | in every run each payment for a task was made by an accepted call of its poster: the approval of the awarded submission, or a cancellation |
| BountyInvariants.ListedKept | Documents/Task Bounty/src/submission.rs:41-62 | every accepted call keeps: a task's list is increasing and holds exactly its submissions, as many as its count says and at most its maximum |
| BountyInvariants.MarkedKept | Documents/Task Bounty/src/submission.rs:31-55 | every accepted call keeps: a contributor is marked for a task iff a submission of theirs exists, and then only one does |
| BountyInvariants.DisputesSoundKept | Documents/Task Bounty/src/dispute.rs:39-60 | every accepted call keeps: active disputes and dispute records name each other, and no disputed submission is approved |
| BountyInvariants.CountsKept | Documents/Task Bounty/src/submission.rs:41-62 | every accepted call keeps the submission counts of all tasks adding up to the submission counter |
| BountyRuns.PaidSoundlyKept | Documents/Task Bounty/src/submission.rs:96-121 | every accepted call keeps: a task's payments match its status, its reopenings and its approved submissions, one award each, all of the reward |
| BountyRuns.AccountedKept | Documents/Task Bounty/src/task.rs:38-65 | every accepted call keeps every account's balance equal to what outside transfers alone would leave plus what the tasks moved |
| BountyTheorems.LedgerLaw | Documents/Task Bounty/src/task.rs:38-103 | in every run the contract's balance of a token is what it was given plus the sum of reward x (1 - payments) over that token's tasks, and payments = reopenings + 1 if finished |
| BountyTheorems.SupplyConserved | Documents/Task Bounty/src/submission.rs:118-121 | in every run the sum of all balances of a token is unchanged |
| BountyTheorems.EveryBalanceExplained | Documents/Task Bounty/src/submission.rs:118-121 | in every run any other account's balance is what outside transfers would have left, plus its payments, minus the rewards it put up |
| BountyTheorems.OnePaymentPerFinishedTask | Documents/Task Bounty/src/submission.rs:96-121 | in every run, iff a task was never reopened: it is Completed iff a submission of it is approved, then exactly one is and its contributor got the one payment, of the reward; Cancelled means one refund of the reward to the poster; and a live task was paid nothing |
| BountyTheorems.FundsNeverStuck | Documents/Task Bounty/src/task.rs:68-107 | while no task of its token was reopened, any live task can be cancelled by its poster at any time, and the poster then gets the reward back |
| BountyTheorems.CancelSucceedsExactly | Documents/Task Bounty/src/task.rs:81-103 | in any reachable world a live task can be cancelled by its poster iff no submission of it is approved and the contract holds the reward |
| BountyTheorems.ReopenedTaskCannotBeCancelled | Documents/Task Bounty/src/dispute.rs:58-60 | a run after which a live task cannot be cancelled by its poster |
| BountyTheorems.ReopenedTaskPaidTwice | Documents/Task Bounty/src/dispute.rs:58-60 | a run in which a cancelled task is disputed open and another submission of it approved: it is paid a second time, and an untouched task of the same token is left without its reward, so its poster's cancellation is refused whatever the time |
| BountyTheorems.FinishedLeftExactlyByReopening | Documents/Task Bounty/src/dispute.rs:32-60 | a step changes the status of a finished task iff it is an accepted dispute over a submission of that task |
| BountyTheorems.FinishedIsAbsorbing | Documents/Task Bounty/src/dispute.rs:32-60 | in any reachable world a finished task keeps its outcome and its payments on every continuation iff each of its submissions is approved or under dispute, or no dispute number is left |
| BountyTheorems.PaidOnceForGoodExactly | Documents/Task Bounty/src/dispute.rs:32-60 | in any reachable world a finished task is paid once, as its status says, on every continuation iff it was not reopened so far and each of its submissions is approved or under dispute, or no dispute number is left |
| BountyTheorems.CostIsBounded | Documents/Task Bounty/src/dispute.rs:46-60 | in every run a task was reopened at most once for each of its submissions under dispute, which are no more than its maximum, and paid at most once more than that |
| BountyWorstCase.CostIsReached | Documents/Task Bounty/src/dispute.rs:58-60 | for every number m of submissions a task may take, a run in which it is paid m + 1 times, leaving another poster's live task of m times the reward with nothing in the contract and its cancellation refused |
| BountyTheorems.DisputeFreezes | Documents/Task Bounty/src/submission.rs:106-109 | however a run goes on, an active dispute stays active, its submission is never approved, and a task closed to submissions stays so with its list as it is |
| BountyTheorems.VerdictsAreFinal | Documents/Task Bounty/src/submission.rs:96-113 | however a run goes on, an approved or rejected submission never changes, and a task that left Open and InProgress never returns and its list is frozen |
| BountyTheorems.IndexesAgree | Documents/Task Bounty/src/storage.rs:46-133 | in every run lists, counts, marks, records, active disputes and counters agree, and dispute records and actively disputed submissions correspond one to one by dispute number, as many as the counter says |
| BountyTheorems.SubmissionsInTime | Documents/Task Bounty/src/submission.rs:26-50 | in every run a submission was made after its task's creation and by its deadline, within 365 days |
| ApiKeys.ApiKeyRegistry.HasActiveFingerprint | Documents/Task Bounty/src/api_keys.rs:22-29 | true iff some active key of the vector has the fingerprint |
| ApiKeys.ApiKeyRegistry.RebuildWithPrimary | Documents/Task Bounty/src/api_keys.rs:31-45 | the vector with the primary flag on exactly the active keys of the given id |
| ApiKeys.ApiKeyRegistry.RegisterApiKey | Documents/Task Bounty/src/api_keys.rs:47-78 | answers and stores as specified: a duplicate active fingerprint is refused, else a key with the next id is appended |
| ApiKeys.ApiKeyRegistry.RotateApiKey | Documents/Task Bounty/src/api_keys.rs:80-148 | answers and stores as specified: refusals change nothing, else the new key is appended as the primary and the rotation logged |
| ApiKeys.ApiKeyRegistry.RevokeApiKey | Documents/Task Bounty/src/api_keys.rs:150-191 | answers and stores as specified: refusals change nothing, else the key is off and the first active key found is primary |
| ApiKeyAnswers.RegisterAnswers | Documents/Task Bounty/src/api_keys.rs:47-58 | in every reachable registry a key is registered iff no active key of the organization has the fingerprint and an id is left; each error exactly when |
| ApiKeyAnswers.RegisterLeaves | Documents/Task Bounty/src/api_keys.rs:59-77 | an active key with the call's name, fingerprint and time is appended, primary iff no key was active, and nothing else changes |
| ApiKeyAnswers.RotateAnswers | Documents/Task Bounty/src/api_keys.rs:88-109 | in every reachable registry a rotation is accepted iff the organization has an active key of that id, none with the new fingerprint, and an id is left; each error exactly when |
| ApiKeyAnswers.RotateLeaves | Documents/Task Bounty/src/api_keys.rs:111-148 | an active primary key with the call's name, fingerprint and time and the old id is appended, the other keys only lose the primary flag, the rotation is logged, and nothing else changes |
| ApiKeyAnswers.RevokeAnswers | Documents/Task Bounty/src/api_keys.rs:150-172 | in every reachable registry a revocation is accepted iff the organization has a key of that id, active or not |
| ApiKeyAnswers.RevokeLeaves | Documents/Task Bounty/src/api_keys.rs:157-190 | the key is off, the oldest key still active is the only primary, and nothing else changes |
| ApiKeyTheorems.KeysSoundOnEveryRun | Documents/Task Bounty/src/api_keys.rs:55-188 | in every run active fingerprints are distinct per organization, exactly one key is primary iff some key is active and it is active, ids are positive and globally unique, predecessors are earlier keys of the same vector, and the history is the rotations one to one in order |
| ApiKeyTheorems.KeysAreAppendOnly | Documents/Task Bounty/src/api_keys.rs:73-144 | however a run goes on, keys keep everything but their flags, the active flag only falls, and the history only grows |
| ApiKeyTheorems.RotationsEndAtRegistration | Documents/Task Bounty/src/api_keys.rs:111-130 | following predecessors stays in the organization's vector, strictly lowers ids and ends at a key with none |
| ApiKeyTheorems.RevokingLeaves | Documents/Task Bounty/src/api_keys.rs:157-188 | what a revocation leaves: the key off and the oldest active key primary, whichever was before |
| ApiKeyTheorems.RevocationsCommute | Documents/Task Bounty/src/api_keys.rs:150-191 | after every run revoking twice stores what revoking once does, and two revocations store the same in either order |
| ApiKeyTheorems.PrimaryKeptExactly | Documents/Task Bounty/src/api_keys.rs:173-186 | revoking another key leaves the primary in place iff no older key stays active |
| ApiKeyTheorems.RevokingAnotherMovesPrimary | Documents/Task Bounty/src/api_keys.rs:173-186 | a run after which revoking an unrelated key takes the primary flag from a rotated-in key |
| CsvExport.ReadEscaped | dashboard/src/utils/notificationExport.ts:135-140 | the RFC 4180 reader takes any escaped field back to the field, whatever follows it |
| CsvExport.CsvRoundTrip | dashboard/src/utils/notificationExport.ts:67-99 | for any notifications the reader recovers exactly the header and every notification's ten fields |
| CsvExport.ColumnsUnderHeader | dashboard/src/utils/notificationExport.ts:67-99 | the reader recovers the ten header names and, for each notification in order, the ten properties they name, empty for null |
| CsvExport.QuotedExactlyWhenNeeded | dashboard/src/utils/notificationExport.ts:135-140 | a field is written unchanged iff it has no quote, comma, line feed or carriage return |
| CsvExport.NumberTextReads | dashboard/src/utils/notificationExport.ts:83 | an id is written in decimal digits without leading zeros, behind a minus sign if negative |
| CsvExport.CsvInjectiveUpToNull | dashboard/src/utils/notificationExport.ts:81-99 | two exports are equal iff the notifications agree up to null versus empty and the failure reason, which is not exported |
| PayloadRedaction.SanitizePayload | dashboard/src/utils/payloadViewer.ts:33-72 | terminates on every finite graph, cyclic or shared, gives the path set back as it was, and answers the specified tree |
| PayloadRedaction.SanitizedIsRedactedUnrolling | dashboard/src/utils/payloadViewer.ts:42-66 | on every graph the answer is the redaction of the graph unrolled along paths and cut at repeats |
| PayloadRedaction.AcyclicIsTreeRedaction | dashboard/src/utils/payloadViewer.ts:67-71 | on an acyclic graph the answer is plain redaction of the tree the graph stands for, with no circular marker put in |
| PayloadRedaction.CleanIsFixed | dashboard/src/utils/payloadViewer.ts:53-64 | redaction leaves a tree alone iff nothing in it is under a sensitive key but the marker or 0 |
| PayloadRedaction.RedactedKeepsOpenParts | dashboard/src/utils/payloadViewer.ts:51-66 | wherever no key on the way is sensitive, redaction leaves the leaf, the length of the list or the keys of the record |
| PayloadRedaction.RedactedMasksSensitiveParts | dashboard/src/utils/payloadViewer.ts:53-64 | under the first sensitive key on a way stands 0 where a number was and "[REDACTED]" where anything else was |
| PayloadRedaction.MarkedExactlyAtRepeats | dashboard/src/utils/payloadViewer.ts:42-45 | the circular marker is put exactly where an object is met inside itself |
| PayloadRedaction.OutputCleanAndFixed | dashboard/src/utils/payloadViewer.ts:53-66 | on every graph the output keeps no other value under a sensitive key, and redacting it again, however laid out, changes nothing |
| PayloadRedaction.EveryTreeHasLayout | dashboard/src/utils/payloadViewer.ts:53-66 | every tree the redactor can answer is what some acyclic graph stands for, so can be given to it again |
| TemplateRendering.ExtractVariables | dashboard/src/utils/templateRenderer.ts:20-32 | the names the text's placeholder matches capture, each once, in order of first occurrence |
| Sequences.DistinctExactly | dashboard/src/utils/templateRenderer.ts:23-31 | collecting into a set keeps each element once, in the order of first occurrence |
| TemplateRendering.MatchesLeftmost | dashboard/src/utils/templateRenderer.ts:21-22 | in any text the names matched are the first placeholder's and then those of the text behind it |
| TemplateRendering.NoMatches | dashboard/src/utils/templateRenderer.ts:21-22 | a text with no placeholder anywhere has no matches |
| TemplateRendering.ReplaceVariables | dashboard/src/utils/templateRenderer.ts:38-47 | the text after all entries have been applied one at a time, in order |
| TemplateRendering.ReplacesLeftmost | dashboard/src/utils/templateRenderer.ts:41-44 | in any text the first match of a key's pattern is replaced and then those of the text behind it, and what stands before it stays |
| TemplateRendering.ReplacesNothing | dashboard/src/utils/templateRenderer.ts:41-44 | a text without the key's pattern stays as it is |
| TemplateRendering.PatternStandsFor | dashboard/src/utils/templateRenderer.ts:43 | a dollar pattern in a value stands for a dollar, the match, the text before it or the text after it |
| TemplateRendering.DoubledDollarsInsertAsIs | dashboard/src/utils/templateRenderer.ts:43 | any value written with its dollars doubled is inserted as it is |
| TemplateRendering.InsertedAsIsExactly | dashboard/src/utils/templateRenderer.ts:43 | a value is inserted as it is, whatever the match and the text around it, iff no dollar in it is followed by a dollar, ampersand, backtick or quote |
| TemplateRendering.ValueCarriedExactly | dashboard/src/utils/templateRenderer.ts:38-47 | a value is substituted as simultaneous substitution says, in every template and beside any such entries, iff it has no dollar pattern and no match can begin in it |
| TemplateRendering.LiteralCarriedExactly | dashboard/src/utils/templateRenderer.ts:38-47 | a literal leaves the loop the simultaneous substitution, whatever stands around it and is filled in, iff no match can begin in it |
| TemplateRendering.LoopIsSimultaneous | dashboard/src/utils/templateRenderer.ts:38-47 | on texts of literals in which no match can begin and placeholders, with values in which none can and without dollar patterns, the one-key-at-a-time loop is simultaneous substitution |
| TemplateRendering.OrderIrrelevant | dashboard/src/utils/templateRenderer.ts:41-44 | on such texts the same entries in any order render the same text |
| TemplateRendering.OrderMattersForBracedValues | dashboard/src/utils/templateRenderer.ts:41-44 | with a value that holds a placeholder the order matters |
| TemplateRendering.MatchesAreNames | dashboard/src/utils/templateRenderer.ts:21-29 | the matches found in such a text are exactly its placeholders, in order |
| TemplateRendering.UnsuppliedRemain | dashboard/src/utils/templateRenderer.ts:38-47 | the placeholders left in the rendered text are exactly those whose names were not supplied |
| TemplateRendering.MissingExactly | dashboard/src/utils/templateRenderer.ts:119-132 | the check throws iff a name it asks for has only an inherited value, such as constructor; else the missing variables are those declared, or else found in the body, in that order, that have no value or one of white space only |
| TemplateRendering.AcceptedRendersFully | dashboard/src/utils/templateRenderer.ts:119-132 | a template with variables read off its body, accepted by the check, renders without placeholders |
| ConfigMigration.ParseEnvFile | scripts/migrate-config.js:38-50 | the map built from the file's lines, later lines winning |
| ConfigReading.LineSetsExactly | scripts/migrate-config.js:41-47 | a line sets a key to a value iff it is white space, the key, white space, '=', white space, the value, white space |
| ConfigReading.LineSetsNothing | scripts/migrate-config.js:41-47 | a line that is blank, starts with '#' behind white space, has no '=' or has only white space before it sets nothing |
| ConfigReading.FileReads | scripts/migrate-config.js:38-50 | in every file a key is set iff some line sets it, and to the value of the last such line |
| ConfigMigration.SerializeEnv | scripts/migrate-config.js:105-112 | the heading, one line for each entry and a final line break |
| ConfigMigration.WrittenLines | scripts/migrate-config.js:105-112 | the lines are a comment, a blank line, each entry's key and value around '=' in the order given, and an empty last line |
| ConfigMigration.MigrateConfig | scripts/migrate-config.js:72-91 | the configuration after the rename table and then the removal table have been gone through |
| ConfigMigration.ReadableExactly | scripts/migrate-config.js:38-50 | a map is the reading of some file iff its keys and values are trimmed lines and its keys are not empty, not comments, not `__proto__` and without '=', and writing such a map and reading it gives it back |
| ConfigMigration.WrittenReadsBack | scripts/migrate-config.js:105-112 | reading what was written, in any order of the entries, gives the configuration |
| ConfigMigration.TableApart | scripts/config-schemas/v2.js:33-44 | the rename table's old names are distinct, its new names are distinct, and no name is both |
| ConfigMigration.LoopRenamesAtOnce | scripts/migrate-config.js:75-81 | for any such table the rename loop is simultaneous renaming |
| ConfigMigration.MigrationExact | scripts/migrate-config.js:72-91 | old and removed names are gone, a set old name's value is under its new name, and every other key is as it was |
| ConfigMigration.NamedKeysMigrate | scripts/config-schemas/v2.js:33-47 | for each of the ten old names, spelled out, the old name is gone and its value is under the new name it is to have; the removed name is gone |
| ConfigMigration.MigrationIdempotent | scripts/migrate-config.js:72-91 | migrating a migrated configuration changes nothing |
| ConfigMigration.ValidationExact | scripts/migrate-config.js:59-61 | the check names exactly the keys v1 requires that are not set |
| ConfigMigration.RequiredKeysSurvive | scripts/migrate-config.js:59-61 | a configuration the v1 check passes migrates to one with every key v2 requires, each with the value of its v1 key |
| ConfigMigration.NamedKeysRequired | scripts/config-schemas/v1.js:9-15 | the check passes iff the five required names, spelled out, are set, and then their values are under their v2 names |
| ConfigMigration.MigratedFileReadsBack | scripts/migrate-config.js:138-157 | the file written for a migrated file reads as the migrated configuration, and migrates to itself |
| EventStore.DedupeEventsById | dashboard/src/store/eventStore.ts:41-51 | the events put one by one into an insertion-ordered map by id |
| EventStore.Store.SetEvents | dashboard/src/store/eventStore.ts:101-105 | the store holds the fetched events deduplicated, and the time of the fetch |
| EventStore.Store.AppendEvents | dashboard/src/store/eventStore.ts:107-113 | the store holds what it held followed by the new events, deduplicated |
| EventStore.Store.UpdateEventStatus | dashboard/src/store/eventStore.ts:208-219 | as many events, each in its place with every field but the status; the status is the given one exactly where the id or the related id is the target, elsewhere what it was; distinct ids stay distinct |
| EventStore.DedupedKeeps | dashboard/src/store/eventStore.ts:41-51 | each id is kept once, in order of first occurrence, with the event that occurred last |
| EventStore.DedupedIds | dashboard/src/store/eventStore.ts:41-51 | the ids of the deduplicated events are those of the events, each once, in the order of first occurrence |
| EventStore.DedupedAreLast | dashboard/src/store/eventStore.ts:41-51 | a deduplicated event is the last of the events with its id |
| EventStore.AppendIsBatch | dashboard/src/store/eventStore.ts:107-113 | appending to deduplicated events is deduplicating all of them |
| EventStore.StreamingIsBatch | dashboard/src/store/eventStore.ts:101-113 | however events are cut into chunks, streaming them in gives the batch result |
| EventStore.HydrationCommutes | dashboard/src/services/eventsApi.ts:13-20 | hydration, which gives an event the status its name announces (or what objects inherit under that name), keeps ids and their order and commutes with deduplication |
| Events.HydrationAnnounces | dashboard/src/types/event.ts:19-27 | the three event names give active, expired and revoked, any other that objects do not inherit leaves the status, and no other field changes |
| EventStore.StatusChangeCommutes | dashboard/src/store/eventStore.ts:208-219 | setting a status keeps ids and their order, and set before deduplication it is set after it |
| StableSorting.StableIsUnique | dashboard/src/utils/eventData.ts:53-78 | for a consistent comparator two sorted lists with the same ties in the same order are the same list |
| StableSorting.SortAndFilterCommute | dashboard/src/utils/eventData.ts:98-119 | for a consistent comparator and any filter, sorting and filtering commute |
| EventSorting.ComparatorsConsistent | dashboard/src/utils/eventData.ts:55-77 | each of the four comparators is a total preorder |
| EventSorting.SortEventsIsTheStableSort | dashboard/src/utils/eventData.ts:43-79 | under each order a list is a stable sorted permutation of the events iff it is the result |
| EventSorting.OrdersMeanWhatTheySay | dashboard/src/utils/eventData.ts:35-42 | what each order puts first: newest, oldest, lowest ledger, or active then expired then revoked then the rest |
| EventSorting.FilterThenSort | dashboard/src/utils/eventData.ts:81-120 | sorting the filtered events is filtering the sorted events, and doing both again changes nothing |
| TimeBuckets.ComputeEventActivity | dashboard/src/utils/eventActivityData.ts:131-171 | each count is the number of events placed in the bucket, the total is their sum and the number of in-window events, the maximum is the largest count |
| TimeBuckets.TallyIsCount | dashboard/src/utils/eventActivityData.ts:158-165 | a bucket's count is the length of the events filtered for it |
| TimeBuckets.WindowsInMilliseconds | dashboard/src/utils/eventActivityData.ts:16-36 | which instants each of the four windows covers, how many buckets it has and where each starts, in milliseconds |
| TimeBuckets.ActivityPlacement | dashboard/src/utils/eventActivityData.ts:161-163 | an in-window event is placed in bucket i iff it is in (start, end], or on the start of the first |
| TimeBuckets.DocumentedBucketExactly | dashboard/src/utils/eventActivityData.ts:40-51 | an event is placed in its documented bucket [start, end) iff that is the first or the event is not on its start |
| TimeBuckets.BoundaryEventMisplaced | dashboard/src/utils/eventActivityData.ts:40-51 | in every range an event on the start of the second bucket is placed in the first |
| TimeBuckets.BucketDeliveriesByTime | dashboard/src/utils/webhookData.ts:164-215 | each bucket's total and successes are the numbers of deliveries in its slot, and the total is successes plus failures |
| TimeBuckets.SuccessesCounted | dashboard/src/utils/webhookData.ts:203-213 | a bucket's successes are the deliveries in it that succeeded |
| TimeBuckets.WebhookReach | dashboard/src/utils/webhookData.ts:168-172 | buckets are one hour wide for up to 24 hours and six beyond, and together reach back as far as asked and by less than one bucket further |
| TimeBuckets.WebhookPlacement | dashboard/src/utils/webhookData.ts:203-206 | the buckets together count exactly the deliveries in (now - N x width, now], each those of (end - width, end] |
| TimeBuckets.AveragedExactly | dashboard/src/utils/webhookData.ts:217-230 | a delivery is averaged in a bucket iff it is a success with a latency and the bucket is the one it is counted in, or the next when it is a whole number of widths before now; it is averaged in some bucket iff it is in [now - N x width, now) |
| TimeBuckets.EdgesCountedOrAveraged | dashboard/src/utils/webhookData.ts:201-230 | a success on the far edge of the window is averaged in the oldest bucket and counted in none, one made now is counted in the newest and averaged in none |
| TimeBuckets.P95IsNearestRank | dashboard/src/utils/webhookData.ts:142-155 | at least 95% of the latencies are at or below the percentile, which is one of them, and fewer at or below any lower value |
| TimeBuckets.AggregateHeatmap | dashboard/src/utils/heatmapData.ts:58-102 | each cell counts the chosen events of its day and hour, its intensity is the share of the largest cell, which is the maximum, and the span is the earliest and latest time |
| TimeBuckets.CellsCounted | dashboard/src/utils/heatmapData.ts:73-79 | a cell counts the times of its day and its hour |
| TimeBuckets.ChosenExactly | dashboard/src/utils/heatmapData.ts:39-51 | the chosen events are those not before the start and not after the end, where given |
| TimeBuckets.LevelExactly | dashboard/src/utils/heatmapData.ts:108-114 | a cell's level is 0 iff it is empty, 4 iff it has at least three quarters of the maximum, else the quarter its count is in; a busier cell has no lower level |
| TimeBuckets.HeatmapAddsUp | dashboard/src/utils/heatmapData.ts:66-101 | the cells add up to the number of events |
| VirtualList.WindowCoversViewport | dashboard/src/components/EventList.tsx:35-49 | for every length, scroll position and height the slice is in bounds, no longer than the rows that fit plus 16, and has every 88-pixel row that meets the viewport at the scroll position (or at the list's end, when scrolled beyond it), with the 8 before it and the 7 after it |
| VirtualList.RefinesNaiveList | dashboard/src/components/EventListNaive.tsx:10-17 | the viewport shows of the virtualised list, at the same offsets, exactly what it shows of the naive one |
| LatencyRanking.RankResults | dashboard/src/services/rpcBenchmarkService.ts:130-152 | the successful results by latency with the loop's ranks, then the failed ones unranked |
| LatencyRanking.FastestExactly | dashboard/src/services/rpcBenchmarkService.ts:131-133 | ranked are exactly the ok results with a latency, lower latencies first |
| LatencyRanking.RankExactly | dashboard/src/services/rpcBenchmarkService.ts:137-149 | the fastest are ranked 1, any other 2 plus the number of results strictly faster than the slowest of those faster than it |
| LatencyRanking.RanksFollowLatency | dashboard/src/services/rpcBenchmarkService.ts:137-149 | ranks are equal iff latencies are, and smaller iff they are |
| LatencyRanking.RankBetween | dashboard/src/services/rpcBenchmarkService.ts:137-149 | a rank is between the dense and the competition rank; it is the latter iff no two results share the next faster latency, and the former iff no two share a latency faster than that |
| LatencyRanking.NeitherDenseNorCompetition | dashboard/src/services/rpcBenchmarkService.ts:137-149 | latencies 1, 1, 2, 3 get ranks that are neither all dense nor all competition ranks |
| LatencyRanking.NoTiesOneRank | dashboard/src/services/rpcBenchmarkService.ts:137-149 | without ties dense, competition and given rank are the position |
| LatencyRanking.RankingIsPermutation | dashboard/src/services/rpcBenchmarkService.ts:131-151 | the output lists the input exactly iff every ok result has a latency |

## Left out

- Host details of the contract: encoding, storage keys and lifetimes, events, signatures, the read-only entry points.
- The dispute resolver and admin addresses: stored and never used by a call.
- A second `initialize`: it would reset two counters under existing records.
- Minting and burning by a token's issuer: `SupplyConserved` is about transfers.
- LoopIsSimultaneous: what a template renders to when a literal or value is not carried, that is when a match can begin in it, as in `OrderMattersForBracedValues`, or a value has a dollar pattern: there only the loop itself is modelled, and `ValueCarriedExactly` and `LiteralCarriedExactly` say that each such value and literal fails in some template, not in which.
- ReplaceVariables: keys that are not words, which the source would read as regular expressions.
- RefinesNaiveList: how high the naive list's rows are, which its source leaves to the browser and the model takes to be 88 pixels; resetting the scroll position when the events change.
- SanitizePayload: which keys are sensitive is a parameter, any predicate of the key; properties named `__proto__`, and accessors with effects.
- SortEventsIsTheStableSort: the sorting algorithm is the language runtime's; the model has the one result it may give.
- FilterEvents: the search, address, type, read, date and hash conditions are one arbitrary predicate.
- MigrateConfig: the alphabetical order of the entries, which depends on the locale; the written file is proved to read back in any order. The warnings on standard error.
- P95: the source multiplies by the floating-point 0.95; the model takes the exact ceiling. The average and the success rate, which are rounded quotients.
- AggregateHeatmap: the calendar, which is a parameter, and the rounding of the intensities, which are exact quotients.
- Rendering templates whose body is JSON: the same replacement at every string of the value.
- The listener's scheduler, retry queue and locks, HTTP clients, components and styling, clipboard and downloads, mock data, and the repository's tooling.
