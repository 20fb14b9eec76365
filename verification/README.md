# Verified models of small transactional backends

The repository is an archive of small services that keep redundant records consistent under
locks, retries, crashes and interruptions. This project models the hard logic of nine of them in
Dafny and proves what their records promise each other over every run.

Each service is a set of modules. A model module describes the committed tables as a value and each
locked transaction as a function on it, with the code's branches and error returns. A safety or runs
module states the invariant and proves that every operation keeps it. A theorems section draws the
promises from the invariant, and an answers, writes, decisions or outcomes module says what each
operation accepts, and what it leaves, in terms of the request alone. A service module holds the
class whose methods update the tables in place, with the code's loops, and proves each method
against its function.

| system | files |
|---|---|
| shared by all | `wrappers`, `hashing` |
| content-addressed dataset store (text17/a) | `chunk_plan`, `file_store`, `store_protocol`, `store_safety`, `store_theorems`, `store_progress`, `store_outcomes`, `dataset_service` |
| consent event store (text6/a) | `consent`, `consent_log`, `consent_runs`, `consent_writes`, `consent_service` |
| approval workflows (text8/b) | `flow_graph`, `flow_validator`, `flow_engine`, `flow_runs`, `flow_routes`, `flow_decisions`, `flow_service` |
| condition expressions (text8/a) | `expressions` |
| address leasing (text12/b) | `leasing`, `leasing_safety`, `leasing_theorems`, `leasing_answers`, `leasing_service` |
| resumable verification and evidence chain (text16/b) | `hash_pass`, `verify_jobs`, `verify_service`, `evidence_chain` |
| budget ledger (text10/a) | `ledger`, `ledger_safety`, `ledger_theorems`, `ledger_answers`, `ledger_service` |
| design review and sign-off (text15/b, text15/a) | `review`, `review_runs`, `review_approvable`, `review_answers`, `review_service`, `checklist_review`, `checklist_service` |

The dataset store is a small-step protocol: disk effects and commits are separate steps, locks are
held across them, and any process may abort or the whole server crash between any two. The other
services run each transaction as one step under its row lock; uniqueness and check constraints are
guards that abort the step, and a failed transaction leaves every table as it was.

## What the proofs found

These are places where the code does not do what its comments or callers suggest. The model keeps
the code's behaviour; each has a lemma with the exact condition or a concrete case.

- text17/a computes the chunk count in 64 bits. When total size plus chunk size minus one does not
  fit, the count is zero or negative: with 0 the dataset can be published as an empty file, and with
  a negative count it can never be published at all
  (`ChunkPlan.TilesIffNoWrap`, `StoreTheorems.PublishedContent`; a run that does it: `StoreTheorems.EmptyPublishHappens`).
- text8/b accepts a condition without a default when a branch reads `true`, but its evaluator takes
  `true` written in lower case for a variable, so such an instance may be unable to advance
  (`FlowRuns.LiteralTrueCanStrand`; exactly when advancing works: `FlowRuns.AdvanceSucceedsIff`).
- text8/b sessions do not flush before queries, so a rejection finds the rejecting task still stored
  as pending and overwrites it: no task is ever stored as rejected, and a timeout rejection ends with
  the activity rejected and its tasks closed (`FlowRuns.NoTaskStaysRejected`, `FlowRuns.RejectIs`).
- text10/a leaves the reversed entry out of the payload digest, so a reversal under a key already used
  for the same payload reports success with nothing reversed (`LedgerTheorems.ReplayCanMiss`; exact
  condition: `LedgerTheorems.ReversesTheEntryIff`).
- text15/b checks checklist codes as trimmed but stores them as typed, while submitted codes are looked
  up trimmed: a job with white space around a code can never be approved
  (`ReviewApprovable.ApprovableIff`).
- text16/b verifies a chain row's stored text only against its stored digest, and follows links and times in
  columns. The text is never compared with the row's own type, actor, time, number or predecessor, so
  changing the type or actor of any row, its time between its neighbours', or the last row's text
  together with its digest goes unnoticed (exactly: `EvidenceChain.RewriteUnnoticedIff`,
  `EvidenceChain.InnerRewriteUnnoticedIff`, `EvidenceChain.TextsAreNotLinked`).
- text16/b writes a chunk row before the progress that covers it. A process killed between the two leaves a
  job that no later run verifies, though the image is unchanged; every other stop or kill is harmless
  (`VerifyJobs.OneKillSpoils`, exactly: `VerifyJobs.VerifiedIffNeverTorn`).

## Assumptions

Hashes, HMACs, uuids and JSON encoding are parameters. Injectivity is a hypothesis of exactly the
lemmas that use it. Fresh pseudonyms (text6/a) are unused before; approvers and branches are nonempty
where the request schema says so (text8/b). Clocks, random tokens, rows locked by other transactions,
and the contents a file has at each read are inputs over which every statement is universal.

## Model

| member | source | states |
|---|---|---|
| `ChunkPlan.TilesIffNoWrap` | text17/a/internal/app/datasets.go:53-53 | for every positive declared size and chunk size the expected chunk sizes are positive, at most the chunk size and sum to the total, if and only if the rounding-up sum fits in 64 bits |
| `ChunkPlan.WrapLosesEveryChunk` | text17/a/internal/app/datasets.go:53-53 | a concrete request whose chunk count wraps to 0 |
| `ChunkPlan.PlanTotal` | text17/a/internal/app/datasets.go:153-162 | whenever a positive number of chunks is expected, their exact sizes add up to the declared total |
| `StoreSafety.NextKeeps` | text17/a/internal/app/files.go:30-104 | every single step of any upload, publish, delete, collection, abort, crash or recovery keeps the inductive invariant over rows, disk, locks and program counters |
| `StoreSafety.RunInvariant` | text17/a/internal/app/files.go:25-29 | the invariant holds at every point of every interleaving |
| `StoreTheorems.CommittedFileIsOnDisk` | text17/a/internal/app/filestore.go:19-21 | a committed file row has a file whose content hashes to its digest, and exists exactly while a committed dataset refers to it |
| `StoreTheorems.RecoveryIsExact` | text17/a/internal/app/datasets.go:310-342 | when recovery ends the content directory holds exactly the digests of the file table, and chunk files belong to existing datasets |
| `StoreTheorems.MergeNeverConflicts` | text17/a/internal/app/filestore.go:88-131 | a publish that passed its chunk-table check never meets a missing, resized or altered chunk file, and a finished merge output is the concatenation of all chunks |
| `StoreTheorems.PublishedContent` | text17/a/internal/app/datasets.go:195-263 | a published file hashes to the declared digest, and has exactly the declared size if and only if the chunk count did not wrap; otherwise the count is 0 and the file empty |
| `StoreTheorems.EmptyPublishHappens` | text17/a/internal/app/datasets.go:53-53 | a concrete run of eleven steps that ends with the largest dataset published as an empty file |
| `StoreTheorems.FirstChunkStays` | text17/a/internal/app/datasets.go:127-193 | an accepted chunk keeps its row and bytes over every later step while its dataset exists |
| `StoreTheorems.DatasetIdsNotReused` | text17/a/internal/app/datasets.go:267-308 | a dataset that disappeared never comes back |
| `StoreSafety.PublishKeeps` | text17/a/internal/app/datasets.go:201-263 | each step of publishing, from row lock to commit, keeps the invariant |
| `StoreSafety.UploadKeeps` | text17/a/internal/app/datasets.go:130-193 | each step of an upload, with the chunk file written before the row commits, keeps the invariant |
| `StoreSafety.DeleteKeeps` | text17/a/internal/app/files.go:57-78 | each step of a deletion, with the reference count read under the digest lock, keeps the invariant |
| `StoreSafety.GcKeeps` | text17/a/internal/app/files.go:85-104 | removing an unreferenced file under the digest lock keeps the invariant against concurrent publishers |
| `StoreSafety.CrashKeeps` | text17/a/internal/app/datasets.go:195-200 | a crash that drops every lock and transaction but keeps disk effects keeps the invariant |
| `StoreSafety.RecoverKeeps` | text17/a/internal/app/datasets.go:313-342 | each step of startup recovery keeps the invariant |
| `StoreProtocol.ProcStays` | text17/a/internal/app/files.go:25-29 | what one process relies on is not disturbed by steps that respect its row and digest locks |
| `StoreProgress.RunLive` | text17/a/internal/app/files.go:25-29 | in every reachable state row and digest locks are held only by live requests that need them |
| `StoreProgress.NeverWedged` | text17/a/internal/app/files.go:25-29 | in every reachable state with requests in progress some request can take its next step: they never wait for each other in a circle |
| `StoreProgress.AdvanceLowersWork` | text17/a/internal/app/datasets.go:201-308 | each step of a request lowers the work left over all requests |
| `StoreProgress.AllCanFinish` | text17/a/internal/app/datasets.go:201-308 | from any state of the invariant all requests can be brought to their end, in no more steps than the work left |
| `StoreOutcomes.UploadLands` | text17/a/internal/app/datasets.go:165-193 | an upload ends with its body on disk and exactly the row that describes it added |
| `StoreOutcomes.PublishLands` | text17/a/internal/app/datasets.go:238-263 | a publication commits with the dataset published and referring to a row of its digest whose content is on disk |
| `StoreOutcomes.PublishRefuses` | text17/a/internal/app/datasets.go:222-236 | one that ends earlier has merged bytes of another digest, and leaves the tables as they were |
| `StoreOutcomes.DeletionCommits` | text17/a/internal/app/datasets.go:267-308 | a deletion commits with the dataset and its chunk rows gone; a file row stays exactly while some dataset refers to it, and one that goes is handed to the collection |
| `StoreOutcomes.CleanupLands` | text17/a/internal/app/filestore.go:144-147 | then exactly the chunk files of the dataset go |
| `StoreOutcomes.CollectionLands` | text17/a/internal/app/files.go:85-104 | a collection ends with a file for its digest exactly if there is a row for it, and removes nothing else |
| `FileStorage.FileStore.WriteChunk` | text17/a/internal/app/filestore.go:58-83 | a private file and then a rename: the new chunk appears whole and intact or the old one stays, whatever goes wrong, and only a kill leaves a private file with a prefix of the body |
| `FileStorage.FileStore.MergeChunks` | text17/a/internal/app/filestore.go:88-131 | success means every chunk file was intact, and leaves their concatenation in the merge file with its digest returned; failure leaves no merge file |
| `FileStorage.FileStore.PromoteMerged` | text17/a/internal/app/filestore.go:136-142 | the merge file moves to its digest unless content is already there, and is gone either way |
| `FileStorage.FileStore.SweepFiles` | text17/a/internal/app/filestore.go:172-186 | exactly the files whose digest is to be kept remain |
| `FileStorage.FileStore.SweepChunkDirs` | text17/a/internal/app/filestore.go:189-207 | exactly the chunk and private files of the datasets to be kept remain |
| `FileStorage.SameRowsSameBytes` | text17/a/internal/app/filestore.go:88-131 | with a collision-free hash the same chunk rows always merge to the same bytes, whatever the upload order and repeats |
| `DatasetServices.DatasetService.Create` | text17/a/internal/app/datasets.go:40-63 | rejects non-positive sizes and stores the wrapped chunk count |
| `DatasetServices.DatasetService.UploadChunk` | text17/a/internal/app/datasets.go:130-193 | accepts exactly a right-sized chunk of an uploading dataset whose digest matches and whose file could be written; identical content again is a no-op, different content a conflict |
| `DatasetServices.DatasetService.AddFileRef` | text17/a/internal/app/files.go:30-52 | shares the row of a known digest, or promotes the merge file and inserts one |
| `DatasetServices.DatasetService.Publish` | text17/a/internal/app/datasets.go:201-263 | publishes exactly a complete dataset whose merged digest is the declared one; otherwise rows are unchanged |
| `DatasetServices.DatasetService.Delete` | text17/a/internal/app/datasets.go:267-308 | removes the dataset and, if it was the last reference, the file row and the file |
| `DatasetServices.DatasetService.Recover` | text17/a/internal/app/datasets.go:313-342 | leaves exactly the files and chunk directories that rows point to |
| `ConsentRuns.RunInvariant` | text6/a/app/services_rebuild.py:1-14 | identifier, history, projection and receipt invariants hold after every operation of every run |
| `ConsentRuns.RebuildAgrees` | text6/a/app/services_rebuild.py:115-162 | in every reachable state, replaying the log in the rebuild order gives the incrementally kept projection in every field |
| `ConsentLog.RebuildIsIdentity` | text6/a/app/services_rebuild.py:58-112 | replay by pseudonym, purpose and sequence equals the projection kept in commit order, also across erasure and re-registration |
| `ConsentLog.OneRisingArrangement` | text6/a/app/services_rebuild.py:115-162 | two orders of the same events, both rising within each key, list each key's events identically |
| `ConsentLog.IncrementIsReplay` | text6/a/app/services.py:325-500 | one incremental write does to its row what replaying the new event would do |
| `ConsentLog.WriteKeeps` | text6/a/app/services.py:325-500 | a write keeps the invariant, whether it registers, re-registers or updates a subject |
| `ConsentRuns.VerifyReadsTheLastEvent` | text6/a/app/services.py:503-551 | a row exists exactly if there is history, its version is the number of events and the last sequence, and verification is valid exactly when the last event is an unexpired grant |
| `ConsentRuns.EraseKeeps` | text6/a/app/services.py:664-755 | erasing a subject keeps the invariant |
| `ConsentRuns.EraseForgets` | text6/a/app/services.py:664-755 | erasing removes the subject and its rows, blanks its answers, and leaves history and every other row |
| `ConsentRuns.EraseVerifies` | text6/a/app/services.py:664-755 | afterwards verification knows nothing of the subject and says of everyone else what it said before |
| `ConsentRuns.NoAnswerOutlivesItsSubject` | text6/a/app/services.py:717-725 | in every reachable state a stored answer belongs to a live subject or has been erased |
| `ConsentRuns.PublishExtends` | text6/a/app/services.py:226-265 | publishing a policy version only adds rows and keeps identifiers distinct |
| `ConsentRuns.PublishDense` | text6/a/app/services.py:226-265 | the new version takes the number after the last, and no other number appears |
| `ConsentRuns.VersionsAreDense` | text6/a/app/services.py:226-265 | in every reachable state each policy has versions numbered from 1 without gaps, each with a row of its own |
| `ConsentRuns.BatchIsSequence` | text6/a/app/services.py:591-632 | an accepted batch equals its items applied one by one, and history grows by exactly the number imported |
| `ConsentRuns.RetryIsHarmless` | text6/a/app/services.py:359-380 | a key that produced an event, singly or in a batch, never produces another: a later request under it gets the stored answer or fails without effect |
| `ConsentRuns.BatchLeavesReceipts` | text6/a/app/services.py:591-632 | each item of an accepted batch leaves a receipt with its payload and its answer |
| `ConsentRuns.OneEventPerKey` | text6/a/app/services.py:359-380 | every history row belongs to exactly one event key, also across erasure |
| `ConsentRuns.RunReceipt` | text6/a/app/services.py:717-725 | a receipt is never dropped; erasure only blanks its answer |
| `ConsentWrites.WriteIff` | text6/a/app/services.py:367-420 | a request under a new key is accepted if and only if it names the length of the history as the version and grants a published version before it expires, or withdraws what was last granted; under a used key if and only if it is the same request and its subject was not erased |
| `ConsentWrites.WriteRecords` | text6/a/app/services.py:422-451 | an accepted write adds exactly one event, with the action, purpose, policy version and expiry of the request, under the pseudonym of the subject, at the time of the write and numbered next |
| `ConsentWrites.WriteVerifies` | text6/a/app/services.py:452-551 | afterwards verification is valid until the expiry asked for if consent was granted, and withdrawn if it was withdrawn, whenever one asks |
| `ConsentWrites.WriteAnswers` | text6/a/app/services.py:477-500 | the answer is what verification says at that time, with the number of the event, its action and the version row granted |
| `ConsentWrites.OthersVerify` | text6/a/app/services.py:503-551 | for every other subject or purpose verification answers as before, at any time |
| `ConsentWrites.BatchIff` | text6/a/app/services.py:591-632 | a batch is accepted if and only if it has at most 500 items, no key twice, and each item is accepted by the tables the items before it leave |
| `ConsentServices.ConsentStore.Write` | text6/a/app/services.py:325-500 | the in-place write commits exactly the specified rows, or none |
| `ConsentServices.ConsentStore.Import` | text6/a/app/services.py:591-632 | the in-place batch equals the specified one, or changes nothing |
| `ConsentServices.ConsentStore.Delete` | text6/a/app/services.py:664-755 | the in-place erasure commits exactly the specified rows |
| `ConsentServices.ConsentStore.RebuildOrganization` | text6/a/app/services_rebuild.py:115-162 | the replay loop over the ordered log leaves every table as it was |
| `ConsentServices.ConsentStore.ApplyEvents` | text6/a/app/services_rebuild.py:58-112 | the loop over events computes the replayed states |
| `FlowGraph.Reachable` | text8/b/workflow_engine/validator.py:125-137 | the worklist computes exactly the nodes reachable from the start |
| `FlowGraph.FindCycles` | text8/b/workflow_engine/validator.py:139-162 | the three-colour search reports something if and only if there is a cycle, and every report is a closed walk along edges |
| `FlowGraph.CycleFinder.Visit` | text8/b/workflow_engine/validator.py:145-159 | visiting a white node blackens it, changes no gray or black node, and keeps colours, path and reports consistent |
| `FlowGraph.AcyclicWalkLength` | text8/b/workflow_engine/validator.py:139-162 | no walk of an acyclic graph is longer than the graph has nodes |
| `FlowValidator.CheckEdges` | text8/b/workflow_engine/validator.py:63-78 | reports exactly the edges of end nodes, to missing nodes and into the start |
| `FlowValidator.CheckApproval` | text8/b/workflow_engine/validator.py:80-92 | reports exactly repeated approvers and a timeout without action or the reverse |
| `FlowValidator.CheckEscalation` | text8/b/workflow_engine/validator.py:93-103 | reports exactly empty, repeated and overlapping escalation targets |
| `FlowValidator.CheckCondition` | text8/b/workflow_engine/validator.py:105-123 | reports exactly unparsable branches and a condition with neither default nor literally true branch |
| `FlowValidator.CheckStructure` | text8/b/workflow_engine/validator.py:39-59 | reports exactly a wrong number of starts, a missing end, and repeated ids |
| `FlowValidator.CheckCycles` | text8/b/workflow_engine/validator.py:139-162 | reports closed walks among the reachable nodes, and one exactly if there is one |
| `FlowValidator.ValidateDefinition` | text8/b/workflow_engine/validator.py:38-166 | the issue list is exactly the issues that hold, by stage, and is empty if and only if the definition is well formed |
| `FlowRuns.PublishedIsSound` | text8/b/workflow_engine/validator.py:38-166 | what acceptance gives the engine: acyclic, references that exist and avoid the start, approvers and targets distinct and disjoint |
| `FlowRuns.AdvanceSucceedsIff` | text8/b/workflow_engine/engine.py:134-249 | advancing succeeds from every node but the start if and only if every condition is decided by a branch or a default |
| `FlowRuns.DefaultsDecide` | text8/b/workflow_engine/engine.py:203-249 | a default decides a condition unless evaluation raises |
| `FlowRuns.LiteralTrueCanStrand` | text8/b/workflow_engine/validator.py:105-123 | a definition the validator accepts for its literally true branch whose instance cannot start |
| `FlowRuns.AdvanceKeeps` | text8/b/workflow_engine/engine.py:134-249 | advancing terminates in an approval or end node with the instance invariant, extending trail and activities only |
| `FlowRuns.StepKeeps` | text8/b/workflow_engine/engine.py:323-493 | every decision, withdrawal and sweep keeps the instance invariant and every settled activity |
| `FlowRuns.OnePendingActivity` | text8/b/workflow_engine/engine.py:253-493 | a running instance has exactly one pending activity, at its current node with a pending task; a finished one has none and never changes |
| `FlowRuns.NoNodeTwice` | text8/b/workflow_engine/engine.py:134-249 | over a whole life no node is entered twice and there are at most as many activities as nodes |
| `FlowRuns.CompletedMeansApproved` | text8/b/workflow_engine/engine.py:417-441 | a completed ALL activity has every approver approved, or after escalation every target; an ANY activity has exactly one approval |
| `FlowRuns.NoTaskStaysRejected` | text8/b/workflow_engine/engine.py:253-305 | no stored task ever has status rejected: the rejecting task is overwritten as closed |
| `FlowRuns.OneTaskEach` | text8/b/workflow_engine/models.py:118-139 | within an activity each assignee has one task, so the unique constraint is never violated |
| `FlowRuns.EscalatedOnce` | text8/b/workflow_engine/timeouts.py:87-119 | no activity is escalated twice, and each escalation is on record |
| `FlowRuns.SettledForever` | text8/b/workflow_engine/engine.py:253-493 | a settled activity and its tasks are the same in every later state |
| `FlowRuns.HolderCanDecide` | text8/b/workflow_engine/engine.py:323-451 | where conditions decide, whoever holds a pending task can grant or deny it |
| `FlowRuns.RejectIs` | text8/b/workflow_engine/engine.py:253-305 | rejecting by hand or by timeout closes every task pending at the start of the transaction, whatever it had been set to meanwhile |
| `FlowRuns.SweepIs` | text8/b/workflow_engine/timeouts.py:45-160 | a sweep of an instance handles at most its one waiting activity |
| `FlowRoutes.StepsArePrescribed` | text8/b/workflow_engine/engine.py:134-305 | every step of an instance is the prescribed one: along the first branch that holds or the default, to next after its own stay was approved, to on_reject after it was rejected |
| `FlowEngine.ChooseIff` | text8/b/workflow_engine/engine.py:212-251 | the choice goes to a node if and only if the first branch that neither fails nor cannot be evaluated holds and leads there, breaks off if and only if that one raises, and finds nothing if and only if there is none |
| `FlowDecisions.DecisionTakes` | text8/b/workflow_engine/engine.py:323-451 | an accepted decision is about a pending task of the actor, in the activity the instance waits for; a grant approves that task and goes on when enough have, a denial closes the pending tasks and goes where a rejection leads |
| `FlowDecisions.WithdrawIff` | text8/b/workflow_engine/engine.py:453-493 | a withdrawal is accepted if and only if it is the submitter of a running instance, and withdraws exactly the pending activity and its pending tasks |
| `FlowDecisions.SweepTakes` | text8/b/workflow_engine/timeouts.py:45-160 | a sweep leaves an instance alone before its deadline, and then escalates once, approves or rejects as the node says |
| `FlowDecisions.BeginTakes` | text8/b/workflow_engine/engine.py:118-155 | an instance begins as its submitter asked, at the start node, and goes on from there |
| `FlowDecisions.AdvanceEnters` | text8/b/workflow_engine/engine.py:171-201 | entering an approval adds one activity, with a pending task per approver and a deadline if its timeout is not zero |
| `FlowRoutes.OutcomeIsPrescribed` | text8/b/workflow_engine/engine.py:157-169 | an instance is approved only at an end node that says so, rejected at one that says so or by a rejection that leads nowhere, withdrawn where it waited |
| `FlowRoutes.StepRoutes` | text8/b/workflow_engine/engine.py:323-493 | every operation keeps the route and outcome prescribed |
| `FlowServices.Flow.Advance` | text8/b/workflow_engine/engine.py:134-249 | the recursive in-place advance does what the specification says, or reports its conflict |
| `FlowServices.Flow.Decide` | text8/b/workflow_engine/engine.py:323-451 | a decision commits the specified state or rolls back |
| `FlowServices.Flow.Withdraw` | text8/b/workflow_engine/engine.py:453-493 | a withdrawal closes every pending activity and task, by loops, and nothing else |
| `FlowServices.Flow.Sweep` | text8/b/workflow_engine/timeouts.py:45-160 | the loop over due activities commits the specified state or rolls back |
| `FlowServices.Flow.CloseStoredTasks` | text8/b/workflow_engine/engine.py:266-276 | the closing loop goes by stored statuses, not by those set earlier in the transaction |
| `FlowServices.Flow.ChooseBranch` | text8/b/workflow_engine/engine.py:213-224 | the branch loop finds the first that holds, passing over evaluation errors |
| `Expressions.AcceptsIff` | text8/a/app/expressions.py:51-94 | the check accepts exactly trees of whitelisted nodes within their limits and of at most 100 visited nodes |
| `Expressions.WalkIs` | text8/a/app/expressions.py:54-92 | the walk with its running count succeeds exactly within the language and the limit, and returns the count |
| `Expressions.FailsOnlyOnTypes` | text8/a/app/expressions.py:110-140 | on an accepted tree evaluation never reaches disallowed syntax and fails only on values that do not compare |
| `Expressions.LogicIff` | text8/a/app/expressions.py:113-115 | a conjunction is true if and only if every operand is, a disjunction false if and only if every operand is; otherwise the first that differs decides, or fails, and the rest is not looked at |
| `Expressions.NotIff` | text8/a/app/expressions.py:116-117 | a negation is true if and only if its operand is false, and fails if and only if it does |
| `Expressions.ListIff` | text8/a/app/expressions.py:136-137 | a list has the values of its elements in order, and fails if and only if one of them does |
| `Expressions.ComparisonIsConjunction` | text8/a/app/expressions.py:118-131 | a chained comparison is the left-to-right short-circuit conjunction of its adjacent pairs, failing operands included |
| `LeasingSafety.StepKeeps` | text12/b/app/leasing.py:144-410 | every operation keeps the invariant over addresses, terminations, generations, devices and capacity |
| `LeasingSafety.ConnectKeeps` | text12/b/app/leasing.py:144-242 | a connection keeps it, though the new address is taken before the old one is freed |
| `LeasingTheorems.AllocatedMeansHeld` | text12/b/app/leasing.py:118-137 | an address is allocated exactly when exactly one active session holds it, and only usable unreserved ones are |
| `LeasingTheorems.PoolBalance` | text12/b/app/leasing.py:79-137 | a pool has as many allocated addresses as its access points have active sessions |
| `LeasingTheorems.ClosedOnce` | text12/b/app/leasing.py:79-106 | a closed session has exactly one termination record and an active one none |
| `LeasingTheorems.NewestOnly` | text12/b/app/leasing.py:109-115 | an active session is its device's only one, has its strictly largest generation, and its device is not revoked |
| `LeasingTheorems.WithinCapacity` | text12/b/app/leasing.py:191-204 | active sessions at an access point never exceed its capacity |
| `LeasingTheorems.ConnectMakesOne` | text12/b/app/leasing.py:144-242 | a connection that is no replay makes one session, at the lowest address it may take |
| `LeasingTheorems.ConnectEndsOne` | text12/b/app/leasing.py:210-212 | it ends the device's old session and leaves every other as it was |
| `LeasingTheorems.ConnectMovesOn` | text12/b/app/leasing.py:206-214 | the new generation is above all the device had, and the address is not the one given up |
| `LeasingTheorems.FullMeansOthers` | text12/b/app/leasing.py:191-208 | the exact conditions for refusing on capacity and on exhaustion; a lease conflict never happens |
| `LeasingTheorems.TokenIsAccepted` | text12/b/app/leasing.py:64-72 | the token returned is accepted by the session's heartbeat, whether fresh or replayed |
| `LeasingTheorems.RetryReplays` | text12/b/app/leasing.py:176-190 | a keyed connect retried while its session is current returns the same session and token and changes nothing |
| `LeasingTheorems.ClosedForever` | text12/b/app/leasing.py:249-317 | over any run a closed session is never reopened, extended or otherwise changed |
| `LeasingTheorems.OnlyTheNamed` | text12/b/app/leasing.py:249-317 | a heartbeat or close changes at most the session it names, and nothing at all for an older generation |
| `LeasingTheorems.HeartbeatProtects` | text12/b/app/leasing.py:249-286 | a heartbeat keeps its session from every sweep with a cutoff not after it |
| `LeasingTheorems.RevokeEnds` | text12/b/app/leasing.py:324-350 | a revocation ends the active session and replaces the credential at once |
| `LeasingTheorems.RevokedStaysOut` | text12/b/app/leasing.py:324-380 | until it is reinstated a revoked device stays revoked and without an active session, over any run |
| `LeasingTheorems.SweepExact` | text12/b/app/leasing.py:385-410 | a sweep closes exactly the stale sessions nobody else holds, with one record each |
| `LeasingTheorems.SweepLeavesNoneStale` | text12/b/app/leasing.py:385-410 | a sweep that meets no locks leaves no stale session |
| `LeasingAnswers.ConnectIff` | text12/b/app/leasing.py:144-242 | a connection succeeds if and only if the device is known and not revoked, the point is of its tenant, and its session was made with the same key there or there is room besides the others and an address to take |
| `LeasingAnswers.ConnectLeaves` | text12/b/app/leasing.py:196-242 | exactly the address taken is allocated and the one given up freed, and the old session has a record saying it was replaced |
| `LeasingAnswers.HeartbeatIff` | text12/b/app/leasing.py:249-282 | a heartbeat is accepted if and only if it comes for an active session from its device with its generation and token, and sets its beat to that time and nothing else |
| `LeasingAnswers.CloseIff` | text12/b/app/leasing.py:289-317 | a close is accepted if and only if it comes from the device of the session with its generation and token; an active session is then closed, its address free and its one record says so, and a closed one is left as it was |
| `LeasingAnswers.RevokeLeaves` | text12/b/app/leasing.py:324-350 | any known device can be revoked; its session ends with a record saying so, and its credential is replaced the first time |
| `LeasingAnswers.ReinstatedMayConnect` | text12/b/app/leasing.py:367-378 | a reinstated device holds a new credential and can connect wherever there is room |
| `LeasingAnswers.SweepRecords` | text12/b/app/leasing.py:385-410 | a sweep records a timeout for exactly the sessions it closes |
| `LeasingServices.LeaseStore.Release` | text12/b/app/leasing.py:79-106 | the write-once release, and whether this call performed it |
| `LeasingServices.LeaseStore.AllocateAddress` | text12/b/app/leasing.py:118-137 | the search loop reserves the lowest assignable address, if any |
| `LeasingServices.LeaseStore.Connect` | text12/b/app/leasing.py:144-242 | commits the specified tables with the right answer, or leaves them unchanged |
| `LeasingServices.LeaseStore.Heartbeat` | text12/b/app/leasing.py:249-286 | commits the specified tables, or reports the first failing check |
| `LeasingServices.LeaseStore.Close` | text12/b/app/leasing.py:289-317 | commits the specified tables, or reports the first failing check |
| `LeasingServices.LeaseStore.Revoke` | text12/b/app/leasing.py:324-350 | commits the specified tables, keeping the invariant |
| `LeasingServices.LeaseStore.Sweep` | text12/b/app/leasing.py:385-410 | the release loop commits the specified tables and counts exactly the stale sessions |
| `HashPasses.HashPass` | text16/b/internal/hashfile/hashfile.go:94-118 | success means bytes of exactly the wanted size were read in order, each at its place by one of the calls of this pass, and returns their digest |
| `HashPasses.PassOfStill` | text16/b/internal/hashfile/hashfile.go:94-118 | on a file that does not change every chunk size gives the digest of the whole file |
| `HashPasses.ComputeBaseline` | text16/b/internal/hashfile/hashfile.go:131-165 | a baseline is the digest of the bytes of two passes, and the looks between and after them found the same identity as before |
| `HashPasses.BaselineOfStill` | text16/b/internal/hashfile/hashfile.go:131-165 | an unchanged file gets its own digest for every positive chunk size, and a non-positive one is refused |
| `HashPasses.TornReadRefused` | text16/b/internal/hashfile/hashfile.go:121-165 | two passes that saw different bytes never make a baseline |
| `VerifyJobs.VerifiedMeansRead` | text16/b/internal/service/jobs.go:190-373 | for any stored state and any file, verified means the registered inode was read in order over the whole registered size, or the stored progress if that is larger, that the digest is the baseline, and that the file had the registered size when it was opened and at the last look after all reads |
| `VerifyJobs.VerifiedMeansOriginal` | text16/b/internal/service/jobs.go:331-352 | with a collision-free hash, what was read, in full and at its place, is the image the baseline was taken of |
| `VerifyJobs.RunRows` | text16/b/internal/service/jobs.go:282-329 | chunk rows tile the processed prefix wherever a run dies, give or take one row after a kill between the two writes |
| `VerifyJobs.TurnTears` | text16/b/internal/service/jobs.go:300-316 | a kill between the chunk row and the progress update leaves one row beyond the progress |
| `VerifyJobs.RunsStand` | text16/b/internal/service/jobs.go:103-108 | over an unchanged image the chunk size and the stops and kills alone say where a job stands after any runs and restarts |
| `VerifyJobs.VerifiedIffNeverTorn` | text16/b/internal/service/jobs.go:233-373 | after any stops and kills over an unchanged image the next full run verifies the job, with the whole image digest for every chunk size, if and only if no run was killed between a chunk row and its progress update, that is, if and only if the rows end where the progress does |
| `VerifyJobs.OneKillSpoils` | text16/b/internal/service/jobs.go:300-316 | the smallest failing run: one kill between the two writes of the first chunk |
| `VerifyJobs.TornNeverVerified` | text16/b/internal/service/jobs.go:300-316 | a job torn by such a kill stays torn and is never verified, in any number of runs over any file |
| `VerifyJobs.TornFails` | text16/b/internal/service/jobs.go:236-276 | such a job fails when it is run to its end |
| `VerifyJobs.ChangeIsFound` | text16/b/internal/service/jobs.go:233-352 | after any change that keeps the inode, whatever the new size, a resume verifies if and only if nothing changed |
| `VerifyJobs.PrefixChangeIsFound` | text16/b/internal/service/jobs.go:233-276 | it reports a modified prefix if and only if a processed byte changed |
| `VerifyJobs.OpeningFailsIff` | text16/b/internal/service/jobs.go:200-231 | a run reports evidence not mounted, not readable, replaced or of another size if and only if it finds it so, and then fails the job with its rows as they were |
| `VerifyJobs.ReasonIsTrue` | text16/b/internal/service/jobs.go:233-358 | every other reason a run records is true of the stored rows or of the file as some read found it |
| `VerifyJobs.OneEventPerJob` | text16/b/internal/service/jobs.go:157-187 | a job puts exactly one outcome on the chain, when it ends, however often it is run |
| `VerifyServices.JobRow.RereadPrefix` | text16/b/internal/service/jobs.go:233-276 | the loop over stored chunks accepts or refuses the prefix as specified |
| `VerifyServices.JobRow.HashTail` | text16/b/internal/service/jobs.go:282-329 | the loop over the unread tail leaves the specified rows at every way of ending |
| `VerifyServices.JobRow.Run` | text16/b/internal/service/jobs.go:190-373 | a run leaves exactly the specified job row, chunk rows and events |
| `EvidenceChain.VerifyChain` | text16/b/internal/chain/chain.go:198-293 | a report lists exactly the issues that hold, of every code, and is healthy if and only if the chain is intact, which is when there are none |
| `EvidenceChain.CheckLink` | text16/b/internal/chain/chain.go:209-245 | reports exactly the missing numbers, a bad genesis and a broken link of one row |
| `EvidenceChain.CheckContent` | text16/b/internal/chain/chain.go:247-280 | reports exactly tampering with one row and a time before the previous |
| `EvidenceChain.AppendedIsIntact` | text16/b/internal/chain/chain.go:110-178 | every chain made by appending, under any clocks and with any failed appends between, is intact |
| `EvidenceChain.CaseChain.AppendEvent` | text16/b/internal/chain/chain.go:110-178 | adds one event with the input type, actor and payload, linked to the last, at its time or the last event time if later; or nothing |
| `EvidenceChain.AppendIff` | text16/b/internal/chain/chain.go:110-195 | an event is appended if and only if its type is known and its payload can be encoded; it is the input itself, numbered next, linked to the last digest, not earlier than the last event, under the digest of the text of all this |
| `EvidenceChain.AppendBuilds` | text16/b/internal/chain/chain.go:137-172 | each append extends a chain of well-made rows to another |
| `EvidenceChain.DeletionIsFound` | text16/b/internal/chain/chain.go:198-293 | deleting rows of an intact chain goes unnoticed if and only if a prefix is left |
| `EvidenceChain.HeadDeterminesChain` | text16/b/internal/chain/chain.go:80-87 | two appended chains with equal head digests are equal, given a collision-free hash and a canonical encoding |
| `EvidenceChain.RewriteIsFound` | text16/b/internal/chain/chain.go:247-272 | rewriting only the text of a row of an intact chain is reported |
| `EvidenceChain.RewriteUnnoticedIff` | text16/b/internal/chain/chain.go:198-293 | rewriting a row of an intact chain goes unnoticed if and only if number and predecessor stay, the text goes with its digest, the next row still names that digest, and times stay in order |
| `EvidenceChain.InnerRewriteUnnoticedIff` | text16/b/internal/chain/chain.go:247-280 | for a row that is not the last this means, without collisions, that only type, actor and a time within its neighbours changed |
| `EvidenceChain.TextsAreNotLinked` | text16/b/internal/chain/chain.go:239-272 | links are read from columns: any stable texts can take the place of an intact chain's if digests and predecessors are worked out again, and the head digest stays if the last text does |
| `LedgerSafety.StepKeeps` | text10/a/app/services/journals.py:70-282 | every posting, reversal, budget, encumbrance and period operation keeps the invariant |
| `LedgerTheorems.BudgetsAgree` | text10/a/app/models.py:142-172 | each budget has encumbered equal to its open encumbrances, actual equal to the net debit of matching lines since it was made, and nothing overspent |
| `LedgerTheorems.LiquidationKeepsAvailable` | text10/a/app/services/journals.py:105-118 | paying an encumbrance moves its amount from reserved to actual and leaves what is available |
| `LedgerTheorems.RunExtends` | text10/a/app/services/budgets.py:61-81 | entries never change, and an encumbrance once released stays as it is |
| `LedgerTheorems.TrialBalance` | text10/a/app/services/journals.py:166-172 | over any run total debits equal total credits |
| `LedgerTheorems.ReversalNetsZero` | text10/a/app/services/journals.py:228-282 | an entry and its reversal cancel on every fund, department and account, and there is at most one |
| `LedgerTheorems.PostThenReverse` | text10/a/app/services/journals.py:134-282 | an entry just posted can be reversed in a period of the same year, and every actual amount is back |
| `LedgerTheorems.ReverseIff` | text10/a/app/services/journals.py:228-282 | in every state a reversal under a new key succeeds if and only if the entry exists and is not yet reversed, the period is open, and every budget can give back what the entry put on it without going negative or being overspent; it then takes exactly that back |
| `LedgerTheorems.ReversesTheEntryIff` | text10/a/app/services/journals.py:240-269 | a successful reversal reverses the entry asked for if and only if its key was new or belongs to a reversal of that entry |
| `LedgerTheorems.ReplayCanMiss` | text10/a/app/services/journals.py:255-269 | a reversal whose payload was posted by hand under its key reports success with nothing reversed |
| `LedgerTheorems.PostRetry` | text10/a/app/services/journals.py:143-159 | a retry after any later operations returns the entry it made and changes nothing; another payload under the key is refused |
| `LedgerTheorems.ClosedPeriodIsFrozen` | text10/a/app/services/periods.py:16-41 | between its close and a reopen no operation adds an entry to a period |
| `LedgerTheorems.AuditTellsClosed` | text10/a/app/services/periods.py:16-41 | a period is closed exactly when its last audit row says so |
| `LedgerAnswers.DeltaIsNet` | text10/a/app/services/journals.py:82-95 | a budget of an expense account counts the net debit on its own fund, department and account, and any other budget nothing |
| `LedgerAnswers.PostIff` | text10/a/app/services/journals.py:70-225 | an entry with a new key is posted if and only if it is balanced, in an open period, on known dimensions, pays an open encumbrance in full if it names one and finds room in every budget; exactly that entry is added, each budget takes its lines, and the encumbrance is liquidated by it |
| `LedgerAnswers.ApproveIff` | text10/a/app/services/budgets.py:11-58 | a reservation is approved if and only if its amount is positive and available in its budget |
| `LedgerAnswers.ApproveReserves` | text10/a/app/services/budgets.py:11-58 | it adds one open encumbrance of the amount asked for and lowers what that budget alone has available by just that |
| `LedgerAnswers.CancelIff` | text10/a/app/services/budgets.py:61-81 | a cancellation is accepted if and only if the encumbrance is open, and gives its amount back to its budget |
| `LedgerAnswers.CreateBudgetIff` | text10/a/app/routers/budgets.py:42-57 | a budget is made if and only if there is none for its year and dimensions, with nothing spent or reserved |
| `LedgerAnswers.FlipIff` | text10/a/app/services/periods.py:16-41 | a period closes if and only if it is open and opens if and only if it is closed |
| `LedgerServices.LedgerStore.CollectDeltas` | text10/a/app/services/journals.py:82-105 | the loop over lines adds up exactly the net effect on each budget |
| `LedgerServices.LedgerStore.ApplyBudgetEffects` | text10/a/app/services/journals.py:70-131 | applies the specified amounts, or reports the first failing check |
| `LedgerServices.LedgerStore.PostEntry` | text10/a/app/services/journals.py:134-225 | posts once per key and commits the specified tables, or leaves them unchanged |
| `LedgerServices.LedgerStore.ReverseEntry` | text10/a/app/services/journals.py:228-282 | reverses as specified, or leaves the tables unchanged |
| `LedgerServices.LedgerStore.ApproveEncumbrance` | text10/a/app/services/budgets.py:11-58 | reserves what is available, or refuses |
| `LedgerServices.LedgerStore.CancelEncumbrance` | text10/a/app/services/budgets.py:61-81 | releases an open encumbrance once |
| `LedgerServices.LedgerStore.ClosePeriod` | text10/a/app/services/periods.py:16-27 | closes an open period, with its audit row |
| `LedgerServices.LedgerStore.ReopenPeriod` | text10/a/app/services/periods.py:30-41 | reopens a closed period, with its audit row |
| `ReviewRuns.StepKeeps` | text15/b/internal/service/uploads.go:35-139 | every upload, submission and sign-off keeps the invariant over rounds, files, opinions and sign-offs |
| `ReviewRuns.OneOpenRound` | text15/b/internal/service/uploads.go:75-128 | at most one round is open and it is the current version's |
| `ReviewRuns.SignOffIff` | text15/b/internal/service/reviews.go:171-290 | sign-off succeeds exactly for the manager of a job whose current round every reviewer completed without a failure |
| `ReviewRuns.ApprovedMeansAccepted` | text15/b/internal/service/reviews.go:222-290 | after approval, in every later state, every reviewer has a non-fail verdict on every item and there is exactly one sign-off |
| `ReviewRuns.ApprovedForever` | text15/b/internal/service/reviews.go:244-246 | an approved job never changes again |
| `ReviewRuns.BasisAddsUp` | text15/b/internal/service/reviews.go:333-365 | in the basis each reviewer's passes and not-applicables come to the number of items |
| `ReviewRuns.SupersededForever` | text15/b/internal/service/uploads.go:75-90 | rounds of superseded versions, opinions included, never change again |
| `ReviewRuns.EditOnce` | text15/b/internal/service/reviews.go:104-150 | an edit based on a row version is accepted once: no later request by that reviewer on the same code and version is accepted, whatever happens in between |
| `ReviewRuns.RecordRow` | text15/b/internal/service/reviews.go:108-150 | an edit is accepted exactly on the latest row version, which it raises by one |
| `ReviewRuns.RecordIsAnswer` | text15/b/internal/service/reviews.go:104-150 | an accepted edit is exactly what its reviewer has answered, and no other answer changes |
| `ReviewApprovable.ApprovableIff` | text15/b/internal/service/service.go:127-190 | a job created with codes that fit their column can ever be approved if and only if no checklist code has white space around it |
| `ReviewAnswers.CreateIff` | text15/b/internal/service/service.go:96-199 | a job is created if and only if its parties are different and have their roles, and its codes are neither blank, nor too long, nor equal when trimmed |
| `ReviewAnswers.UploadIff` | text15/b/internal/service/uploads.go:35-139 | a revision is accepted if and only if it is from the designer of the job before approval; it is the next version with an unanswered round on the whole checklist, and earlier opinions stay |
| `ReviewAnswers.SubmitIff` | text15/b/internal/service/reviews.go:19-113 | a submission is accepted if and only if it is from a designated reviewer for the version under review and each item is proper, on a code of the checklist, and names the row version its opinion has after the items before it |
| `ReviewAnswers.SubmitSays` | text15/b/internal/service/reviews.go:105-162 | after it the reviewer has answered each item with the verdict and trimmed reason of the last one sent for it, and every other answer of anyone is as it was |
| `ReviewAnswers.FailureBlocks` | text15/b/internal/service/reviews.go:226-331 | once a reviewer has failed an item no sign-off is accepted until that reviewer submits again or a new version is uploaded |
| `ReviewAnswers.BasisCounts` | text15/b/internal/service/reviews.go:333-365 | the one sign-off names the manager and the current version, and counts the items each reviewer passed and found not applicable |
| `ReviewServices.JobStore.UploadRevision` | text15/b/internal/service/uploads.go:35-139 | supersedes, by loops, and inserts the new version and round, or changes nothing |
| `ReviewServices.JobStore.SubmitOpinions` | text15/b/internal/service/reviews.go:19-157 | upserts all opinions of a request or none |
| `ReviewServices.JobStore.ParseItems` | text15/b/internal/service/reviews.go:35-59 | the validation loop strips and checks every item, stopping at the first bad one |
| `ReviewServices.JobStore.Outstanding` | text15/b/internal/service/reviews.go:205-217 | lists exactly the codes a reviewer has not answered and those answered with a failure; both lists are empty exactly when all is accepted |
| `ReviewServices.JobStore.BuildBasis` | text15/b/internal/service/reviews.go:333-365 | the counting loops give the specified tallies |
| `ReviewServices.JobStore.ApproveJob` | text15/b/internal/service/reviews.go:226-290 | signs off as specified, or changes nothing |
| `ChecklistReview.CountTestIff` | text15/a/internal/service/service.go:560-571 | with one state row per reviewer the count reaches the number of reviewers exactly when each has completed |
| `ChecklistReview.StepKeeps` | text15/a/internal/service/service.go:227-315 | every revision has exactly one state row per designated reviewer after every operation |
| `ChecklistReview.ApproveIff` | text15/a/internal/service/service.go:529-600 | approval succeeds exactly when every reviewer completed the current revision and no item is pending or failed |
| `ChecklistReview.ApprovedForever` | text15/a/internal/service/service.go:46-57 | what approval required stays true in every later state, with one approval of that revision's digest |
| `ChecklistReview.SubmitIff` | text15/a/internal/service/service.go:227-315 | a revision is accepted if and only if it is from the designer before approval, and starts with every item pending and nobody completed |
| `ChecklistReview.UpdateIff` | text15/a/internal/service/service.go:375-436 | an item is updated if and only if the manager or a reviewer sends a decided status, with a reason if it failed, for the revision under review and its latest version; it then has that status and the next version, and nothing else differs |
| `ChecklistReview.CompleteIff` | text15/a/internal/service/service.go:499-527 | a completion is accepted if and only if it is from a reviewer for the revision under review, and adds just that reviewer |
| `ChecklistServices.ChecklistStore.SubmitRevision` | text15/a/internal/service/service.go:227-315 | creates the snapshot and state rows by loops, or changes nothing |
| `ChecklistServices.ChecklistStore.UpdateItem` | text15/a/internal/service/service.go:375-432 | changes one item under its expected version, or nothing |
| `ChecklistServices.ChecklistStore.CompleteReview` | text15/a/internal/service/service.go:499-520 | marks the reviewer's row of the current revision |
| `ChecklistServices.ChecklistStore.CountRows` | text15/a/internal/service/service.go:560-585 | the two counts compared by approval |
| `ChecklistServices.ChecklistStore.Approve` | text15/a/internal/service/service.go:529-600 | approves as specified, or changes nothing |

## Left out

- HTTP routing, authentication, request schemas, migrations, seeds, demos and report rendering: no deep property.
- SQL isolation levels, deadlock and retry loops: each locked transaction is one atomic step, except in the dataset store.
- Ownership checks and audit rows, apart from the audit rows a property needs: they guard reading and record who acted.
- fsync and directory permissions: in the protocol a file write or rename is one step; a chunk write that fails or is killed part of the way is modelled in FileStorage.FileStore.WriteChunk.
- Integer widths outside the chunk count: sums of cents, sizes and generations are mathematical integers.
- text17/a experiments and model versions that also refer to datasets: deletion is refused while they exist, which only shrinks the runs.
- text8/a engine and definition checks, and text12/a leasing: the same designs as text8/b and text12/b in simpler form.
- text8/a parsing of expression text, and Python's comparison operators: evaluation starts from a tree and takes comparison as a function that may fail; deep recursion limits are not modelled.
- text8/b evaluator internals: a branch's verdict in the instance's context is an input, which may also be an exception the engine does not catch.
- text8/b comments, reasons and decision times; task rows are kept inside their activity, in the order of their ids.
- text8/b run of one sweep over many instances: each instance is its own transaction, and the sweep of one is modelled.
- text16/b job queue, database failures and the hook that lets tests alter a file while it is read: a run may be stopped or killed at every chunk instead, and the file may change at every read.
- text16/b starting a job: only one active job per evidence is checked, without a lock.
- text15/b collation and padding of checklist codes: a code wider than its column is refused, although MySQL cuts excess trailing spaces off and stores the rest; codes compare exactly, although the collation ignores case.
- text15/b storage of revision files and startup cleanup: the storage package is not part of this model.
- text15/a comments, and the file saved with a revision: they take no part in approval.
- text10/b, CSV import, and text2, text4, text5: repeats or services with no core of their own here.
- FlowRuns.HolderCanDecide: does not model an expression whose evaluation raises an uncaught exception, since the hypothesis that conditions decide rules it out.
- LeasingTheorems.SweepLeavesNoneStale: does not model rows locked by others during the sweep, which it skips by design.
