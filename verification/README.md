# Verified models of skynex

skynex runs coding workflows, delivers their results to git, installs itself into other
tools' configuration directories and evaluates itself in paid A/B campaigns. Most of its
promises are about what is still true after a crash, a retry or a race. This project models
those protocols in Dafny and proves the promises for all inputs, all interleavings and all
sequences of restarts.

| module | models |
|---|---|
| `Delivery` | the delivery gate: intent log, commit object, compare-and-swap of the ref; concurrent callers, crashes, other pushers |
| `ExecutionGraph` | validation of the slice graph (Kahn's loop) and the choice of the next slice |
| `Patches` | allowed paths, validation and application of a worker's patch |
| `Mutation`, `Execution` | the write-ahead mutation protocol and the process that drives it, dying before any effect |
| `Naming`, `Holdout` | names built from numbers, holdout references, redaction and its inverse |
| `Checkpoint`, `Resume`, `Campaign` | the A/B campaign: prefix of the plan, checkpoint, strict reload, block rollback, restarts |
| `Population` | drawing up a balanced plan and the gate on the finished population |
| `OwnedFiles` | reservation, hard-link publication, exchange and quarantine with others acting between any two system calls |
| `Snapshot` | capture and rollback of installer targets after an arbitrary change |
| `Inventory` | reconciliation of an owned tree by a digest manifest |
| `Semver`, `MarkedBlock`, `Canary`, `Approval`, `ArtifactStore` | version precedence, marked blocks, the canary, approval tables, the artifact store |
| `Text`, `Joining` | string order, splitting, NUL-joined keys |

Conventions. A digest is modelled by the content it is taken of, so it is injective. Code that
changes state is a class or a method with the loops of the source; what it computes is tied to
a specification function or to a step of a protocol, and the promises are lemmas about those.
Whether freezing leaves a file out is an arbitrary function of all files, since the ignore rules
lie in the worktree themselves. Ghost fields (`log`, `written`, `lost`, `history`, `source`)
record the past for the specifications only; the log of `OwnedFiles` holds every call with its
answer, looks and failures included, so that a contract can say which calls an operation made. A nondeterministic choice (`if *`, `:= *`) stands for everything a method
cannot know: a crash, an I/O error, an edit by somebody else. Runners and workers are arbitrary
functions. A ghost flag (`calm`, `quiet`, `failed`, `edited`, `unread`) says whether anything of that kind
has happened, so a contract can say both what holds in every case and that an operation which
nothing disturbs succeeds exactly when it should.

## Findings

Where the code falls short of what its comments, documentation or tests suggest, the model
keeps the code, a member shows an input, and the exact condition is proved for all inputs.

| what fails | input | exactly when |
|---|---|---|
| a patch that succeeded can be applied again after a crash | `Patches.FileBecomesDirectory` | `Patches.RetriableExactly` |
| the frozen tree decides whether a patch can be written | `Patches.EmptyDirectoryBlocks`, `Patches.HiddenFileBlocks` | `Patches.FrozenTreeDecides` |
| the tree frozen after a patch is what the patch does to the tree before | `Patches.HiddenWriteIsUnseen` | `Patches.FrozenResult` |
| the row of a mutation names the tree that was written | `Mutation.StaleRecord` | `Mutation.StaleExactly` |
| a delivery that reports an error has moved nothing | `Delivery.LostReplyMoves` | `Delivery.FailedCallMoved` |
| a key moves its ref at most once | `Delivery.ResetDeliversTwice` | `Delivery.RetryDecides`, `Delivery.KeyMovesAgain` |
| the memory store keeps workflows apart | `Delivery.CollisionShadows` | `Delivery.MemoryKeysCollide` |
| an approval covers only what was approved | `Approval.NulReachesIssue` | `Approval.ExactlyHarmless` |
| a recorded campaign can be resumed | `Resume.CollisionIsRecorded` | `Resume.LoadExactly` |
| installing again changes nothing | `Inventory.BackslashKeyDiverges` | `Inventory.InstallConverges` |
| the next install repairs one that stopped | `Inventory.StoppedUpdateSticks` | `Inventory.StoppedInstall` |
| merging a block again changes nothing | `MarkedBlock.StrayBeginLoses` | `MarkedBlock.IdempotentExactly` |
| a rollback without an error has restored everything | `Snapshot.SilentButIncomplete` | `Snapshot.SnapshotState.Rollback` |
| a file that was put back without an error is there | `Snapshot.BackslashGoesAstray` | `Snapshot.InPlaceExactly` |
| a tree that nobody touched can be rolled back | `Snapshot.ReadOnlyStays` | `Snapshot.UntouchedIsRecoverable`, `Snapshot.RollBackUntouched` |
| versions are compared as section 11 of Semantic Versioning 2.0.0 says | `Semver.OversizedIsMisread` | `Semver.ComparisonIsPrecedence` |
| an upgrade never installs a lower version | `Semver.BuildAllowsDowngrade` | `Semver.ReleasesWithBuild` |
| an artifact is due once its time has passed | `ArtifactStore.FullSecondSortsLast` | `ArtifactStore.TextOrder` |
| storing with authority protects a content | a content stored before without it | `ArtifactStore.Store.Put` |

The only caller of `approval.Issue` in the repository, `cmd/skynex/workflow_run.go:714`, takes its
fields from command line arguments, which cannot hold a NUL; the function itself accepts one.

## Model

| member | source | states |
|---|---|---|
| `Delivery.PutSpec` | `internal/delivery/sqlite.go:27-44` | The first intent written under a key stays: every stored intent is kept as it was, success means that exactly this intent is stored under its key, and a refusal changes nothing. |
| `Delivery.MemoryIntentStore.Get` | `internal/delivery/delivery.go:64-69` | A lookup answers with what was put first under any pair with the same joined key, the answer that `MemoryKeepsLog` and `CollisionShadows` speak of. |
| `Delivery.MemoryIntentStore.Put` | `internal/delivery/delivery.go:70-82` | The first intent under a joined key stays and another one is refused, the effect that `MemoryKeepsLog` and `CollisionShadows` speak of. |
| `Delivery.MemoryKeysCollide` | `internal/delivery/delivery.go:63-82` | Two different (workflow, key) pairs meet in one joined key if and only if one workflow id continues with a NUL where the key of the other one does. |
| `Delivery.CollisionShadows` | `internal/delivery/delivery.go:63-82` | What a caller then sees: after the first intent the store answers with it under the second key too and refuses the second intent, exactly when the joined keys meet. |
| `Delivery.MemoryKeepsLog` | `internal/delivery/delivery.go:63-82` | For workflow ids without NUL the joined-key map answers and refuses as the log of pairs does, put after put. |
| `Delivery.SqliteIntentStore.Get` | `internal/delivery/sqlite.go:12-26` | Finds exactly the stored intent, or reports a miss when the row cannot be read. |
| `Delivery.SqliteIntentStore.Put` | `internal/delivery/sqlite.go:27-44` | The new rows, the result and the error are those of a write that may fail, insert-or-ignore, and a re-read that may miss. |
| `Delivery.StepKeeps` | `internal/delivery/delivery.go:93-175` | Every single effect keeps the invariant tying intents, refs, moves and finished calls together: of any caller, a ref update that git refuses, makes, makes without the reply arriving, or makes as the caller dies, and any push, deletion or reset of any ref by others. |
| `Delivery.RunKeeps` | `internal/delivery/delivery.go:93-175` | The invariant holds after every interleaving of any number of callers with any pushes and lost replies. |
| `Delivery.RunLater` | `internal/delivery/delivery.go:93-175` | Time only adds: stored intents, moves of refs and outcomes of finished calls never change again. |
| `Delivery.KeyNamesOneCommit` | `internal/delivery/delivery.go:93-175` | Whatever happens between two successful calls under one (workflow, key), resets of the ref included, both return the same commit, tree, ref and receipt. |
| `Delivery.GateMovesToChild` | `internal/delivery/delivery.go:128-150` | Every move by the gate goes from the sealed base to a child of it that carries the tree of the receipt held by the caller and is the commit of the stored intent. |
| `Delivery.BaseIsLeftAgain` | `internal/delivery/delivery.go:128-150` | The gate leaves a base it has left before only after somebody else took the ref back and it stands at that base again. |
| `Delivery.OneDeliveryPerBase` | `internal/delivery/delivery.go:93-175` | Successful calls with equal or different keys sealed on the same base of the same ref return the same commit, unless somebody else took that ref back. |
| `Delivery.KeyMovesAgain` | `internal/delivery/delivery.go:153-175` | Counted from the first recorded move under a key, acknowledged or not, the gate moves the ref again under that key only after somebody else put it back at the sealed base. |
| `Delivery.RetryDecides` | `internal/delivery/delivery.go:153-175` | An admissible retry with the candidate, receipt, message, author and email of the stored intent moves the ref if and only if the ref stands at the sealed base, and reports the stored commit if and only if it stands there or at that commit; elsewhere it changes nothing. |
| `Delivery.ResetDeliversTwice` | `internal/delivery/delivery.go:168-174` | For every admissible request: deliver, let somebody reset the ref to the sealed base, retry, and the gate has moved the ref twice under one key. |
| `Delivery.MovedBySwap` | `internal/delivery/delivery.go:194-201` | A call has moved a ref if and only if it made the swap while the ref stood at its base, with whatever reply. |
| `Delivery.LostReplyMoves` | `internal/delivery/delivery.go:194-201` | Wherever a call can swap, git can be killed after the rename: the ref is at the new commit and the caller is told of a conflict. |
| `Delivery.FailedCallMoved` | `internal/delivery/delivery.go:194-201` | A call that reported an error has moved a ref if and only if it made the swap and lost the reply. |
| `Delivery.Gate.Commit` | `internal/delivery/delivery.go:93-151` | One call of the gate, with everybody else acting between any two of its effects, is one caller of the protocol from its first check to its outcome or its death: it takes protocol steps only, each with the answer the outside world gave. A success reports the intent that the store holds under its key: a commit with the tree of the candidate, the sealed base as parent and the message, author and email of the request, on the sealed ref, for an admissible request; a fresh one passed drift check, hook and swap, a recovered one was found and confirmed. What is not admissible is refused. |
| `Delivery.Gate.Interfere` | `internal/delivery/delivery.go:93-175` | Between two effects of a call any sequence of effects of others happens, and the call stands where it stood. |
| `Delivery.Gate.Refuse` | `internal/delivery/delivery.go:94-116` | The checks before the intent log is consulted refuse exactly what is not admissible, with the error of the protocol step that admits a request, the one `AdmissionDecides` gives. |
| `Delivery.AdmissionDecides` | `internal/delivery/delivery.go:94-116` | Condition by condition, in the order of the code: a request is refused as incomplete, for its authority, for versions that do not fit or for a drifted seal exactly if the first condition that fails is of that kind, and admitted exactly if none fails. |
| `Delivery.Gate.Deliver` | `internal/delivery/delivery.go:120-150` | Drift check, commit object, intent, hook and ref update happen as protocol steps in that order and the outcome is the outcome of the caller; success means that each of them went through. |
| `Delivery.Gate.Recover` | `internal/delivery/delivery.go:153-175` | A retry with a stored intent ends as the protocol caller that reads the ref ends: same commit, conflict, or reuse error, the latter exactly if candidate, receipt, tree, message, author or email differ. |
| `Delivery.Gate.Swap` | `internal/delivery/delivery.go:194-201` | The ref moves to the commit of the intent exactly if it stood at the sealed base and git got that far; the caller learns of it exactly if the reply arrives. |
| `ExecutionGraph.CheckSlices` | `internal/orchestration/orchestration.go:190-203` | Accepts exactly a non-empty list of distinct, prefixed, titled slices with acceptance criteria. |
| `ExecutionGraph.BuildEdges` | `internal/orchestration/orchestration.go:204-214` | Accepts exactly known, non-self dependencies; the edges count every dependency as often as it is listed and the in-degrees are the numbers of dependencies. |
| `ExecutionGraph.Drain` | `internal/orchestration/orchestration.go:215-236` | The queue loop takes off all slices exactly if some topological order exists. |
| `ExecutionGraph.Validate` | `internal/orchestration/orchestration.go:190-237` | A graph is accepted if and only if its fields are sound and it is acyclic. |
| `ExecutionGraph.NextReady` | `internal/execution/execution.go:37-74` | Returns the ready slice with the smallest id when nothing is active, and nothing only when a slice is active or none is ready. |
| `ExecutionGraph.NeverStuck` | `internal/execution/execution.go:37-74` | On an acyclic graph with nothing active and something pending, some slice is ready. |
| `ExecutionGraph.GreedyIsFirst` | `internal/execution/execution.go:52-72` | Picking the smallest ready slice each time gives a topological order that comes before every other one in dictionary order. |
| `Patches.NormalizedMode` | `internal/execution/execution.go:276-287` | Special file types are refused; otherwise the mode is 0700 or 0600, the former exactly for an executable bit. |
| `Patches.CleaningRules` | `internal/execution/execution.go:226-235` | The rules of lexical cleaning: empty parts and single dots say nothing, a name and two dots after it cancel out anywhere in a path, two dots say nothing at the root. |
| `Patches.CleanStays` | `internal/execution/execution.go:226-235` | Leading double dots followed by plain names are clean already. |
| `Patches.CleanOfParts` | `internal/execution/execution.go:226-235` | A path text is cleaned part by part between its slashes and is rooted exactly if it begins with one. |
| `Patches.ValidatePatch` | `internal/execution/execution.go:226-249` | Accepts exactly patches whose every operation cleans to an allowed relative path with no symbolic link on the way or at the end. |
| `Patches.LandsBelowTheRoot` | `internal/execution/execution.go:226-252` | Joined to the repository root, an allowed operation lands at its own place below that root. |
| `Patches.OnlyAllowedPathsChange` | `internal/execution/execution.go:226-274` | However far a validated patch gets, any path that differs from before is an allowed one. |
| `Patches.NeverThroughALink` | `internal/execution/execution.go:226-274` | At no step of a validated patch is there a symbolic link on the way to, or at, a path it writes. |
| `Patches.LastOperationDecides` | `internal/execution/execution.go:250-274` | After a patch each path holds what the last operation on it says, or what it held before. |
| `Patches.SuccessIsResult` | `internal/execution/execution.go:250-274` | A patch that succeeds on a worktree with directories and ignored files leaves exactly the files that its operations spell out. |
| `Patches.FrozenResult` | `internal/gitcandidate/candidate.go:110-174` | Freezing the worktree after a patch gives what the patch does to the tree frozen before it, if and only if the patch leaves no file that freezing leaves out then and changes nothing about what is left out elsewhere. |
| `Patches.TracedBySteadyRules` | `internal/gitcandidate/candidate.go:110-174` | Where the patch leaves the ignore rules as they are, that means that it leaves no ignored file. |
| `Patches.HiddenWriteIsUnseen` | `internal/gitcandidate/candidate.go:141-162` | A patch that writes an ignored file freezes to the tree before it. |
| `Patches.ResultOfRetry` | `internal/execution/execution.go:250-274` | A patch over any applied part of itself spells out the same files as the patch alone. |
| `Patches.RetriableExactly` | `internal/execution/execution.go:250-274` | For every file system and every patch that succeeds on it: it succeeds again after every applied part of itself, with the same files, if and only if no write of the list makes a file above an earlier operation, a directory where an earlier one writes, or something inside a directory that an earlier one removes. |
| `Patches.FlatIsRetriable` | `internal/execution/execution.go:250-274` | In particular no list whose paths do not lie inside each other has such a write. |
| `Patches.FileBecomesDirectory` | `internal/execution/execution.go:250-274` | A patch that deletes a file and writes below its name succeeds once and not again. |
| `Patches.EmptyDirectoryBlocks` | `internal/execution/execution.go:250-274` | On two file systems with the same files one patch succeeds and fails: an empty directory left by an earlier patch stands where it writes. |
| `Patches.HiddenFileBlocks` | `internal/execution/execution.go:259-268` | On two worktrees that freeze to the same tree, with the same directories, one patch succeeds and fails: an ignored file lies where it needs a directory. |
| `Patches.BlockedExactly` | `internal/execution/execution.go:250-274` | Of two worktrees, one with more files and directories, that one takes a patch if and only if the other one does and nothing that only it has is still in the way of an operation. |
| `Patches.FrozenTreeDecides` | `internal/execution/execution.go:250-274` | A worktree takes a patch if and only if its frozen tree alone would and neither an ignored file nor a directory that no frozen file needs is in the way. |
| `Mutation.ActivateKeeps` | `internal/workflow/sqlite.go:798-835` | Activating the smallest ready slice on the frozen tree keeps the invariant of rows, log and worktree. |
| `Mutation.IntendKeeps` | `internal/execution/execution.go:177-180` | Recording the intent keeps the invariant, and the broker then stands before the first operation of its patch. |
| `Mutation.WriteKeeps` | `internal/execution/execution.go:250-274` | Each single file operation keeps the invariant: the worktree, ignored files too, is the one that was found plus a prefix of the patch that was sent. |
| `Mutation.TearKeeps` | `internal/execution/execution.go:268-272` | A process that dies inside a write and leaves any content and mode in the file keeps the invariant. |
| `Mutation.HalfWrittenIsRefused` | `internal/execution/execution.go:99-121` | Whatever a process that died in its writes left behind, the next one refuses it unless it freezes to the tree the slice started from, from which it sends the slice again. |
| `Mutation.RecordKeeps` | `internal/execution/execution.go:189-195` | Recording the post tree keeps the invariant and leaves the whole patch written. |
| `Mutation.RetireKeeps` | `internal/execution/execution.go:201-219` | Committing the mutation keeps the invariant and appends one true entry to the log. |
| `Mutation.AdoptKeeps` | `internal/workflow/sqlite.go:890-936` | Adopting a mutation whose recorded post tree is the worktree keeps the invariant. |
| `Mutation.ReconcileKeeps` | `internal/workflow/sqlite.go:984-1027` | Reconciliation keeps the invariant, and afterwards whatever is active has a live attempt. |
| `Mutation.ConflictKeeps` | `internal/execution/execution.go:303-311` | Failing closed in conflict keeps the invariant. |
| `Mutation.EditKeeps` | `internal/execution/execution.go:164-172` | Any edit of the worktree by others between critical sections keeps the invariant. |
| `Mutation.FinishedOrder` | `cmd/skynex/workflow_run.go:451-563` | In every state with the invariant that is in verification, each slice was mutated exactly once, in an order that comes before every other topological order. |
| `Mutation.SettledTree` | `cmd/skynex/workflow_run.go:451-563` | Unedited and between mutations, the log is a chain of frozen trees from the first one to that of the worktree: each slice starts from the post tree of the one before, its two trees are those frozen around its writes, and the rows say so. A post tree is what the patch does to the pre tree if and only if the patch is traced by freezing; if all are, the tree of the worktree is the fold of the patches. |
| `Mutation.StaleExactly` | `internal/execution/execution.go:154-220` | After any crashes, edits and restarts, the row of a committed mutation names another post tree than the one frozen after its writes if and only if the slice was sent again after its post tree was on record and the two sendings leave different frozen trees. |
| `Mutation.StaleRecord` | `internal/execution/execution.go:193-195` | For some pair of patches: dispatch, a revert by others after the record, and a second dispatch leave the row with the post tree of the first patch while the worktree holds the second. |
| `Execution.Workflow.Apply` | `internal/execution/execution.go:154-220` | Stale exactly unless the answer is fenced and names a live attempt whose basis, its own basis and the frozen worktree are one tree; forbidden exactly if the patch then is not valid for the paths allowed to that slice, none if it has no list; a failed write only for a patch that the file system refuses, and otherwise death, between directories or inside a write too; success means that the whole patch lies on what was there, logged once with the trees frozen around it; a refusal changes nothing. |
| `Execution.Workflow.ResumeAttempt` | `internal/execution/execution.go:99-121` | Adopts exactly at the recorded post tree, which completes slice, attempt and operation and appends one log entry, sends again exactly without a row or at the pre tree, changing nothing, and otherwise only moves the workflow to conflict. |
| `Execution.Workflow.Reconcile` | `internal/workflow/sqlite.go:984-1027` | Completes exactly the active slices with a retired attempt and a completed operation, and then advances a finished workflow. |
| `Execution.ReconcileSays` | `internal/workflow/sqlite.go:984-1027` | Slice by slice: reconciliation completes exactly the active ones whose attempt is retired. |
| `Execution.ReconcileMoves` | `internal/workflow/sqlite.go:984-1027` | It changes nothing but these states and the phase, which goes on to verification exactly from executing with everything completed. |
| `Execution.Workflow.Activate` | `internal/workflow/sqlite.go:798-888` | The slice becomes active with a live attempt, a ready workflow starts executing, and the invariant holds. |
| `Execution.Workflow.OneSlice` | `cmd/skynex/workflow_run.go:451-563` | A turn of the loop completes exactly one more slice and leaves nothing live, or stops with a reason; with nothing ready the workflow is in verification. |
| `Execution.Workflow.RunPass` | `cmd/skynex/workflow_run.go:410-571` | One process never stops half way in executing. It refuses the graph exactly if the graph is not valid and the phase exactly in conflict; unedited and with a worker that answers soundly it reaches verification unless it dies or finds an inherited attempt whose tree is unknown. |
| `Execution.Workflow.Restarts` | `cmd/skynex/workflow_run.go:440-571` | Any number of processes, each dying before any effect or not, with edits in between: a workflow in verification has mutated every slice once in the first topological order; unedited, each slice started from the post tree of the one before, the worktree freezes to the last one, and if freezing traces every patch that tree is their fold. An unedited, accepted workflow whose last process does not die and has a worker that answers soundly is in verification or in conflict. |
| `Execution.NothingReadyMeansDone` | `cmd/skynex/workflow_run.go:451-470` | With no live attempt and no ready slice, every slice is completed. |
| `Naming.BlockKeyInjective` | `cmd/skynex-eval/offline.go:1076-1086` | The text of a block key names its case and repetition, whatever dashes and digits the case id holds. |
| `Naming.PaddedShape` | `internal/eval/stats/experiment.go:82` | A repetition is written in four digits, or in as many as it needs. |
| `Naming.RunReferenceInjective` | `cmd/skynex-eval/ab.go:955-957` | The text digested into a redacted run id names reference, variant and repetition. |
| `Holdout.BuildReferences` | `cmd/skynex-eval/ab.go:1006-1017` | Builds the numbering of the sorted case ids. |
| `Holdout.ReferencesOneToOne` | `cmd/skynex-eval/ab.go:1006-1017` | Every holdout case has its own reference, the same for every order in which the cases are loaded. |
| `Holdout.ReferencesInOrder` | `cmd/skynex-eval/ab.go:1006-1017` | The references are numbered from one in the order of the case ids. |
| `Holdout.RedactionIsStable` | `cmd/skynex-eval/ab.go:943-992` | A published sample has the variant, repetition, status and measurements of its own, and a check that passed exactly if the sample did; two samples that report the same at the same coordinate are published alike; the result is a fixpoint; loading it and publishing it again changes nothing. |
| `Holdout.HoldoutRunIds` | `cmd/skynex-eval/ab.go:955-957` | Redacted samples share a run id only if they have the same coordinate. |
| `Holdout.RedactPlan` | `cmd/skynex-eval/ab.go:1019-1034` | Exactly the holdout blocks are renamed, in place and in order. |
| `Holdout.RedactionDetermines` | `cmd/skynex-eval/ab.go:1019-1034` | Equal published blocks come from equal blocks unless a case is named like a reference. |
| `Checkpoint.RecordKeeps` | `cmd/skynex-eval/ab_resume.go:591-616` | Recording an accepted sample for the next planned coordinate extends the completed prefix of the flattened plan by one, with each arm in plan order and nothing twice. |
| `Checkpoint.CompletedUpTo` | `cmd/skynex-eval/ab_resume.go:662-669` | A planned coordinate is in the completed set exactly if the prefix has passed it. |
| `Checkpoint.CompletePopulation` | `cmd/skynex-eval/ab_resume.go:671-681` | As many completed coordinates as planned and every planned one among them, if and only if the completed set is the planned set. |
| `Resume.InvertReferences` | `cmd/skynex-eval/ab.go:351-358` | Succeeds exactly if no case is named like a reference, and then inverts the renaming. |
| `Resume.ValidateArm` | `cmd/skynex-eval/ab_resume.go:510-547` | Accepts or refuses an arm as the sample-by-sample specification does, with the same restored samples, coordinates and run ids. |
| `Resume.AcceptExactly` | `cmd/skynex-eval/ab_resume.go:510-547` | An arm of any artifact at all is accepted if and only if every sample is valid, of that arm, planned, and stamped if public or a fixpoint of redaction if not, and no run id or coordinate comes twice or is known already. |
| `Resume.AcceptedHolds` | `cmd/skynex-eval/ab_resume.go:510-547` | What is loaded then: the samples in order under the names of their own cases, with exactly their coordinates and run ids added. |
| `Resume.AcceptPublished` | `cmd/skynex-eval/ab_resume.go:510-547` | A published arm of a sound memory is accepted exactly if its public samples are stamped and its run ids are new, and then the accepted samples are the restored ones. |
| `Resume.LoadExactly` | `cmd/skynex-eval/ab_resume.go:441-547` | A saved checkpoint loads if and only if public samples are stamped, no case is named like a reference and no public run id is one that redaction gives a holdout sample; the loaded memory is the saved one, redacted. |
| `Resume.RestoredKeeps` | `cmd/skynex-eval/ab.go:463-503` | Memory after loading stands at the same prefix of the plan and reports the same status and measurements at every coordinate, and saving it again writes the same artifact. |
| `Resume.CollisionIsRecorded` | `cmd/skynex-eval/ab_resume.go:591-616` | Three accepted samples whose checkpoint never loads again: the run id of a public sample is the one redaction gives an earlier holdout sample. |
| `Campaign.MarkDeferred` | `cmd/skynex-eval/ab_resume.go:628-638` | Exactly the passes become infrastructure errors; everything else about the samples stays. |
| `Campaign.ABCampaign.ValidateNew` | `cmd/skynex-eval/ab_resume.go:591-616` | Accepts exactly at most one sample (one, if required) that is valid as published, at the expected coordinate, and new in coordinate and run id. |
| `Campaign.ABCampaign.Take` | `cmd/skynex-eval/ab.go:617-641` | What is kept of an answer is its one sample, as a pass only if the runner did not fail, at the expected coordinate; otherwise memory stays as it was. A sound answer of a runner that did not fail is kept if nothing goes wrong. |
| `Campaign.ABCampaign.Save` | `cmd/skynex-eval/ab.go:463-505` | The file becomes the redacted memory as a whole, each sample with the variant, repetition, status and measurements of the one it stands for and public ones unchanged, or stays what it was and something has gone wrong. |
| `Campaign.ABCampaign.RunSample` | `cmd/skynex-eval/ab.go:552-676` | Whatever runner, closure checks and disk do, at most the next planned sample is added, and it reports what the runner answered, a pass of a failing runner as an infrastructure error; the campaign goes on only with that sample in the file and stops exactly where the answer says so; with a sound runner and nothing going wrong it does go on. |
| `Campaign.ABCampaign.RollBack` | `cmd/skynex-eval/ab.go:531-548` | Memory is exactly the memory at the start of the block again and the file is its redaction, or the save failed. |
| `Campaign.ABCampaign.RunBlock` | `cmd/skynex-eval/ab.go:550-690` | A block ends complete or with a reason; after drift memory and file are where the block began; neither falls behind what the process began with. |
| `Campaign.ABCampaign.PopulationComplete` | `cmd/skynex-eval/ab_resume.go:671-681` | Complete exactly if the completed set is the set of planned coordinates. |
| `Campaign.ABCampaign.Reload` | `cmd/skynex-eval/ab_resume.go:189-224` | Loads exactly the resumable checkpoints, at the place of the plan where they were saved and with the status and measurements they were saved with. |
| `Campaign.ABCampaign.Process` | `cmd/skynex-eval/ab.go:351-707` | One process ends with the whole plan or with a file holding at least the prefix it began with, in step with memory unless it was killed or could not save; all it reports was in the file before or was answered by its runner; it refuses a file exactly if it is not resumable, never reports a hole in a population it ran to the end, and finishes if nothing goes wrong around it and its runner answers soundly. |
| `Campaign.ABCampaign.Restarts` | `cmd/skynex-eval/ab.go:351-707` | Over any number of crashed, failing, drifting or interrupted processes, a finished campaign has in each arm the planned coordinates of that arm in plan order, once each, and reports at each the status and measurements that the first file held or one of the runners answered there; a last process without disturbance finishes it unless its file is not resumable. |
| `Population.IndexRuns` | `cmd/skynex-eval/offline.go:1076-1086` | Indexing by key text succeeds exactly if no two runs share case and repetition, and the index holds every run under its key. |
| `Population.PopulationGate` | `cmd/skynex-eval/offline.go:920-980` | Passes if and only if both arms cover exactly cases times 1 to runs, once each, with the right variant and the committed number of cases. |
| `Population.DrawOrders` | `internal/eval/stats/experiment.go:63-71` | Half of the repetitions, rounded either way for odd counts, run the control first, whatever the shuffle does. |
| `Population.DrawPlan` | `internal/eval/stats/experiment.go:40-90` | Succeeds exactly for distinct non-empty case ids and 2 to 100 repetitions, and then the plan goes case by case in the order of the list and repetition by repetition, once each, under its key, balanced. |
| `Population.FinishedPassesTheGate` | `cmd/skynex-eval/offline.go:920-980` | A campaign that finished a full grid passes the population gate, in memory and, unless a case is named like a reference, as published. |
| `OwnedFiles.FileSystem.Interfere` | `cmd/skynex-eval/ab_resume.go:393-396` | Anybody does anything to public names and contents; private names stay and a public file loses its last public name only by becoming discarded. |
| `OwnedFiles.FileSystem.RemoveOwned` | `cmd/skynex-eval/ab_resume.go:397-434` | The calls are, in order: look at the path, move it aside, look at what was moved, and then remove it if it is the expected file or else link it back and drop the private name; each step is taken exactly if the one before allows it. At every intermediate point no undiscarded foreign file is without a name, and staged files of others stay. Undisturbed it succeeds exactly if the expected file is at the path, and otherwise leaves the directory as it was. |
| `OwnedFiles.FileSystem.ReplaceOwned` | `cmd/skynex-eval/ab_resume.go:309-337` | The calls are, in order: look at the staged file, exchange, look at both names, and then remove the displaced file exactly if it was seen to be the expected one, unchanged, and the staged one was seen unchanged at the path, or else swap back; what it reports is the file seen there. No undiscarded foreign file ever loses its last name. Undisturbed it succeeds exactly if the expected file is unchanged at the path and the staged one is regular, and otherwise leaves the directory as it was. |
| `OwnedFiles.FileSystem.RemoveStageIfOwned` | `cmd/skynex-eval/ab_resume.go:298-304` | Only the staged name is affected and no undiscarded foreign file loses its last name; undisturbed the name goes exactly if the file is unchanged. |
| `OwnedFiles.Reservations.Reserve` | `cmd/skynex-eval/ab.go:1161-1235` | A claimed path was created or, where allowed, looked at and opened as one and the same regular file and pinned as preexisting; other claims stay; undisturbed exactly such paths can be claimed. |
| `OwnedFiles.Reservations.ReserveAll` | `cmd/skynex-eval/ab.go:1161-1206` | All result paths are claimed or, undisturbed, none of them leaves a trace: it succeeds exactly for distinct claimable paths, and a refusal takes every placeholder back. |
| `OwnedFiles.Reservations.PublishStaged` | `cmd/skynex-eval/ab.go:1293-1329` | The calls are, in order: look at the staged file, guarded removal of the placeholder, link, look at both names, drop the staged name if both looks saw the staged file unchanged; the claim records exactly how far that got. Undisturbed it succeeds exactly for an unused claim with its placeholder in place and a regular staged file. |
| `OwnedFiles.Reservations.PublishOrReuse` | `cmd/skynex-eval/ab.go:1237-1287` | For a preexisting result nothing but the staged name of ours is ever removed, and only after two looks that saw the result unchanged; undisturbed it is reused exactly if it is unchanged. |
| `OwnedFiles.Reservations.RemovePublished` | `cmd/skynex-eval/ab.go:1360-1374` | Success is one guarded removal of the inode this process had published, never of a preexisting result; undisturbed it succeeds exactly if that file is at the path. |
| `OwnedFiles.Reservations.RollBack` | `cmd/skynex-eval/ab.go:1376-1394` | Rolling back any list of paths keeps every foreign file named and every claim; success leaves none of them published; undisturbed exactly the published files that are still at their paths go, however many others are not, and it succeeds exactly if all are. |
| `OwnedFiles.Reservations.Close` | `cmd/skynex-eval/ab.go:1396-1422` | Closing keeps every foreign file named, whatever lies at the reserved paths by then; undisturbed exactly the unused placeholders that are still in place go. |
| `OwnedFiles.ResumeSession.Open` | `cmd/skynex-eval/ab_resume.go:189-248` | Success created the lock and looked at the partial before and after loading it, seeing the same regular file, which it adopts; undisturbed it succeeds exactly if the lock is free and the partial a regular file, and a refusal gives the lock back. |
| `OwnedFiles.ResumeSession.Save` | `cmd/skynex-eval/ab_resume.go:270-296` | Success saw the last partial at the path twice and then replaced it in one guarded replacement during this call, remembering the file that was seen at the path; failure keeps the remembered partial; undisturbed it succeeds exactly if the last partial is unchanged at the path, and nothing else in the directory differs afterwards. |
| `OwnedFiles.ResumeSession.RemoveAfterSuccess` | `cmd/skynex-eval/ab_resume.go:339-351` | Success saw the remembered partial at the path twice and then removed it in one guarded removal; undisturbed it succeeds exactly if that file is at the path. |
| `Snapshot.LiveTree.RemoveCreatedDir` | `internal/installer/snapshot.go:787-816` | Below a captured root everything directly inside that was not captured, dependency directory aside, goes with its subtree; captured children, captured directories with all that is in them and the dependency directory stay, and so does everything outside. It succeeds, without failing system calls, if and only if whatever has to be listed can be read and whatever holds something that has to go is writable. Inner levels are emptied although their lookup names are doubled. |
| `Snapshot.SnapshotState.Capture` | `internal/installer/snapshot.go:378-491` | Succeeds without failing system calls if and only if every root can be looked up and whatever is to be captured can be opened; then the entries are exactly the nodes of the roots outside the code cache, once each, and the missing roots. |
| `Snapshot.ScopeSays` | `internal/installer/snapshot.go:493-496` | What lies at or below a root is in scope if and only if the root is not that of opencode or the path does not lead into its code cache. |
| `Snapshot.SnapshotState.RemoveRooted` | `internal/installer/snapshot.go:751-772` | Success leaves no root that did not exist and nothing new directly in a captured root directory; nothing outside the root and nothing captured goes. Without failing system calls it fails exactly for a root that cannot be looked up, a new one that is not empty or cannot be removed, one that is another file now, and one with new things that cannot be taken away. |
| `Snapshot.SnapshotState.ValidateRetained` | `internal/installer/snapshot.go:727-748` | Passes exactly if every root can be looked up and is the same inode and type, or still missing. |
| `Snapshot.LiveTree.MkdirAll` | `internal/installer/snapshot.go:835-838` | Through a rooted handle: on a way without links it makes exactly the missing directories of that way and ends there, which takes every directory on it to be readable and searchable and the last one there to be writable; where links lead to a directory inside the root it makes nothing and ends where they lead; nothing that was there changes. |
| `Snapshot.LiveTree.RestoreFile` | `internal/installer/snapshot.go:859-889` | On a way without links and without backslashes: success writes content and mode over nothing, a readable file with one name, a link or a special file; without failing system calls it succeeds wherever the way is open, the directory is writable and a fitting file or nothing is there. With backslashes the file goes where slashes in their place lead. |
| `Snapshot.InPlaceExactly` | `internal/safefs/root.go:405-444` | A file that was put back over a plain way lies in its place if and only if no name on the way holds a backslash, or it lay there before. |
| `Snapshot.BackslashGoesAstray` | `internal/safefs/root.go:405-444` | Putting back a missing file whose name holds a backslash reports success and writes another file in a new directory. |
| `Snapshot.SnapshotState.RestoreEntry` | `internal/installer/snapshot.go:818-889` | Links or not, nothing goes away, directories stay directories and nothing outside the root changes. With no link in a captured directory's place and no backslash: success puts the captured content, kind and mode back, changing only the way from the root to the entry, onto what fits or a link or special file in a file's place; where the way is open and there is room it succeeds for whatever fits. Where links lead to something accessible of the captured kind it succeeds too. |
| `Snapshot.SnapshotState.RestoreAll` | `internal/installer/snapshot.go:670-706` | From the top down: with no link in a captured directory's place and no backslash in a file's name, success means that everything captured is back; without failing system calls every entry that fits its place, and whose captured ancestors fit theirs, is back, however many others cannot be put back, and it succeeds if every root is the file on record and every entry fits its place with room to be written, and otherwise only where a link or special file lay in a file's place. Roots that are not the files on record leave the tree alone. |
| `Snapshot.SnapshotState.Rollback` | `internal/installer/snapshot.go:655-706` | After anything at all happened to the trees nothing outside the roots changes. For file names without backslash, a rollback that reports no error has put everything back and left nothing new if and only if no link lay in the place of a captured directory; it can do so, with no link or special file in a file's place, only on a recoverable tree, and without failing system calls it does on every recoverable tree. Where only some of it can be put back, without failing system calls, whatever can is, and every root that can be cleaned is. Permission bits decide what is recoverable. It reports no error wherever all captured names lead through links to something accessible of their kind. |
| `Snapshot.ApplyFailing` | `internal/installer/snapshot.go:115-156` | Capture, an arbitrary change and rollback together: capture fails exactly on what cannot be opened, and then nothing changes; otherwise the promises of rollback relative to the tree before the change, in terms of that tree and the changed one. |
| `Snapshot.SilentButIncomplete` | `internal/installer/snapshot.go:818-889` | A captured directory with a file gives way to a link to its neighbour: rollback reports no error and has not put back what was captured. |
| `Snapshot.LinkHidesFolder` | `internal/installer/snapshot.go:835-851` | For that input every captured name leads to something of its kind although a captured directory is a link. |
| `Snapshot.SameWalk` | `internal/installer/snapshot.go:864-884` | Among directories that are open to their owner, rewriting files with one name and setting open permission bits does not change where any path leads through links. |
| `Snapshot.UntouchedIsRecoverable` | `internal/installer/snapshot.go:818-889` | A captured tree that nobody touched is recoverable if and only if no link, no file with a second name and no file in a read-only directory was captured. |
| `Snapshot.RollBackUntouched` | `internal/installer/snapshot.go:655-706` | The run for it: capturing and rolling back an untouched tree, for file names without backslash, reports no error only in that case, and does so in that case without failing system calls. |
| `Snapshot.ReadOnlyStays` | `internal/installer/snapshot.go:864-884` | A read-only directory with a file in it is captured, and rolling it back untouched always reports an error. |
| `Snapshot.RestoringKeepsClean` | `internal/installer/snapshot.go:670-706` | Putting an entry back never makes anything new under a root. |
| `Snapshot.CapturedIsClosed` | `internal/installer/snapshot.go:774-785` | Whatever was captured below a child of a root was captured with that child as a directory. |
| `Inventory.InstallTarget.Install` | `internal/adapters/inventory.go:153-281` | Over any history of installs, aborts and edits, whatever was overwritten or removed outside the configuration file had been written there by the installer; an aborted install keeps the manifest and has walked some first files or taken some retired ones away, a finished one has the specified manifest and, unless a retired file could not be read, tree; unless a write or removal fails it finishes exactly if no destination is blocked or special. |
| `Inventory.InstallTarget.InstallFile` | `internal/adapters/inventory.go:192-252` | A file is written, preserved or refused exactly as specified, and what it overwrites was written there before. |
| `Inventory.InstallTarget.Retire` | `internal/adapters/inventory.go:253-275` | The tree is the one without exactly the unchanged retired files, for every order of the old manifest, but for those that could not be read; it fails only where a removal does. |
| `Inventory.InstallTarget.UserEdits` | `internal/adapters/inventory.go:134-143` | Edits of any file, and a manifest restored to entries it once had, keep the promise. |
| `Inventory.InstallTarget.RefreshConfig` | `internal/adapters/inventory.go:28-45` | Only the entry of the configuration file changes, to the digest of what is there. |
| `Inventory.WalkPointwise` | `internal/adapters/inventory.go:166-252` | What a walk leaves at a path depends only on that path: its source, its old content and its old digest. |
| `Inventory.InstallDecides` | `internal/adapters/inventory.go:204-247` | At each shipped path: a missing file, `opencode.json`, and a file with the digest on record get the shipped content and its digest; every other file stays, in tree and manifest. |
| `Inventory.InstallGoes` | `internal/adapters/inventory.go:192-221` | For sources without two names for one path the walk goes through if and only if every name is accepted, no link or device lies at its place, and nothing there before or shipped earlier is inside it or the other way round, step by step. |
| `Inventory.AliasDecides` | `internal/adapters/inventory.go:253-272` | Read off manifest, tree and sources before the install: a retired key takes away a file the install leaves if and only if it cleans to a shipped path without being it and its digest is that of what the install leaves there. |
| `Inventory.InstallConverges` | `internal/adapters/inventory.go:166-280` | Installing the same source twice equals installing once if and only if no key of the manifest, before the install, cleans to a shipped path without being it and with the digest of what the install leaves there; in particular whenever every key is clean. |
| `Inventory.BackslashKeyDiverges` | `internal/adapters/inventory.go:253-272` | A manifest key spelled with a backslash for which the second install differs from the first. |
| `Inventory.StoppedInstall` | `internal/adapters/inventory.go:166-280` | An install that stopped after any number of files, or while retiring, and is started again ends with the files of one that did not stop, and with its manifest too if and only if whatever was written before the stop is the configuration or had its digest on record already. |
| `Inventory.StoppedUpdateSticks` | `internal/adapters/inventory.go:222-243` | An update that stops between writing a file and writing the manifest: the next install takes the new file for modified. |
| `Inventory.CleanIsStable` | `internal/safefs/root.go:23-35` | A path that was cleaned is clean. |
| `Inventory.RelativeIsClean` | `internal/safefs/root.go:23-34` | A name is accepted if and only if, with slashes for backslashes, lexical cleaning leaves it as it is and it is not rooted; the result is the name with just these characters replaced. |
| `Semver.ValidSemver` | `cmd/skynex/upgrade.go:403-447` | Accepts exactly three 64-bit numbers without leading zeros, with well-formed pre-release and build sections or bare separators. |
| `Semver.AcceptedExactly` | `cmd/skynex/upgrade.go:403-447` | The accepted texts are exactly the written ones: three 64-bit numbers in decimal joined by dots, well-formed identifiers or a bare dash, well-formed build identifiers or a bare plus. |
| `Semver.CompareSemver` | `cmd/skynex/upgrade.go:449-518` | Fails exactly for invalid operands and otherwise is the order of the versions as they are read; for two written versions without build metadata it is the order of their numbers and identifiers. |
| `Semver.WrittenIsRead` | `cmd/skynex/upgrade.go:449-464` | A version written from three numbers and identifiers is read as these numbers, in this order, and these identifiers. |
| `Semver.BuildIsRead` | `cmd/skynex/upgrade.go:449-464` | What is read of a version with build metadata: with a pre-release the metadata lengthens its last identifier; without one the third number counts as 0, and a dash in the metadata starts a pre-release. |
| `Semver.NumbersAreShortlex` | `cmd/skynex/upgrade.go:415-432` | Without leading zeros numeric identifiers are ordered by length and then text, and equal numbers are equal text. |
| `Semver.ParseInjective` | `cmd/skynex/upgrade.go:449-464` | Only equal texts parse to the same version. |
| `Semver.ComparisonIsTotalOrder` | `cmd/skynex/upgrade.go:449-518` | Antisymmetric, zero only for equal text, transitive. |
| `Semver.ComparisonIsPrecedence` | `cmd/skynex/upgrade.go:449-518` | For versions written from numbers and identifiers, which are all accepted texts without build metadata: the comparison is the precedence of section 11 of Semantic Versioning 2.0.0 if and only if the identifiers that decide it are not misread for exceeding 64 bits; in particular when all numbers fit. |
| `Semver.OversizedIsMisread` | `cmd/skynex/upgrade.go:487-508` | Two written versions for which comparison and section 11 disagree: the pre-release of one is a number beyond 64 bits, that of the other a word. |
| `Semver.ReleasesWithBuild` | `cmd/skynex/upgrade.go:449-486` | Releases with or without build metadata compare as section 11 has it, which ignores the metadata, if and only if the first two numbers decide or the third ones compare the same with 0 for each that has metadata. |
| `Semver.BuildAllowsDowngrade` | `cmd/skynex/upgrade.go:64-71` | The release 0.0.2 with build metadata compares below 0.0.1, so that the lower one is installed over it. |
| `Semver.SelfUpgrade` | `cmd/skynex/upgrade.go:41-71` | Installs the tagged version exactly if both versions are valid and it compares higher; for written versions and the tag of one, exactly if its numbers and identifiers are of higher order. |
| `Semver.ChainIncreases` | `cmd/skynex/upgrade.go:54-71` | Any later version in a chain of upgrades is strictly higher than any earlier one. |
| `MarkedBlock.AppendMarkedBlock` | `internal/adapters/claude.go:380-419` | The written text is the specified merge of file and block. |
| `MarkedBlock.MergeKeepsOutside` | `internal/adapters/claude.go:400-417` | The result has exactly one well-formed pair with the block between, and outside it the old text up to blank space at the boundary. |
| `MarkedBlock.LaterMergeReplacesBlock` | `internal/adapters/claude.go:400-417` | A merge over a merge is the merge of the second block alone; with the same block, merging is idempotent. |
| `MarkedBlock.IdempotentExactly` | `internal/adapters/claude.go:380-419` | For every file whatever: merging the same block again changes nothing if and only if the file had no marker or its first begin line stood before its first end line. |
| `MarkedBlock.StrayBeginLoses` | `internal/adapters/claude.go:400-417` | A begin line without an end line: the second merge drops all text from that line on. |
| `MarkedBlock.MarkerLines` | `internal/adapters/claude.go:386-388` | The begin and end lines of a one-line marker without angle brackets lie neither in the other and cannot run into each other. |
| `Canary.Execute` | `cmd/skynex-eval/canary_executor.go:62-146` | Whatever runner, clock and authority checks do: the samples are the answers of the runner for a prefix of the plan, only the last may not pass, a pass is attested, claimed cleanup means all are attested, and no error means the plan was finished or stopped by a sample. Unless something else fails, the end is exactly determined: with the last sample if it did not pass or its time was over, with the plan, or at the next coordinate for an unknown case, an unsound answer or a failing runner, which takes the claim of a complete cleanup with it and whose time, if over, is what is reported. The validator then refuses the result only for its run ids or what its samples are bound to. |
| `Canary.Validate` | `cmd/skynex-eval/canary.go:865-924` | Accepts exactly results in plan order that stop at the first sample not passing, with distinct run ids, bound provenance, checked and attested passes, honest cleanup and ordered times. |
| `Canary.RuntimeCompatible` | `cmd/skynex-eval/canary.go:1107-1152` | Compatible exactly if the last control and candidate of every case that has both are named and equal in everything but an authorization neither has, and then the number of such cases. |
| `Canary.LastOfIs` | `cmd/skynex-eval/canary.go:1112-1125` | The sample that counts for a case and side is the last one of that case and side. |
| `Canary.TokensTogether` | `cmd/skynex-eval/canary.go:1016-1020` | Tokens count for the side of their own sample and add up over the samples. |
| `Canary.Evaluate` | `cmd/skynex-eval/canary.go:993-1105` | Promotes if and only if the whole plan passed without error, pairs agree, cleanup and telemetry are complete and candidate tokens are at most 1.15 times control tokens over the reals; rejects if and only if time ran out, a sample failed, or only that ratio is exceeded. A validated promotion compared both runs of every planned case in one runtime. |
| `Approval.RowsAnswerHistory` | `internal/approval/approval.go:67-78` | The rows allow exactly what the history authorizes: the last event of the scope is an issue of that digest and the first issue of that digest has not expired. |
| `Approval.ExactlyHarmless` | `internal/approval/approval.go:24-78` | What the tables authorize for four non-empty fields is what was granted to exactly these fields, in every history, if and only if NULs stand at most first in the workflow, last in the policy, or as the whole of action or basis. |
| `Approval.NulReachesIssue` | `internal/approval/approval.go:24-65` | Nothing in issuing stops a NUL: one grant is issued into the tables and a request for another basis and policy is authorized by it. |
| `Approval.ApprovalTables.Issue` | `internal/approval/approval.go:29-65` | Succeeds exactly for complete artifacts with a positive lifetime, adds one event, returns the first artifact of the digest, and the tables still answer the history. |
| `Approval.ApprovalTables.Require` | `internal/approval/approval.go:67-78` | Succeeds exactly if the history authorizes scope, digest and time, and then returns the first artifact of the digest. |
| `Approval.ApprovalTables.Revoke` | `internal/approval/approval.go:80-97` | Succeeds exactly with a current approval, removes that one, adds one event and records who revoked it and why. |
| `Approval.ApprovalTables.RevokeAll` | `internal/approval/approval.go:99-117` | Removes the current approvals of the workflow and no other, with one event and one recorded revocation for each. |
| `ArtifactStore.Store.Put` | `internal/artifact/store.go:53-106` | Limit and quota errors exactly when they apply, at 16 and 256 MiB; success inserts the row unless the content has one, kept for 30 days if it is a log or trace and for 90 otherwise, so authority asked for protects the content if and only if it was not there unprotected before; every row has its object with its digest and size and every quota holds afterwards, crashes included, as long as no sum query failed. |
| `ArtifactStore.Store.PutLog` | `internal/artifact/store.go:108-130` | Success stored pieces that join to the log, all but the last of full length and none empty but for an empty log. |
| `ArtifactStore.Store.AddRef` | `internal/artifact/store.go:131-134` | Adds exactly the reference, for existing artifacts only; it protects the artifact exactly if it is that of a receipt. |
| `ArtifactStore.Store.Prune` | `internal/artifact/store.go:169-215` | Deletes only artifacts that are due by the text of their times, with their references and, undisturbed, their objects, all of them on success, and without revocation none that is authoritative or referenced by a receipt; undisturbed it stops as protected exactly if such an artifact is due; revocation takes exactly the authority resting on what was due, as long as no statement whose error is ignored has failed. |
| `ArtifactStore.OwnersAre` | `internal/artifact/store.go:193-198` | That authority is the one of the workflows whose receipts refer to one of the artifacts. |
| `ArtifactStore.UsedAfterInsert` | `internal/artifact/store.go:60-66` | The quota sum grows by exactly the size of a new non-authoritative row of that workflow. |
| `ArtifactStore.TextOrder` | `internal/artifact/store.go:99-105` | Moments written with their trailing zeros cut off are ordered as text as they are in time, if and only if they are not in one second with the fraction of one continuing that of the other; then the order is reversed. |
| `ArtifactStore.FullSecondSortsLast` | `internal/artifact/store.go:169-170` | An artifact kept until a full second is not due half a second later. |

## Left out

- Delivery: drift detection is one read of the ref and a verdict on the worktree; git, hooks and SQL text are parameters. Other writers may move, create or delete any ref at any time.
- Execution: the execution fence, leases and heartbeats, which give one executor at a time; replanned graph versions, owners and tokens are one flag of the worker's answer; recovery basis records.
- Execution.Workflow.Apply: errors of the lease, the lock, freezing and the database end a pass where a death would, and are not outcomes of their own; others edit the worktree between critical sections of the broker but not between its own freeze and its record, which the worktree lock is there for; a caller with a row that is not `intended` resumes first, as the run loop does.
- Patches: of a file's mode freezing records what git does, the owner's executable bit; nested repositories are not modelled; permissions, disk space and other reasons for a write to fail are crashes; a write that fails half way in a process that survives is the same as one that dies there.
- Campaign: cost totals, effective cases, timestamps, probes and messages; the partial's identity, plan and digest checks before its samples are validated; publication of the final results. A placeholder left by a process killed before its first checkpoint has to be removed by hand before the next process.
- Campaign.ABCampaign.Save: writing the file is one atomic choice here; how it is made atomic is `OwnedFiles`.
- Holdout: repetitions are natural numbers, as the result contract demands of every sample.
- Population: metric pairs and statistics, which add no harder property than the keys they share with the gate.
- OwnedFiles: inode numbers are never used twice (the code keeps placeholders open but not published files); contents are compared by a verdict; directory synchronisation and the quarantine directory itself; a file of ours that somebody rewrites in place is still ours.
- OwnedFiles.ResumeSession.Open: a partial becomes ours when its content passes the integrity check, which is a verdict here.
- Snapshot: a rooted handle is the one of Go 1.25 (`internal/safefs/root.go:21`), which follows at most eight links on a way and none that leads out and opens the directories on it for reading; everything in the roots belongs to the user, who is not the superuser; rollback after a failed commit; concurrent changes and death during rollback; replaced parents of a root; a root that is itself a link is captured as a link, although the code captures what it leads to if that lies beside it; a root whose own name holds a backslash; names that are not UTF-8; special files that do not open at once; size limits, payload files and the snapshot directory.
- Snapshot.SnapshotState.Rollback: where a link or a special file lies in a captured file's place, whether putting the file back is refused depends on what opening it says at that moment; where a captured file has a backslash in its name, what a successful rollback leaves depends on the order of entries of equal depth, which the code leaves open; special files and what is new inside captured subdirectories stay outside the promise, as in the code.
- Inventory: a directory reached through a link counts as blocking, although a rooted handle follows links that stay inside; the walk of the source and its filters, which decide the list of files; the manifest file is a field of its own; a manifest edited to entries the installer never wrote could make it remove a user's file with that very content.
- Inventory.StoppedInstall: for manifests with which an install converges (`Inventory.InstallConverges`), and the same sources the second time.
- Inventory.InstallConverges: for sources without two names that clean to the same path, and for trees in which no file lies under another.
- Semver.ReleasesWithBuild: for versions with both a pre-release and build metadata (section 10 of Semantic Versioning 2.0.0), and for metadata with dashes, `Semver.BuildIsRead` says what the code reads, but not when that is ordered rightly.
- Semver.ComparisonIsTotalOrder: for versions without build metadata, as are `Semver.ParseInjective` and `Semver.ChainIncreases`; the code orders the others by what it misreads of them.
- Semver.ValidSemver: an empty pre-release after a bare dash is accepted, as in the code, and compares as one empty identifier.
- MarkedBlock.MergeKeepsOutside: for files without markers or with one well-formed pair; `MarkedBlock.IdempotentExactly` says what stray markers do. Text is a sequence of characters.
- Canary: preparation of the canary, manifest and plugin checks, hard-check categories beyond one verdict, artifact sealing; the ratio is taken over the reals, which the float64 quotient of the code agrees with as long as token sums stay far below 2^53.
- Approval: prototype validations, corrupt rows, failing transactions, which leave the tables as they were, and the time of revocations.
- ArtifactStore: concurrent callers, export and read, objects touched by others, years beyond 9999; authority is a set of workflows.
- ArtifactStore.Store.Put: when the query of the quota sum fails the code goes on with zero, so quotas are promised only while no such query has failed; `ArtifactStore.Store.Prune` likewise for the query of the receipts.
- The wizard, prompts, reporters, doctor checks, JSON text, regular expressions and hashing internals, none of which carries a protocol.
