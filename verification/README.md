# Verified models of Gitman's cores

Gitman is a Git server with CI over PostgreSQL, Git and Docker. This project models its parts
with hard correctness claims and proves those claims for every input, every history or every
interleaving:

- streaming secret redaction (an Aho-Corasick automaton and a stream that holds bytes back),
- the durable push protocol (intent, Git transaction with receipt, recording transaction) under
  crashes, lost replies, recovery, rejection, abandonment and pin pruning,
- runs, steps and deployment-target ownership under lost workers, late receipts and operator
  release, and the exclusion of claims by repository deletion and by backups,
- ref patterns, rules, targets and version order,
- the merged activity feed, the object cache, the log tail and image pruning.

`dafny verify dfyconfig.toml` checks everything.

## How to read it

A database transaction and a Git `update-ref` transaction are one atomic step each; locks have
explicit holders; a crash drops whatever a process held. What the outside world does to one call (a command
that fails, a reply that is lost, a ref moved by somebody else) is an argument, its weather. Where the order of single statements
matters (admission, execution gates, claims, deletion, leases), the step is one statement
(`Exclusion`). Code that changes state is a class or a method with loops, proved against a
specification function or to perform exactly one step of the state machine; what the source
promises is then proved of those functions and of every history of steps. What a step does is
also stated row by row and field by field, without those functions (`CiEffects`, `PushEffects`).

| file | content |
|---|---|
| `Bytes`, `Options` | byte strings, suffixes, optional values |
| `AhoCorasick`, `RedactSpec`, `RedactStream` | the automaton, the redaction specification, the stream |
| `TextOrder`, `Wildcards`, `PatternChoice`, `RefRules`, `Targets`, `Versions` | text order, ref patterns, rules, targets, version order |
| `PushProtocol`, `PushSafety`, `PushEffects`, `PushServer` | protocol steps, what all runs keep, what each step does to every row, the push code |
| `CiTables`, `CiSafety`, `CiTheorems`, `CiEffects`, `CiStore` | CI tables and transactions, invariant, theorems, what each transaction does to every row, the CI code |
| `Quiet`, `Exclusion` | idle repositories; admission, gates, claims, deletion and leases |
| `Feed`, `ObjectCache`, `LogTail`, `Images` | merged feed, LRU cache, log tail, image pruning |

None of the promises modelled here turned out false of the code. Three need their exact reading:

- "Fewer bytes held back than the longest pattern has" means: nothing is held back, or fewer
  bytes than some pattern has; with no patterns nothing is ever held back.
- The error "git refs diverge from operation receipt", and every rejection of a begun push, are
  unreachable as long as all ref changes go through the protocol (`NeverDiverges`); one ref moved
  by an outsider makes the error reachable (`DivergesWithOutsider`).
- The log tail drops a chunk whose successors already hold 20000 newlines, so a log of exactly
  20000 lines may lose the text of its first line (`FullLogLosesItsStart`); its line numbers stay
  right. `ShownWholeExactly` gives the exact condition under which a log is shown whole.

## Model

| member | source | states |
|---|---|---|
| `AhoCorasick.New` | internal/redact/stream.go:16-58 | for every pattern list the result is the automaton: nodes are exactly the beginnings of non-empty patterns, each failure link is the longest proper suffix that is a node, each match the longest pattern ending there |
| `AhoCorasick.FollowFailures` | internal/redact/stream.go:42-48 | following failure links terminates, since depth drops, and stops at the longest suffix that can take the byte |
| `AhoCorasick.LongestOfNode` | internal/redact/stream.go:52-53 | the larger of a node's own pattern and its failure link's match is the longest pattern that ends its path |
| `RedactSpec.CoverStep` | internal/redact/stream.go:88-92 | reading a byte covers exactly the bytes of the longest pattern that ends there, and what was covered |
| `RedactStream.Step` | internal/redact/stream.go:77-87 | the state is always the longest pattern beginning that ends the text read |
| `RedactStream.Write` | internal/redact/stream.go:108-122 | the emitted bytes are the redaction of a prefix: one `***` per run of covered bytes, also across calls |
| `RedactStream.Stream.Append` | internal/redact/stream.go:72-106 | after a final chunk the outputs together are the redaction of all chunks together; before, at most a pattern's length less one byte is held back |
| `RedactStream.HeldBack` | internal/redact/stream.go:93-99 | held-back bytes end a proper beginning of some pattern, so they are fewer than that pattern has |
| `RedactStream.RedactChunks` | internal/redact/stream.go:72-106 | for every pattern list, text and chunking the concatenated outputs equal the specification: covered bytes, each maximal run as one `***` |
| `RedactStream.Mask` | internal/redact/stream.go:124-124 | masking a whole text equals the specification |
| `Wildcards.MatchPattern` | internal/git/refs.go:134-159 | true exactly when the name is the pattern with some text for each `*` |
| `Wildcards.Greedy` | internal/git/refs.go:151-157 | taking the leftmost occurrence of a middle piece never loses a match |
| `PatternChoice.MoreSpecificIsStrictTotalOrder` | internal/git/refs.go:163-180 | irreflexive, transitive, and total on distinct patterns |
| `PatternChoice.MoreSpecificMeans` | internal/git/refs.go:163-180 | more bytes that are not stars win, then fewer bytes, then the smaller byte at the first difference |
| `PatternChoice.SelectPattern` | internal/git/refs.go:190-204 | returns the best matching pattern, or -1 exactly when none matches: the name itself if it is listed without a star, else the match with the most literal bytes, then the shortest, then the smallest text; the first one listed |
| `PatternChoice.BestIsUnique` | internal/git/refs.go:186-204 | a set of patterns has at most one best match for a name |
| `RefRules.SelectRule` | internal/repo/rules.go:128-143 | the rule of the kind with the best matching pattern, or none |
| `RefRules.RuleIgnoresOrder` | internal/repo/rules.go:128-143 | with distinct patterns per kind every order of the rules selects the same rule |
| `RefRules.Evaluate` | internal/repo/rules.go:85-123 | the decision follows the rule with the best matching pattern: its six permissions are the rule's own, and who may push is given policy by policy; without a rule the default policy decides, forcing and deleting are allowed and the rest is not |
| `RefRules.DecisionIgnoresOrder` | internal/repo/rules.go:85-123 | so the decision does not depend on the order of the rules |
| `RefRules.CheckDelete` | internal/repo/rules.go:66-83 | a deletion is allowed exactly when pushing is, the ref is not the default branch, and the rule that applies, if any, allows deleting; the other outcomes are exact, in the source's order |
| `Targets.ResolveTarget` | internal/ci/pipeline.go:124-138 | a target whose pattern is the best match, whatever order the map yields |
| `Targets.TargetIsUnique` | internal/ci/pipeline.go:124-138 | with distinct patterns per kind the resolved target is unique |
| `Targets.DeclareTargets` | internal/ci/pipeline.go:536-573 | of the declarations of one kind and pattern exactly the first is accepted; the others are reported |
| `Versions.LeadingDigits` | internal/git/refs.go:251-257 | the longest digit run at the start |
| `Versions.RunsCompareAsNumbers` | internal/git/refs.go:222-228 | comparing trimmed digit runs by length, then text, compares their numbers |
| `Versions.VersionCompare` | internal/git/refs.go:218-238 | the sign of the comparison of the names' tokens, digit runs as numbers |
| `Versions.VersionLess` | internal/git/refs.go:210-215 | exactly the order `Before`: tokens first, then text |
| `Versions.BeforeIsStrictTotalOrder` | internal/git/refs.go:206-238 | irreflexive, transitive, total on distinct strings |
| `Versions.SmallerNumberFirst` | internal/git/refs.go:222-233 | of two names that first differ in a run of digits the smaller number comes first |
| `Versions.SmallerByteFirst` | internal/git/refs.go:233-236 | of two names that first differ in a byte outside their numbers the smaller byte comes first |
| `Versions.ShorterFirst` | internal/git/refs.go:238-238 | a name comes before the names that go on after it |
| `Versions.SameReadingBySpelling` | internal/git/refs.go:210-215 | names that differ only in the leading zeros of a number come in the order of their spelling |
| `PushSafety.Keeps` | internal/push/proc.go:102-204 | every protocol step keeps the invariant that ties intents, receipts, refs, pins and rows |
| `PushSafety.ExactlyOnce` | internal/push/proc.go:148-204 | in every run an operation changes Git at most once and is recorded at most once; refused operations never changed Git; the receipt is there exactly when Git was changed; over the whole past the run table held exactly one row of the operation for each ref that asks for one, and it never holds two |
| `PushSafety.RecordingAddsRuns` | internal/push/receive.go:378-414 | in every reachable state the recording transaction keeps every run row and leaves, for each ref, exactly one row of the operation if its record asks for a run, else none |
| `PushSafety.QueueRunsIsExact` | internal/push/receive.go:397-411 | numbering the new runs above the counter overwrites no row and adds exactly the runs the records ask for |
| `PushSafety.OneWaitingPerRef` | internal/ci/store.go:63-96 | in every run of the push protocol a waiting run is the newest run of its ref, so a ref has at most one |
| `PushSafety.DeletedRefsStopWaiting` | internal/push/receive.go:378-389 | recording a push leaves no waiting run to a ref it deleted, and without an outsider a deleted ref is always gone |
| `PushSafety.OthersStillWait` | internal/push/receive.go:378-414 | recording a push cancels no waiting run of a ref the push does not touch |
| `PushSafety.IndexIsGit` | internal/repo/service.go:478-502 | whenever no operation is unfinished the indexed refs are Git's branches and tags |
| `PushSafety.NeverDiverges` | internal/push/receive.go:374-396 | without an outsider the divergence error and rejections are unreachable |
| `PushSafety.DivergesWithOutsider` | internal/push/receive.go:394-396 | a run in which an outsider moves a ref and the recorder finds the divergence |
| `PushSafety.NoDanglingHistory` | internal/git/transaction.go:67-77 | in every run each object a run row, a deployment row or a push-update row (before and after the update) names is pinned |
| `PushSafety.ReceiptsAndOutcomesStay` | internal/git/transaction.go:128-164 | no step removes the receipt of an operation that has a row, and how an operation finished never changes |
| `PushEffects.EffectMeans` | internal/push/proc.go:102-204 | in every run each step does to refs, pins, receipts and to every row exactly what `Means` says of the rows themselves: what it adds or changes, field by field, and that everything else stays |
| `PushEffects.ApplyMeans` | internal/git/transaction.go:40-83 | the Git transaction lands every record's ref where the record says and moves no other ref, pins exactly the named objects in addition, and adds exactly its receipt |
| `PushEffects.RecordMeans` | internal/push/receive.go:346-419 | the recording transaction adds exactly the operation's push row with its intent, makes the index Git's refs, gives the runs asked for the next numbers in the order of the records, leaves waiting exactly the earlier runs of refs it does not supplant and the new ones that can proceed, and completes only its operation |
| `PushEffects.RecordedPushHasRow` | internal/push/receive.go:365-369 | in every run a recorded operation has its push row, with its intent, until that row is forgotten |
| `PushEffects.ReconcileMeans` | internal/git/transaction.go:128-164 | after a reconciliation an object is pinned if and only if some run, deployment, index or push-update row names it; a receipt is left if and only if it was there and its operation has a row; payloads and refs stay |
| `PushEffects.PruneIsExact` | internal/repo/retention.go:24-101 | whatever others do between the two listings and the reconciliation, it pins exactly what the rows named at the first listing and keeps exactly the receipts of the operations of the second |
| `PushEffects.ManualMeans` | internal/ci/service.go:511-547 | a manual run gets the next number, supersedes the waiting runs of its ref, and changes nothing else |
| `PushServer.CheckRefChanges` | internal/git/transaction.go:17-38 | accepts exactly when every ref is where its change expects it |
| `PushServer.RefTransaction` | internal/git/transaction.go:40-83 | accepted exactly for distinct refs that are where expected and do not go from nothing to nothing, valid commits and a new receipt; then refs, pins and receipt change together, otherwise nothing does |
| `PushServer.ReconcilePins` | internal/git/transaction.go:128-164 | afterwards a non-zero object is pinned if and only if it is listed, a receipt is left if and only if it was there and its operation is listed, and payloads and refs stay |
| `PushServer.SyncRefsRows` | internal/repo/store.go:342-367 | deleting stale rows and upserting the rest yields exactly the current refs |
| `PushServer.Collect` | internal/push/proc.go:160-173 | the changes of the intent, and as commits exactly the objects its rows name |
| `PushServer.CreateRuns` | internal/push/receive.go:374-414 | diverges exactly when some ref with a run is not where the receipt put it; otherwise every earlier row stays, each such ref gets exactly one row, and the waiting runs of superseded and deleted refs are cancelled |
| `PushServer.Server.OperationApplied` | internal/git/transaction.go:85-106 | tells whether the receipt is there; a receipt of another payload is an error |
| `PushServer.Server.ApplyOperation` | internal/git/transaction.go:40-83 | Git changes as a whole or not at all, and an error says nothing about which |
| `PushServer.Server.RecordPush` | internal/push/receive.go:346-419 | if the refs agree, the ref index is free and the transaction commits: the push row is the only new one and holds the intent, the index is Git's refs, the runs asked for exist under the next numbers, only supplanted runs stop waiting, only the operation is completed; otherwise no change; it succeeds exactly when the reply arrives too |
| `PushServer.Server.RecoverPush` | internal/push/proc.go:148-204 | leads from the old state by own protocol steps only, and for every weather has exactly one outcome: completed if and only if the receipt matches or Git makes the changes and this becomes known, the account is read, the index is free, the refs agree and the closing transaction is heard to commit; "not applied" if and only if a ref is known to have moved and the rejection is heard to commit; Git and rows are given for every case, lost replies included |
| `PushServer.Server.ApplyPush` | internal/push/proc.go:102-139 | an empty push succeeds; a push that meets an unfinished operation, a moved ref or a refused insert changes nothing; a lost reply to the insert leaves exactly the intent; any other push has exactly the outcome of RecoverPush, and if it completes its push row, runs and index are there and, without an outsider, exactly its refs have moved |
| `PushServer.Server.RecoverOperation` | internal/repo/operations.go:279-313 | leaves a finished operation alone; otherwise exactly the outcome of RecoverPush, with a failure noted on an operation that is still unfinished |
| `PushServer.Server.RecoverOperations` | internal/repo/operations.go:273-316 | the states between its turns exist and each turn has exactly its outcome; afterwards only operations whose turn failed are unfinished among those listed, and none has become unfinished |
| `PushServer.TurnsMean` | internal/repo/operations.go:273-316 | what any sequence of such turns means for the journal |
| `PushServer.LeadsGrows` | internal/push/proc.go:148-204 | protocol steps only add to what was ever applied, recorded, refused and inserted |
| `PushServer.Server.WithMutation` | internal/repo/operations.go:47-66 | admits exactly when no operation of the repository is unfinished |
| `PushServer.Server.BeginOperation` | internal/repo/operations.go:69-95 | the intent is durable before Git is touched; a refused insert changes nothing, a lost reply leaves the intent |
| `PushServer.Server.RejectOperation` | internal/repo/operations.go:105-108 | the operation's row becomes rejected and no other row changes, also when the reply is lost; or nothing changes |
| `PushServer.Server.AbandonOperation` | internal/repo/operations.go:115-189 | abandons exactly an unfinished operation with a noted failure and no receipt; only its row changes, also when the reply is lost, and it never changed Git |
| `PushServer.Server.PruneGitPins` | internal/repo/retention.go:24-101 | skips a repository with an unfinished operation; otherwise an object is pinned if and only if a run, deployment, ref or push-update row names it, a receipt stays if and only if its operation has a row, and refs stay |
| `PushServer.Server.Start` | internal/ci/service.go:511-547 | a manual run's commit is pinned before its row exists; the run supersedes the waiting runs of its ref; Git and rows are given for every failure and lost reply |
| `CiSafety.Keeps` | internal/ci/deploy_owner.go:19-142 | every transaction keeps the invariant of runs, steps, owners, generations and recorded deployments |
| `CiTheorems.DeploymentsNeverGoBack` | internal/ci/deploy_owner.go:44-105 | over every history: one deployment per step, generations grow, a push-triggered run never deploys over a higher-numbered one |
| `CiTheorems.OwnerIsUnique` | internal/ci/deploy_owner.go:40-60 | a target's owner is a deploy step without exit code of a run for it, and no other step holds its generation |
| `CiTheorems.OwnershipIsGuarded` | internal/ci/deploy_owner.go:87-142 | a target changes hands only by the owner's receipt, a confirmed stop of its run or the release of its worker, and is acquired only when free, under the next generation |
| `CiTheorems.DeploymentsComeFromOwners` | internal/ci/deploy_owner.go:87-114 | a deployment is recorded only by the receipt of a step that exited 0 while owning the target at the generation it acquired, and ends the ownership |
| `CiTheorems.NoDeploymentIsLost` | internal/ci/deploy_owner.go:87-114 | every deploy step that passed has its deployment on record, and exactly one |
| `CiTheorems.RunsAreSettled` | internal/ci/store.go:452-466 | an ended run has no pending or running step; a ref has at most one queued run, its highest-numbered one |
| `CiTheorems.EveryStepIsForward` | internal/ci/store.go:540-603 | runs only move queued, running, ended or queued, ended; a recorded exit code never changes, not even in recovery |
| `CiEffects.EffectMeans` | internal/ci/service.go:100-740 | in every reachable state each transaction does to every run, step, target, counter and deployment row exactly what `Means` says of the rows themselves, and leaves all others alone |
| `CiEffects.CreateMeans` | internal/ci/service.go:100-145 | each step of the plan becomes a row of the run with the plan's deploy flag, no code, generation or container, pending if and only if the run is queued and the step applies, else skipped; older queued runs of the ref are cancelled with their pending steps; every other row stays |
| `CiEffects.SupersedeMeansRuns` | internal/ci/store.go:68-73 | exactly the queued runs of the ref below the number become cancelled; no other run and no other field changes |
| `CiEffects.SupersedeMeansSteps` | internal/ci/store.go:89-94 | exactly the pending steps of those runs become cancelled |
| `CiEffects.ReceiptMeans` | internal/ci/deploy_owner.go:70-114 | after every accepted receipt, with or without exit code, no target is owned by the step, every other target is unchanged, the step has the status and code, and a deployment is recorded exactly if a deploy step passed |
| `CiEffects.AcquireMeans` | internal/ci/deploy_owner.go:19-62 | a free target gets the step as owner under the next generation, which the step's row takes over; an own target stays |
| `CiEffects.ReleaseWorkerMeans` | internal/ci/worker_release.go:84-121 | the worker's running runs fail with their open steps, its containers count as removed, its targets are free; no other row changes |
| `CiEffects.FinishedStepsOwnNothing` | internal/ci/deploy_owner.go:87-142 | in every reachable state the owner of a target is an open step, or its run has ended |
| `CiStore.Store.SupersedeQueued` | internal/ci/store.go:68-96 | cancels the older queued runs of the ref and their pending steps, one statement for the runs and one for each run's steps, and lists each of these runs once |
| `CiStore.Store.CreateTx` | internal/ci/service.go:100-145 | one new run with the next number, failed instead of queued beyond 10000 unfinished runs; each of its steps is pending exactly if the run is queued and the step applies, and deploys as planned; older queued runs are superseded, all other rows stay |
| `CiStore.Store.CancelQueuedTx` | internal/ci/service.go:154-165 | cancels every queued run of the ref with its pending steps, lists each once, and changes nothing else |
| `CiStore.Store.ClaimNextRunForRepo` | internal/ci/store.go:395-425 | claims exactly the run queued first among the repository's eligible, unlocked ones, or changes nothing when there is none or claims are closed |
| `CiStore.Store.ClaimNextRun` | internal/ci/store.go:357-393 | claims from the first candidate repository that can be claimed from, or changes nothing when none can |
| `CiStore.Store.Cancel` | internal/ci/service.go:362-377 | a queued run is cancelled, a running one flagged, an ended one refused, an unknown one not found |
| `CiStore.Store.StepStarted` | internal/ci/service.go:259-268 | starts a pending step exactly while its run is running and not cancelled |
| `CiStore.Store.PlanContainer` | internal/ci/service.go:578-589 | plans a container exactly for a running step of an active run |
| `CiStore.Store.BeginDeployment` | internal/ci/deploy_owner.go:19-62 | acquires the target, or says exactly why not, each reason if and only if: run over, step not running, not a deploy step, overtaken, else busy |
| `CiStore.Store.FinishExecutionReceipt` | internal/ci/deploy_owner.go:70-114 | commits status, exit code, deployment and release together, also without exit code: no target is left to the step, and no other target changes; each outcome if and only if: unknown step, receipt no longer awaited, run over, ownership lost, else done |
| `CiStore.Store.StepFinished` | internal/ci/service.go:272-281 | takes the receipt, row by row as stated for it, exactly when it is acceptable, else changes nothing; the tables stay sound for every final status |
| `CiStore.Store.RecoverStepExit` | internal/ci/service.go:677-691 | takes a retained exit code as a receipt exactly when it is acceptable, never over a recorded code, also after the run has ended |
| `CiStore.NotYetRecorded` | internal/ci/store.go:565-573 | the owner of a target has no deployment on record, so the insert never conflicts |
| `CiStore.Store.Finish` | internal/ci/service.go:326-354 | ends a running run and settles its steps, and leaves any other run alone; the tables stay sound for every end status |
| `CiStore.Store.FailLostRuns` | internal/ci/service.go:426-449 | fails exactly the running runs of stopped or silent workers and leaves every target owner in place |
| `CiStore.Store.ConfirmExecutionStopped` | internal/ci/deploy_owner.go:119-142 | fails the run's running deploy steps and releases its targets |
| `CiStore.Store.ConfirmContainersRemoved` | internal/ci/service.go:732-740 | afterwards the run has neither a container nor a target |
| `CiStore.Store.ReleaseLostWorker` | internal/ci/worker_release.go:23-133 | refuses a live or unknown worker; otherwise releases exactly its stranded runs, leaves it nothing and marks it stopped, not ready and without runs |
| `CiStore.WorkerIsReleased` | internal/ci/worker_release.go:84-121 | after the release no run of the worker runs, has a container or owns a target |
| `Quiet.StaysIdle` | internal/ci/service.go:206-241 | only a claim can start execution in an idle repository |
| `Exclusion.DeletionExcludesExecution` | internal/repo/operations.go:69-95 | while a delete intent is unfinished no run of the repository runs, no container is left, no target is owned, under every interleaving |
| `Exclusion.LeaseExcludesEverything` | internal/postgres/maintenance.go:118-140 | while a lease is held maintenance is on, nothing executes anywhere, no operation is unfinished and nobody is admitted |
| `Exclusion.ClaimsAreDistinct` | internal/ci/store.go:357-425 | no two workers hold the same run, and a picked run can still be claimed |
| `Exclusion.SafeStep` | internal/postgres/maintenance.go:23-113 | every single statement of admission, claim, deletion, maintenance and backup keeps the exclusion invariant |
| `Exclusion.EventMeans` | internal/postgres/maintenance.go:23-140 | what single statements do: a paused instance admits nobody, a gate is shared unless a deletion holds it, a deletion goes on exactly if nothing executes, a lease is granted exactly if the instance is paused, nothing is unfinished and nothing executes |
| `Feed.RankIsTextOrder` | internal/activity/activity.go:93-99 | the order of the five kinds is the order of their names |
| `Feed.NewerIsStrictTotalOrder` | internal/activity/repo_feed.go:145-153 | entries are totally ordered by time, kind and identifier |
| `Feed.NewerMeans` | internal/activity/repo_feed.go:145-153 | later entries come first, then those of the source later in the alphabet, then those of the larger identifier |
| `Feed.Query` | internal/activity/store.go:319-330 | one source's first rows below the cursor, newest first |
| `Feed.MergedPage` | internal/activity/repo_feed.go:118-159 | `limit + 1` rows of each source decide the page and whether more follow |
| `Feed.ForRepo` | internal/activity/repo_feed.go:118-159 | the page is the first `limit` of the fully merged list below the cursor, and `more` is exact; told by the rows alone: each entry is a row past the cursor, in order, and whatever is left out comes after all of them |
| `Feed.WalkListsEverythingOnce` | internal/activity/repo_feed.go:116-159 | following cursors lists every entry once in order, while the feed changes above the cursor |
| `Feed.LaterPagesStay` | internal/activity/repo_feed.go:116-117 | entries added above a cursor change no page from that cursor on |
| `ObjectCache.Cache.Get` | internal/git/repository.go:660-669 | returns what is stored under the key and moves it to the front, the others keeping their order; a miss changes nothing |
| `ObjectCache.Cache.Add` | internal/git/repository.go:671-693 | a cost above an eighth changes nothing; a known key moves to the front; a new entry is put first, followed by as many of the old ones as can be afforded with it |
| `ObjectCache.FitIsLongestPrefix` | internal/git/repository.go:686-692 | eviction leaves exactly the longest affordable prefix |
| `ObjectCache.AnyRun` | internal/git/repository.go:642-693 | after any operations keys are distinct, the total fits, and entries stand in order of last use |
| `ObjectCache.EvictsLeastRecentlyUsed` | internal/git/repository.go:686-692 | whatever is evicted was used before everything kept |
| `ObjectCache.NeverStale` | internal/git/repository.go:638-641 | if every add of a key stores the same value, so does every entry |
| `LogTail.Cut` | internal/ci/store.go:842-862 | the cut is the first line start within both bounds, or the first rune past the excess if no line ends there |
| `LogTail.GoodCutIsUnique` | internal/ci/store.go:842-862 | that description leaves one choice |
| `LogTail.ChunkAdds` | internal/ci/store.go:473-485 | a new chunk adds its own bytes and newlines to the whole log, wherever it belongs |
| `LogTail.StepLog.Append` | internal/ci/store.go:473-485 | a chunk is stored and counted once; a retry, or a chunk after the run ended, changes nothing |
| `LogTail.StepLog.Recent` | internal/ci/store.go:819-838 | the latest chunks, taken while fewer than 256 and both windows are short |
| `LogTail.StepLog.Select` | internal/ci/store.go:816-867 | a suffix of the whole log of at most 1 MiB and 20000 lines; its first line's number is one plus the newlines before it; `Cut` is exact |
| `LogTail.ShownWholeExactly` | internal/ci/store.go:816-867 | a log is shown whole exactly when it is within 1 MiB and 20000 lines and every chunk with text has fewer than 256 later ones, which together stay below 1 MiB and below 20000 newlines |
| `LogTail.FullLogLosesItsStart` | internal/ci/store.go:819-824 | a log of exactly 20000 lines whose first chunk has no newline is shown without that chunk |
| `Images.VersionNamesTag` | internal/ci/image.go:22-24 | a deployment version names a tag of its repository |
| `Images.NewestLists` | internal/ci/images.go:186-202 | the sort lists each built image of a repository once, in the retention order |
| `Images.ClassMeans` | internal/ci/images.go:157-182 | required: a required reference or digest names the tagged image; built: else, tagged and of a declared repository; other: else |
| `Images.NewerImageMeans` | internal/ci/images.go:186-202 | the retention order: build time, time of the last tag, tag, identifier, the larger first |
| `Images.Classify` | internal/ci/images.go:149-227 | every image gets its class by precedence, and every built one its rank, its deployments and the fallback |
| `Images.PlanPrune` | internal/ci/images.go:283-316 | remove and refuse hold the decided images of each outcome, sorted, and the reclaimable total is the sum of the removed sizes |
| `Images.OutcomesSplit` | internal/ci/images.go:283-316 | the two lists split the inventory: nothing lost, nothing duplicated |
| `Images.RemovedExactly` | internal/ci/images.go:283-316 | an image is prunable exactly when the facts are complete, it is built here and unused, beyond the newest `keep`, named by no deployment and not the fallback |
| `Images.RefusalIsExplained` | internal/ci/images.go:283-316 | every reason is given if and only if it is the one that holds, in the source's precedence |
| `Images.IncompleteRemovesNothing` | internal/ci/images.go:178-180 | incomplete facts remove nothing |
| `Images.KeepsEnough` | internal/ci/images.go:202-205 | a repository keeps at least min(keep, count) of its built tags |
| `Images.DeploymentSurvives` | internal/ci/images.go:207-224 | for every recorded deployment its tag or the newest built tag survives |
| `Images.SortClassified` | internal/ci/images.go:332-343 | sorted by repository, tag and identifier, the same images, the same total size |
| `Images.Plan` | internal/worker/images.go:408-408 | Classify then PlanPrune: the remove list holds exactly the images that may go, the refuse list all others, each with the reason that holds, together the inventory, in order; the refuse list keeps min(keep, count) of each repository's built tags and, for every recorded deployment, its tag or the newest built tag; incomplete facts remove nothing |

## Left out

- Web, command line, configuration, Docker calls, disk accounting, people, tokens and sessions: plumbing, or easy invariants.
- SQL text, connection pools, notifications and migrations: tables are maps, a transaction is one step. Transactions that lock the same rows are taken as serialized.
- Real clocks: heartbeats, deadlines, staleness and time-outs are arbitrary booleans; timestamps are ordered values.
- A process's lock and its open transaction or Git child end together when it crashes; a commit or a ref update that lands after the lock was lost is not modelled.
- The push model covers one repository, branches and tags, and push operations; repository creation, HEAD changes and the effects of a deletion carry no receipt and are not modelled. Of a run's state it knows only whether the run still waits; the rest is in the CI model.
- PushServer.RefTransaction: names that conflict as directory and file, unknown objects and other reasons for Git to refuse are not derived; they are among the failures the `gitWorks` of a call's weather stands for.
- Reads of the database are taken to succeed, the pusher's account excepted; where one fails the code returns an error before it changes anything more.
- PushServer.Server.ApplyPush: the permission checks of ValidatePush and the records prepareRecords builds are arguments.
- PushServer.Server.Start: the pipeline file's contents and the plan made from it are not modelled.
- CiStore.Store.CreateTx: does not model how planRun decides; the plan is an argument.
- CiStore.Store.StepFinished: promises sound tables only for a final status, and CiStore.Store.Finish only for an end status, as their comments ask of callers; the worker's main loop, which sends them, is not part of this model.
- Exclusion.ClaimsAreDistinct: a claim may pick any queued run there, since rows locked by others are skipped; that the first unlocked one is taken is stated by CiStore.Store.ClaimNextRunForRepo. The query that orders the candidate repositories is an argument of CiStore.Store.ClaimNextRun.
- Admission, maintenance and leases (internal/postgres/maintenance.go) are a state machine over their statements and not a class, because their point is how statements of several processes interleave.
- Log chunks: the 1 GiB budget of a repository is an arbitrary refusal.
- Feed cursors are entries; their base64 form, its validation and database collation are not modelled (identifiers are lower-case hexadecimal, so collation is byte order).
- Image facts are an argument; reasons are named instead of worded, and applyPlan and PlanRemoveOne are left out as easy.
- ObjectCache.Cache.Get: list element pointers are entries of a sequence, and the mutex is not modelled: calls are one at a time.
- Integers are unbounded; int64 overflow of counters, sizes and costs is not modelled.
- Liveness: nothing says that a push, a run or a recovery finishes.
