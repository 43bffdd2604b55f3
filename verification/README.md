# A verified model of the agent

The agent runs on a host, in a cluster or as a worker. It claims tasks from a server, executes
them (supervising worker processes, writing to a Kubernetes API, draining nodes, installing
K3s) and reports back. This project models the stateful logic of `internal/agent` in Dafny and
proves what that logic guarantees in every run. `dafny verify dfyconfig.toml` checks all of it.

## Contents

- **Worker process supervisor** (`WorkerState`, `Supervisor`, `SupervisorInvariant`,
  `SupervisorSafety`, `SupervisorDoubling`, `SupervisorTasks`). The closures passed to the store's `update` are methods over the process
  table. Around them stands a step system: one task loop running create, start, stop, restart,
  delete and inspect; one waiter per child, running as late as it likes; children that exit at
  any time; store and OS errors; a clock that only goes forward; crashes of the agent. One
  inductive invariant holds in every reachable state and gives the safety results;
  `SupervisorDoubling` says exactly when two children of one process can be live, and
  `SupervisorTasks` what each task leaves behind when it ends.
- **Task leases and the outcome cache** (`TaskResults`, `TaskLease`, `TaskExecution`). A step
  system over claims, lookups, executions, lost leases, puts with pruning, acknowledgements
  with lost replies, and crashes. `ExecuteClaimedTask`, written as the code is, is proved to be
  the next stretch of whatever history it is called in, so that a call in a reachable state
  leaves a reachable state (`CallsStayReachable`); its contract says exactly when a task is
  executed, stored and acknowledged, and `CallsNeverRepeatATask` draws the conclusion for any
  number of calls.
- **Kubernetes writes** (`JsonValues`, `ServiceAllocations`, `OptimisticWrites`,
  `RuntimePatches`, `RuntimeApply`). The replace and patch loops against a server on which other
  clients write and delete between any two requests and on which requests and replies get lost;
  the validation of manifests, and the update of one object with the read that precedes it.
- **Drain and pagination** (`DrainPods`, `DrainSteps`, `DrainNode`, `Pagination`). The loops
  against a server that answers from an arbitrary script; each theorem is about every script
  and the log of requests that it leads to.
- **Paths and rewriting** (`WorkerPaths`, `LogicalWorkspace`). Confinement over a snapshot of a
  filesystem with symbolic links; the scanning rewriter of workspace roots.
- **Quoting** (`ShellQuoting`, `K3sCommands`). The shell quoter against a tokeniser written
  from sections 2.2.1, 2.2.2 and 2.3 of the POSIX.1-2017 Shell Command Language, and the two
  K3s command builders.
- **Bounded accumulators** (`WorkspaceScan`, `WorkspaceTotals`, `BoundedOutput`). The scan with an
  explicit stack against a fold over the directory tree, and what that fold counts; the bounded buffers and the rotating log.

`Basics` and `Strings` hold shared types and the few functions of Go's `strings` package that
the models use.

## What is assumed

- A store update is one atomic step. (Each task builds its own store, with its own mutex, so
  the file's atomic replacement and the one-task-at-a-time loop are what stands behind this.)
- The clock does not go backwards, and the kernel does not hand out a pair of PID and start
  marker twice.
- Files, HTTP, JSON encoding, and the printing of values (`sprint`) are abstract; where their
  outcome matters it is an argument that ranges over everything.

## What the proofs brought to light

- *A process can run twice.* At most one child of a process is live as long as the agent never
  lets go of a live child. It lets go in exactly two ways: stop clears the record although the
  child survived SIGKILL past the deadline, or the agent dies between the launch of a child and
  the update that records it (`StraysComeFromLettingGo`). From a state without a live stray
  child, a step opens the way to two live children if and only if it lets go of one
  (`LettingGoIsExactly`), and in general two can come to live together if and only if a child
  let go of still lives (`DoublingIsExactly`); both kinds of step occur (`GivingUpLetsGo`,
  `CrashLetsGo`).
- *A first read leaks into a Service.* The replace loop computes each body from the version it
  overwrites, but `applyRuntime` has by then filled the manifest from an earlier read.
  `FirstReadLeaksExactly` and `FirstReadReachesTheServer` give the exact condition,
  `FirstReadCanLeak` a manifest that passes the validation, and `LeakingRun` a run for every
  Service of this kind.
- *A listing can lose items silently.* `WhenListIsWhole` says exactly when: the last page has no
  continue token and brings the total above 2000, which takes a server that answers more than
  was asked for (`OverrunIsSilent`).
- *Pruning can hang.* `pruneTaskOutcomes` never returns when more than 2000 unexpired entries
  carry the largest int64 as completion time, an entry with an empty id not counted
  (`PruneTaskOutcomes`, an equivalence; `TimelessAreImmortal`). The agent itself stamps outcomes
  with the current time, so this takes a store file written by something else.
- *A fresh outcome can be evicted* at once, when the store overflows and no entry is strictly
  older (`FreshPutSurvives`, an equivalence).
- *Updating a claim* keeps the annotations that the manifest does not mention if and only if the
  manifest has an annotations object at all; without one, it removes them all
  (`WhenUnmentionedSurvives`, `FieldIsReplaced`).
- *Mapping a root to itself* leaves a text alone exactly when nothing is replaced or the actual
  root equals the logical root without trailing slashes (`WhenMappingIsIdentity`).

## Model

| member | source | states |
|---|---|---|
| WorkerState.ClearAndWaitCommute | internal/agent/worker_process.go:322-337 | stop's (or inspect's) clear and the waiter's update, in either order, leave the record stopped with the child's exit code and the same identity fields, and no other record changed |
| WorkerState.WorkerStateStore.Define | internal/agent/worker_process.go:106-110 | create's update replaces the record by one without PID, marker or exit code |
| WorkerState.WorkerStateStore.RecordStart | internal/agent/worker_process.go:262-276 | start's update records the incarnation and resets the exit code, or fails and changes nothing when the record is gone |
| WorkerState.WorkerStateStore.Clear | internal/agent/worker_process.go:416-427 | stop's update clears PID and marker of an existing record and creates none |
| WorkerState.WorkerStateStore.ClearUnguarded | internal/agent/worker_process.go:479-488 | inspect's update clears the record without checking that it exists |
| WorkerState.WorkerStateStore.RecordExit | internal/agent/worker_process.go:321-337 | the waiter's update applies exactly when the record names its incarnation or was stopped before the wait, and then stores the exit code |
| WorkerState.WorkerStateStore.Remove | internal/agent/worker_process.go:444-450 | delete's update removes the record and says whether there was one |
| SupervisorInvariant.StepKeepsInv | internal/agent/worker_process.go:202-501 | every step of the task loop, a waiter, a child or the world keeps the invariant that ties records, children, waiters and the control point together |
| SupervisorInvariant.GuardIsExact | internal/agent/worker_process.go:323-328 | while a waiter is outstanding its guard holds exactly of the record that its own incarnation was the last to be started from |
| SupervisorSafety.RecordsAreCoherent | internal/agent/worker_process.go:262-337 | in every reachable record the status is running iff the PID is not 0 iff the marker is not empty |
| SupervisorSafety.AtMostOneLive | internal/agent/worker_process.go:202-302 | in every reachable state a process has at most one live child that was not let go of; the record names it by PID and marker, except while a start stands between launching and recording it |
| SupervisorSafety.StraysComeFromLettingGo | internal/agent/worker_process.go:248-282 | a step makes a child stray if and only if stop gives up on it while it lives or the agent dies before recording it |
| SupervisorSafety.StopEndsTheChild | internal/agent/worker_process.go:401-427 | when stop clears a record without having given up, no child of the process lives that was not let go of before |
| SupervisorSafety.InspectClearIsHarmless | internal/agent/worker_process.go:477-489 | inspect's unguarded clear never erases a live incarnation and never creates a record |
| SupervisorSafety.WaiterTouchesOnlyItsOwn | internal/agent/worker_process.go:308-339 | a waiter, however late, changes no record of a later incarnation and resurrects no deleted one |
| SupervisorSafety.OutstandingStartTimesDiffer | internal/agent/worker_process.go:283-300 | two outstanding waiters never share a start time, thanks to the startup grace |
| SupervisorSafety.ExitCodeIsRecorded | internal/agent/worker_process.go:329-338 | once the waiter of the last recorded incarnation has written its update, the record is stopped with that exit code |
| SupervisorSafety.WaiterUpdateApplies | internal/agent/worker_process.go:322-337 | no interleaving makes that update miss its record |
| SupervisorSafety.ExitCodeStays | internal/agent/worker_process.go:202-501 | only a newer start, a redefinition or a deletion takes a recorded exit code away |
| SupervisorDoubling.OneLiveWhileHolding | internal/agent/worker_process.go:388-434 | from any reachable state without a live stray child, a run that never lets go of a live child never has two live children of a process, and between tasks the record names the one there is |
| SupervisorDoubling.DoublingIsExactly | internal/agent/worker_process.go:202-434 | from a reachable state, two children of a process can come to live together without another one being let go of if and only if a child that was let go of still lives |
| SupervisorDoubling.LettingGoDoubles | internal/agent/worker_process.go:248-282 | after any reachable step that lets go of a live child, a run that lets go of no other one leads to two live children of the process |
| SupervisorDoubling.LettingGoIsExactly | internal/agent/worker_process.go:202-434 | from a reachable state without a live stray child, a step opens the way to two live children if and only if it lets go of a live child |
| SupervisorDoubling.GivingUpLetsGo | internal/agent/worker_process.go:408-427 | stop giving up on a live child is reachable |
| SupervisorDoubling.CrashLetsGo | internal/agent/worker_process.go:248-282 | a crash before the recording update is reachable |
| SupervisorTasks.CreateSettles | internal/agent/worker_process.go:70-121 | a create that runs to its end without store or OS errors leaves the definition asked for, written exactly when it was another one before; it launches only if a start was asked for or the process ran under another definition, and then does unless it is found running |
| SupervisorTasks.StartSettles | internal/agent/worker_process.go:202-302 | such a start of a defined process launched and recorded it, or found it running |
| SupervisorTasks.RestartSettles | internal/agent/worker_process.go:53-58 | the same of a restart, where the start after the stop looks |
| SupervisorTasks.DeleteSettles | internal/agent/worker_process.go:436-458 | after such a delete there is no record, and nothing was launched |
| SupervisorTasks.StopSettles | internal/agent/worker_process.go:388-434 | after such a stop the record has no PID; nothing was defined or launched |
| SupervisorTasks.InspectSettles | internal/agent/worker_process.go:460-501 | after such an inspection the record has no PID unless the process was seen running |
| SupervisorTasks.DefinitionsChangeOnlyByCreate | internal/agent/worker_process.go:70-501 | no step but create's update changes a record's definition or adds a record, and none but delete's removes one |
| SupervisorTasks.TasksKeepRecords | internal/agent/worker_process.go:43-501 | a task that neither defined nor launched leaves the definition, the start time and a recorded exit code of every record that stays |
| SupervisorTasks.CreateKeepsItsOwn | internal/agent/worker_process.go:85-99 | a create with the definition already there leaves it and the exit code alone unless it started the process |
| SupervisorTasks.StopKeepsRecord | internal/agent/worker_process.go:388-434 | a stop keeps the record's definition and a recorded exit code |
| SupervisorTasks.InspectKeepsRecord | internal/agent/worker_process.go:460-501 | and so does an inspection |
| TaskResults.PruneTaskOutcomes | internal/agent/task_results.go:85-105 | only unexpired entries stay, at most 2000 and no fewer than possible, no evicted one newer than a kept one; the loop hangs iff more than 2000 entries cannot be picked |
| TaskResults.FindOldest | internal/agent/task_results.go:96-102 | the inner scan finds an oldest entry, or the empty id when all are at the maximum |
| TaskResults.FreshPutSurvives | internal/agent/task_results.go:47-57 | a fresh outcome survives its own put, whatever ties pruning breaks, iff nothing overflows or some other unexpired entry is strictly older |
| TaskResults.TimelessAreImmortal | internal/agent/task_results.go:95-104 | stores on which pruning hangs exist |
| TaskResults.TaskResultStore.Get | internal/agent/task_results.go:36-45 | looks the outcome up |
| TaskResults.TaskResultStore.Put | internal/agent/task_results.go:47-57 | stores the outcome and prunes, or hangs and writes nothing |
| TaskResults.TaskResultStore.Remove | internal/agent/task_results.go:59-68 | removes exactly that outcome |
| TaskLease.StepKeepsInv | internal/agent/runner.go:211-276 | every step keeps the invariant: what is stored or about to be acknowledged was executed, and a task being executed is not in the store |
| TaskLease.NeverAgain | internal/agent/runner.go:218-240 | once a completed outcome is stored, over all runs with crashes, lost replies and new leases the task is not executed again and each later acknowledgement completes it with the stored result, until pruning evicts it |
| TaskLease.CompletionsAgree | internal/agent/runner.go:258-262 | in a run that does not evict the task, all its completions carry one result, and it was executed before |
| TaskLease.AcknowledgementsAreTrue | internal/agent/runner.go:229-276 | in every run each Complete sent carries the result, and each Fail the result, message and retryable flag with its delay of 5 or 0, of an execution of that task that ended so |
| TaskLease.EndingsAreSteps | internal/agent/runner.go:229-248 | each of those endings is the return of an execution of that task earlier in the run |
| TaskLease.ExecutesOnlyUnknown | internal/agent/runner.go:218-231 | a task is executed only while the store holds nothing for it, and a put never overwrites |
| TaskLease.HowOutcomesLeave | internal/agent/runner.go:221-228 | an outcome leaves iff it is pruned, dropped as a retryable failure on a new claim, or removed after an acknowledgement; a completed one by pruning only |
| TaskLease.WhenFailuresAreForgotten | internal/agent/runner.go:251-276 | the removal after an acknowledgement follows exactly the accepted report of a retryable failure just executed, or a 404 or 409 to the report of a failure |
| TaskLease.LostLeaseIsSilent | internal/agent/runner.go:232-234 | a lease loss seen before the check stores nothing and acknowledges nothing until the next claim |
| TaskExecution.RunHeartbeats | internal/agent/runner.go:301-327 | the lease counts as lost iff some heartbeat was answered 404 or 409 |
| TaskExecution.AcknowledgeTaskOutcome | internal/agent/runner.go:258-276 | sends the one acknowledgement that the outcome calls for and removes only a failure whose lease is definitely lost |
| TaskExecution.ExecuteClaimedTask | internal/agent/runner.go:211-256 | from any idle state, with whatever history and store, a call is a run of the step system that leads to an idle state and appends to that history; a settled outcome in the store is acknowledged again and not executed, an unknown task or a retryable failure is executed once, anything malformed or unreadable is left alone, and store and acknowledgements are exactly those that follow; a success is reported as Complete with its result and a failure as Fail with result, message, retryable flag and delay, and the entry stored says the same |
| TaskExecution.CalledIsPlain | internal/agent/runner.go:229-276 | when a task is executed, and that its acknowledgement and the entry stored say how the execution ended, on the fields themselves |
| TaskExecution.CallsStayReachable | internal/agent/runner.go:198-209 | a call made in a reachable state, after any wait, leaves a reachable state with the call's executions and acknowledgements appended |
| TaskExecution.CompletedIsRepeated | internal/agent/runner.go:218-222 | a call that finds a completed outcome of its task executes nothing, changes nothing and completes the task with the stored result |
| TaskExecution.CompletedStays | internal/agent/runner.go:211-256 | no call changes a completed outcome; only the pruning in a call of another task may take it away |
| TaskExecution.CallsNeverRepeatATask | internal/agent/runner.go:198-256 | over any number of calls, a task whose completed outcome stays in the store is never executed, and each acknowledgement completes it with the same result |
| TaskExecution.AcknowledgeCached | internal/agent/runner.go:218-222 | reporting the stored outcome: one acknowledgement, no execution |
| TaskExecution.ExecuteUncached | internal/agent/runner.go:229-255 | exactly one execution; a lost lease ends the call with nothing stored or sent; what is stored and sent is what the execution's ending calls for (spelled out in `CalledIsPlain`) |
| TaskExecution.StoreAndAcknowledge | internal/agent/runner.go:235-255 | the outcome is stored and acknowledged, unless the store cannot be read or written or its pruning hangs, and forgotten exactly when the answer calls for it |
| JsonValues.MergeKeepsTheRest | internal/agent/kubernetes_runtime.go:479 | merge patch (section 2 of RFC 7396) leaves what the patch does not mention |
| JsonValues.MergeSetsLeaves | internal/agent/kubernetes_runtime.go:479 | and sets its leaves, a null removing what was there |
| ServiceAllocations.PreserveServiceAllocations | internal/agent/kubernetes_runtime.go:542-566 | the loops compute the desired Service with its unset allocations filled from the existing one |
| ServiceAllocations.CopyUnsetKeys | internal/agent/kubernetes_runtime.go:545-549 | fills exactly the listed keys that are unset |
| ServiceAllocations.TableHoldsLastPort | internal/agent/kubernetes_runtime.go:550-554 | the port table holds for each key the last port object with it |
| ServiceAllocations.PreserveOnlyFills | internal/agent/kubernetes_runtime.go:542-566 | no value that the desired Service sets is changed, at any depth |
| ServiceAllocations.AllocationIs | internal/agent/kubernetes_runtime.go:545-549 | each of the five allocation keys is the desired one, or the existing one where the desired is unset or null and the existing is not |
| ServiceAllocations.PortsAre | internal/agent/kubernetes_runtime.go:550-565 | each port is the desired port, given the node port of the last existing port of that name (or port number) where it has none |
| ServiceAllocations.PreserveIsIdempotent | internal/agent/kubernetes_runtime.go:542-566 | filling twice from the same Service changes nothing more |
| ServiceAllocations.FilledTwice | internal/agent/kubernetes_runtime.go:542-566 | filling from one Service and then another equals filling from the second alone iff nothing the first contributed differs in the second |
| OptimisticWrites.ApiServer.Write | internal/agent/kubernetes_runtime.go:446-452 | the server accepts a write only on top of the version it names, if it names one; it fails, conflicts or succeeds exactly as faults, interference and that version say |
| OptimisticWrites.ReplaceWithResourceVersion | internal/agent/kubernetes_runtime.go:429-458 | under any interference: at most one agent write, computed from the very version it overwrites; success means it is the latest; repeated conflicts mean none, after three attempts; how the loop ends is exactly what the turns of the three rounds make of it; what that body is, path by path, say the rows below |
| OptimisticWrites.PatchWithResourceVersion | internal/agent/kubernetes_runtime.go:460-491 | the same for the merge patch |
| OptimisticWrites.GuardedWriteFollowsRead | internal/agent/kubernetes_runtime.go:442-452 | a write that names the version read lands right on top of it or nowhere |
| OptimisticWrites.ReplacementIsConditional | internal/agent/kubernetes_runtime.go:442 | the replacement names the version read if the manifest has a metadata object, and none otherwise |
| OptimisticWrites.ReplacementIsTheManifest | internal/agent/kubernetes_runtime.go:438-446 | for a kind other than Service, the version written reads as the manifest on every path apart from metadata.resourceVersion |
| OptimisticWrites.ServiceReplacementIsTheManifest | internal/agent/kubernetes_runtime.go:438-446 | for any kind the same on every path apart from that, the five allocation keys and the ports |
| OptimisticWrites.ServiceSpecIsFilled | internal/agent/kubernetes_runtime.go:443-445 | a Service's spec is the manifest's, filled from the very version overwritten |
| OptimisticWrites.PatchKeepsConcurrentUpdates | internal/agent/kubernetes_runtime.go:460-491 | a successful patch leaves every path it does not mention as the preceding version had it |
| RuntimePatches.LeafPatchChangesOneLeaf | internal/agent/kubernetes_runtime.go:252-261 | a patch with one leaf sets it and changes nothing else but the resource version |
| RuntimePatches.ScaleChangesOnlyReplicas | internal/agent/kubernetes_runtime.go:228-229 | scaling sets spec.replicas and changes nothing else |
| RuntimePatches.RestartChangesOnlyTheAnnotation | internal/agent/kubernetes_runtime.go:252-261 | restarting sets one annotation of the pod template and changes nothing else |
| RuntimePatches.PvcUpdateSetsStorage | internal/agent/kubernetes_runtime.go:534-538 | updating a claim sets spec.resources.requests.storage to the manifest's value, or removes it when that is null or missing |
| RuntimePatches.PvcUpdateSetsMentioned | internal/agent/kubernetes_runtime.go:530-533 | a label or annotation that the manifest sets is set on the claim, and one it sets to null is removed |
| RuntimePatches.PvcUpdateChangesOnlyStorage | internal/agent/kubernetes_runtime.go:524-540 | updating a claim changes no spec field but the requested storage |
| RuntimePatches.WhenUnmentionedSurvives | internal/agent/kubernetes_runtime.go:530-533 | a label or annotation that the claim has and the manifest does not mention survives iff the manifest has a labels or annotations object |
| RuntimePatches.FieldIsReplaced | internal/agent/kubernetes_runtime.go:530-533 | labels or annotations missing from the manifest are removed from the claim; any other value that is no object takes their place |
| RuntimeApply.ValidateRuntimeManifests | internal/agent/kubernetes_runtime.go:157-189 | accepts exactly the lists of 1 to 100 faultless manifests, and otherwise names the first fault |
| RuntimeApply.FaultsAreExact | internal/agent/kubernetes_runtime.go:165-186 | which fault a manifest has, if any, as equivalences on its kind, name, namespace and owner label read at their paths |
| RuntimeApply.ValidatedReplacementIsConditional | internal/agent/kubernetes_runtime.go:164-187 | a validated manifest has a metadata object, so its replacement always names the version read, also after the Service's allocations were filled in |
| RuntimeApply.UpdateManifest | internal/agent/kubernetes_runtime.go:118-138 | updating an existing object: at most one agent write, made from the version it overwrites and, for a Service, from the version first read; how it ends is exactly what the turns make of it; after a success the latest version reads as the manifest on every path apart from the resource version and, for a Service, from the allocations |
| RuntimeApply.AppliedStoresManifest | internal/agent/kubernetes_runtime.go:118-138 | the version that the agent's update made of a manifest reads as the manifest on those paths |
| RuntimeApply.StoredAllocationIs | internal/agent/kubernetes_runtime.go:131-134 | an allocation stored is the manifest's, else the first read's, else that of the version overwritten |
| RuntimeApply.FirstReadLeaksExactly | internal/agent/kubernetes_runtime.go:131-134 | the body sent for a Service is what the manifest and the version overwritten alone would give iff nothing the first read contributed differs in that version |
| RuntimeApply.FirstReadReachesTheServer | internal/agent/kubernetes_runtime.go:131-134 | the same of the version that the server ends up with |
| RuntimeApply.FirstReadCanLeak | internal/agent/kubernetes_runtime.go:131-134 | a manifest that passes the validation, and two versions as the server stores them, for which it differs |
| RuntimeApply.FirstAllocationIsSent | internal/agent/kubernetes_runtime.go:131-134 | an allocation that the manifest leaves open and the first read has is sent, whatever the version overwritten says |
| RuntimeApply.LeakingRun | internal/agent/kubernetes_runtime.go:118-134 | for every such Service, a run in which another client takes the allocation away between the reads and the update stores it again |
| Pagination.List | internal/agent/kubernetes_client.go:217-258 | requests follow the continue tokens and ask for what still fits; the result is the pages' concatenation cut at 2000 items, a repeated token, or the failed request |
| Pagination.AnswersAreUnique | internal/agent/kubernetes_client.go:217-258 | the replies determine requests and result: nothing else meets that contract |
| Pagination.RequestsAreBounded | internal/agent/kubernetes_client.go:251-255 | requests number at most the distinct tokens plus one |
| Pagination.WhenListIsWhole | internal/agent/kubernetes_client.go:241-257 | the result is the whole list iff the pages hold at most 2000 items, which they do when the server honours the limits; it is incomplete without being marked truncated iff the last page has no token and overruns |
| Pagination.HonouredLimitsFit | internal/agent/kubernetes_client.go:225-230 | pages within the requested limits total at most 2000 |
| Pagination.OverrunIsSilent | internal/agent/kubernetes_client.go:241-250 | a first and last page of more than 2000 items is answered by a cut list that is not marked truncated |
| DrainPods.SelectDrainPods | internal/agent/kubernetes_node_lifecycle.go:350-387 | all or nothing: refuses iff some pod fails the options, naming the first; else returns the pods to evict and those skipped, in order; and each of these on the pods' own fields: phase, deletion, mirror annotation, owners in order, local volumes, and the three options |
| DrainPods.PodController | internal/agent/kubernetes_node_lifecycle.go:389-397 | the kind of the first controlling owner |
| DrainPods.WithIsExact | internal/agent/kubernetes_node_lifecycle.go:350-387 | a part of the selection names exactly the pods with that fate |
| DrainPods.FateOnFields | internal/agent/kubernetes_node_lifecycle.go:364-384 | when a pod is ignored, skipped, refused or evicted, as an equivalence on its fields and the options |
| DrainPods.WithPicks | internal/agent/kubernetes_node_lifecycle.go:350-387 | a part of the selection is, in order and once each, the pods whose fields and the options give that fate |
| DrainPods.PartsAddUp | internal/agent/kubernetes_node_lifecycle.go:350-387 | ignored, skipped and evicted pods add up to the list |
| DrainPods.EvictionsRespectOptions | internal/agent/kubernetes_node_lifecycle.go:378-384 | no pod selected for eviction violates deleteEmptyDirData or force |
| DrainSteps.CordonNode | internal/agent/kubernetes_node_lifecycle.go:244-273 | only reads of the node and patches to unschedulable=true are sent; success means the last answer showed the node unschedulable, failure that time is up, the last answer is a refusal or three patches conflicted |
| DrainSteps.ListPodsOnNode | internal/agent/kubernetes_node_lifecycle.go:316-348 | each request carries the token of the page before and asks for what still fits; success returns the concatenation of all pages up to the one without a token; requests number at most the distinct tokens plus one; each failure has its reason in the log |
| DrainSteps.EvictPodUntilAccepted | internal/agent/kubernetes_node_lifecycle.go:408-435 | success means the last eviction was accepted or answered 404, all before it 429, all of this pod; failure means that time is up or another answer came |
| DrainSteps.PassOver | internal/agent/kubernetes_node_lifecycle.go:440-451 | the in-place filter keeps exactly the pods not answered 404, in order |
| DrainSteps.WaitForPodsDeleted | internal/agent/kubernetes_node_lifecycle.go:437-460 | success means every pod was seen absent by name, failure that time is up or a request was refused; the caller's pods stay as they are |
| DrainSteps.StillThereOrAbsent | internal/agent/kubernetes_node_lifecycle.go:441-450 | a pod that the filter drops was answered 404 |
| DrainNode.DrainTheNode | internal/agent/kubernetes_node_lifecycle.go:282-314 | in every run, evictions come after the cordon and the complete listing, one chain of pages from the first along the tokens to the last, and only if every listed pod passed; on success every listed pod was exempt, or evicted and then seen absent, and the report is exact; each failure has its reason in the log; success in terms of the fields of each pod that some page answered, and evictions only of pods that the fields and options allow |
| DrainNode.DrainListed | internal/agent/kubernetes_node_lifecycle.go:293-313 | the same for the part after the listing |
| DrainNode.EvictAll | internal/agent/kubernetes_node_lifecycle.go:297-303 | evicts a prefix of the candidates, all of them accepted or already gone, and stops short only for a reason |
| DrainNode.EvictionsAreJustified | internal/agent/kubernetes_node_lifecycle.go:285-303 | a log made of a cordon, a complete chain of pages, evictions and looks shows each eviction justified |
| DrainNode.EveryPodIsListed | internal/agent/kubernetes_node_lifecycle.go:316-348 | every pod on an answered page counts as listed |
| DrainNode.ListedPageByPage | internal/agent/kubernetes_node_lifecycle.go:316-348 | and nothing else does, in the order of the pages |
| DrainNode.DrainedIsEmptied | internal/agent/kubernetes_node_lifecycle.go:304-313 | a drained node holds only pods that are deleting, finished, mirrored, of a DaemonSet to be ignored, or evicted and gone |
| DrainNode.JustifiedIsDue | internal/agent/kubernetes_node_lifecycle.go:297-303 | each eviction names a listed pod whose fields and the options call for it |
| WorkerPaths.ConfinedWorkerPath | internal/agent/worker_paths.go:107-143 | the loops compute the confinement of the cleaned candidate by the root as given: it answers a path iff the root and the candidate's longest existing prefix resolve, the path is where that prefix leads followed by the remaining names, and the root is a prefix of it |
| WorkerPaths.NearestExisting | internal/agent/worker_paths.go:113-129 | the climb ends and splits the path at its nearest existing ancestor |
| WorkerPaths.ExistingDepthIsNearest | internal/agent/worker_paths.go:113-129 | that ancestor exists and everything between it and the path does not |
| WorkerPaths.ConfinedAccepts | internal/agent/worker_paths.go:107-143 | the equivalence for `Confined` itself, for all roots and candidates |
| WorkerPaths.ExistingIsResolved | internal/agent/worker_paths.go:107-143 | a candidate that resolves is answered by where it resolves to |
| WorkerPaths.PlainPathsAreKept | internal/agent/worker_paths.go:107-143 | a link-free candidate under a link-free root is answered by itself, whether or not its end exists |
| WorkerPaths.SplitIsExact | internal/agent/worker_paths.go:107-112 | the components of a path, joined by slashes, are its text |
| WorkerPaths.CleaningLeadsToTheSamePlace | internal/agent/worker_paths.go:112 | without links, a path leads to its cleaned form |
| WorkerPaths.PathWithinIsPrefix | internal/agent/worker_paths.go:89-92 | the test on the relative path's text is the component-prefix relation |
| WorkerPaths.ConfinedPathsStayInside | internal/agent/worker_paths.go:107-143 | a returned path has the resolved root as prefix, a first part that exists without links, and a rest of which nothing exists |
| WorkerPaths.ConfiningIsIdempotent | internal/agent/worker_paths.go:107-143 | confining a confined path gives it back |
| WorkerPaths.WalkIsResolved | internal/agent/worker_paths.go:108 | resolving links ends at something that exists and is no link |
| WorkerPaths.WalkWithMoreLinks | internal/agent/worker_paths.go:130 | the link limits of the kernel and of EvalSymlinks differ only in when they give up |
| LogicalWorkspace.MapLogicalWorkspace | internal/agent/worker_paths.go:62-87 | the scan equals the recursive leftmost rewriting, and ends |
| LogicalWorkspace.IndexFrom | internal/agent/worker_paths.go:69 | the first match from an index on |
| LogicalWorkspace.GreedyIsUnique | internal/agent/worker_paths.go:68-85 | there is one set of leftmost non-overlapping matches |
| LogicalWorkspace.MappingReplacesBoundedMatches | internal/agent/worker_paths.go:68-85 | exactly those of them bounded on both sides are replaced, and every other character is kept in order |
| LogicalWorkspace.MappedLength | internal/agent/worker_paths.go:67-86 | each replacement changes the length by the difference of the roots |
| LogicalWorkspace.WhenMappingIsIdentity | internal/agent/worker_paths.go:62-87 | the text is unchanged iff nothing is replaced or the actual root is the trimmed logical root |
| LogicalWorkspace.MappingIs | internal/agent/worker_paths.go:62-86 | for a root of slash and text between space and trailing slashes, the mapping replaces exactly the greedy matches that stand alone |
| LogicalWorkspace.UnrootedMapsNothing | internal/agent/worker_paths.go:63-66 | a root that does not start with a slash maps nothing |
| LogicalWorkspace.BlankMapsNothing | internal/agent/worker_paths.go:63-66 | nor does a blank one |
| LogicalWorkspace.OnlySlashesMapNothing | internal/agent/worker_paths.go:63-66 | nor one of slashes only |
| ShellQuoting.QuotingRoundTrip | internal/agent/executor.go:665-670 | tokenising the space-joined quotations of any texts gives back the texts |
| ShellQuoting.QuoteScans | internal/agent/executor.go:665-670 | a quotation adds exactly its text to the current word, wherever it stands |
| ShellQuoting.JoinedScans | internal/agent/executor.go:436-440 | a script of plain and quoted pieces is read as the tokens of its pieces |
| ShellQuoting.TrimmedJoin | internal/agent/executor.go:438 | trimming a joined flag list changes nothing |
| K3sCommands.BuildK3sJoinAgentCommand | internal/agent/executor.go:497-531 | the shell reads the script as the fixed words, the URL and token assignments and exactly the requested arguments in order |
| K3sCommands.BuildK3sInstallServerCommand | internal/agent/executor.go:407-442 | the shell hands the installer one text, and reading that text again gives "server" and exactly the requested arguments in order |
| K3sCommands.JoinFlags | internal/agent/executor.go:499-520 | each flag writes its argument plainly or quoted |
| K3sCommands.ServerFlags | internal/agent/executor.go:409-434 | each flag writes its argument plainly or quoted |
| K3sCommands.CompactStrings | internal/agent/executor.go:654-663 | the loop keeps the non-empty trimmed values in order |
| K3sCommands.TrimmingFirst | internal/agent/executor.go:639-643 | trimming the items of a list before compacting makes no difference |
| K3sCommands.ConfigIs | internal/agent/executor.go:619-628 | a setting is its text or printed value between the space at both ends, and no text when null or missing |
| K3sCommands.ServerAndToken | internal/agent/executor.go:522-523 | which setting gives the server URL and the token |
| K3sCommands.CompactAppends | internal/agent/executor.go:654-663 | each value adds what trimming leaves of it, and nothing when it is all space |
| K3sCommands.FieldsAreTheText | internal/agent/executor.go:644-648 | the fields hold no comma and no line end, and joined by commas they are the text with each separator made a comma |
| K3sCommands.StringListIs | internal/agent/executor.go:630-652 | the first key that holds a list or a text decides |
| K3sCommands.JoinArgumentsAre | internal/agent/executor.go:499-520 | the agent's arguments in order, each value right behind its option's name |
| K3sCommands.ServerArgumentsAre | internal/agent/executor.go:409-434 | and the server's |
| WorkspaceScan.CollectWorkspaceMetrics | internal/agent/worker_metrics.go:102-172 | the counters are those of the first entries in scan order, up to the end, 2048 entries or the deadline, whichever is first |
| WorkspaceScan.ScanDirectory | internal/agent/worker_metrics.go:113-157 | one directory: counts its entries and pushes its subdirectories until it is cut short |
| WorkspaceScan.MeasureWorkspace | internal/agent/worker_metrics.go:94-172 | a scan not cut short counted the whole tree; given time it is cut short iff the tree exceeds 2048 entries; files and directories never exceed entries; the incomplete flag is exact |
| WorkspaceScan.VisitsTotal | internal/agent/worker_metrics.go:112-157 | the stack's scan order holds every entry of the tree once |
| WorkspaceTotals.TotalsCountUnits | internal/agent/worker_metrics.go:112-157 | each total of a tree is the number of its units (entries, files, directories, bytes, bytes allocated) at the end of some path of entry indices |
| WorkspaceTotals.FlawedIs | internal/agent/worker_metrics.go:113-168 | the tree counts as not fully read iff the root or a directory at the end of such a path was not |
| WorkspaceScan.PoppingShrinks | internal/agent/worker_metrics.go:112-114 | opening a directory shrinks what is left to open, so the scan ends |
| BoundedOutput.FirstOfMore | internal/agent/worker_process.go:868-881 | a write adds to the first bytes what still fits |
| BoundedOutput.BoundedBuffer.Write | internal/agent/worker_process.go:868-881 | after any writes the buffer holds the first `limit` bytes of all that was written, and is marked truncated iff there was more |
| BoundedOutput.CappedBuffer.Write | internal/agent/kubernetes_runtime.go:714-724 | after any writes the buffer holds the first `limit` bytes of all that was written |
| BoundedOutput.OpenCappedWorkerLog | internal/agent/worker_process.go:809-838 | rotates a full log, keeps any other, leaves both files within the limit if they were, whichever step fails, and starts with remaining + size = limit; it succeeds iff the limit is positive and no step on the way fails |
| BoundedOutput.CappedWorkerLog.Write | internal/agent/worker_process.go:840-860 | remaining + size = limit is kept, and what lies behind the start offset is the first bytes written since opening |
| BoundedOutput.CappedWorkerLog.WriteShort | internal/agent/worker_process.go:848-855 | the same when the file takes fewer bytes |
| BoundedOutput.ReadFileTailSince | internal/agent/worker_process.go:368-386 | returns at most `limit` bytes, all from behind the start offset; the last ones if the file does not change meanwhile |
| BoundedOutput.StartupTail | internal/agent/worker_process.go:341-345 | the startup diagnostic quotes the end of what this incarnation's log kept, and nothing older |

## Left out

- HTTP, TLS, tokens, URL building and JSON encoding: requests are steps of an abstract server, payloads are typed values.
- Real processes, signals and `/proc`: a table of children that live, exit and are reaped at any time. SIGTERM and SIGKILL do not appear; a child may end, or not, before either deadline of stop.
- The supervisor's operations are steps of a transition system, not methods with loops, because their interleaving with the waiters is the point; only the store's closures are methods of a class. The definition of a process is an opaque hash, and secret files and log files do not appear in that system.
- SupervisorTasks.CreateSettles: like the other results about whole tasks, for a task that no store or OS error and no crash cuts short; what those leave behind is the subject of the invariant.
- SupervisorSafety.AtMostOneLive: says nothing about children that the agent let go of, because two children of a process can then be live.
- DrainNode.DrainTheNode: absence is observed by name, as the code does; a new pod of the same name counts as still there.
- Supervisor.Failed: stop writes into its inspection's result before it looks at the error (`worker_process.go:431-432`), so an inspection that fails inside stop crashes the agent instead of ending the task. The step system has both: such a failure ends the task, and a crash may happen at any step.
- File durability: a store write is atomic. The directory layout under `.monkeys` is not modelled.
- Liveness of drain and stop: eviction is by name, and stop gives up after SIGKILL, so only safety is stated.
- DrainSteps.CordonNode: its log holds the value that a patch asks for; what such a patch does to a node on a server with other writers is `RuntimePatches.LeafPatchChangesOneLeaf`. The three rounds are written out here because the two models of a server differ: one answers from a script, the other keeps an object's versions.
- DrainPods.SelectDrainPods: error texts are reduced to the reason and the pod.
- OptimisticWrites.ReplaceWithResourceVersion: that the body is computed from the version it overwrites is claimed for manifests with a metadata object, which the validation of manifests guarantees.
- RuntimePatches.PvcUpdateSetsStorage: for a requested storage that is not itself an object; a merge patch would merge such an object into the old value.
- RuntimeApply.UpdateManifest: the creation of an object that the first read does not find is not modelled.
- OptimisticWrites.PatchWithResourceVersion: each attempt's deep copy of the patch is a value here, so aliasing between attempts cannot be expressed; the same holds for the manifest and the Service's spec in the replace loop.
- WorkerPaths.ConfinedWorkerPath: the filesystem is a snapshot, so changes between the climb and the use of the path are not covered. Permissions and name length limits are not modelled.
- LogicalWorkspace.MapLogicalWorkspace: works on characters, the code on bytes; an offset inside a multi-byte character does not occur, since the logical root starts with a slash.
- K3sCommands.BuildK3sInstallServerCommand: the installer is taken to read its variable by POSIX token recognition; what the installer script itself does is not modelled. NUL characters, which no process argument can hold, are not excluded.
- The other builders in `executor.go` (HAMi, agent update), `kubectl` and `systemctl` actions, and `executePlan`, which accumulates results in one loop: single-branch code or I/O.
- `runtimeIdentity`, `kubernetesCollection`, the option parsers of the drain, and `worker_paths.go`'s `resolve` and `runtimeWorkspace`: input checks that state nothing beyond their branches.
- WorkspaceScan.CollectWorkspaceMetrics: the tree does not change during the scan, and batches of 64 entries are one listing, cut where reading fails.
- BoundedOutput.CappedWorkerLog.Write: one opener at a time; two openers of the same file, as after a stray child, are not covered.
- TaskLease.NeverAgain: holds until pruning evicts the outcome, after seven days or by overflow.
- Discovery, telemetry, GPU parsing, status summaries, install scripts and build tools.
