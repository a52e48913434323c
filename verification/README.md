# Verified model of the AMD GPU device config manager

The device config manager partitions the GPUs of one Kubernetes node. It reads a
profile from a config file, moves every usable GPU to the requested compute and
memory mode through AMD SMI, publishes the outcome as a node label, and retries
for 30 minutes. Systemd services that use the GPUs are stopped before an attempt
and restarted afterwards. A new trigger cancels the current run and starts a new
one.

This project models that program in Dafny and proves what it keeps. Every file
holds one module.

| file | content |
|---|---|
| `Profiles.dfy` | profiles, validation, the usable GPUs, the allocation of groups to GPUs |
| `Duplicates.dfy` | the duplicate-name check and the last-wins map of profiles |
| `Capability.dfy` | decoding of the memory capability mask, conversion of mode names |
| `Recovery.dfy` | polling after a kernel-module-manager (KMM) recovery |
| `Engine.dfy` | one `PartitionGPU` call as a function of the state and of everything AMD SMI answers |
| `ConfigManagers.dfy` | the same call as methods of an object that update its fields and the status array in place |
| `EngineFacts.dfy` | what one call guarantees whatever AMD SMI answers |
| `Reports.dfy` | what a call reports in the end, told from the raw answers |
| `Witnesses.dfy` | concrete calls: one that fails, and two rejections that are retried |
| `Hives.dfy` | end-to-end correctness and idempotence on a hive-wide device |
| `Services.dfy` | stopping and restarting services over the map of pre-states |
| `System.dfy` | triggers, worker, runs, clock and outside world as interleaved steps |
| `Serialisation.dfy` | one live run, balanced sessions, bounded cancellation |
| `Timing.dfy` | the attempt bound and the termination of a run |
| `Settling.dfy` | label and config file at rest |
| `Persistence.dfy` | a run gives up only after 30 minutes, the bound on its attempts is reached, cancellation is bounded |
| `Requests.dfy` | the fate of the profiles that requests carry |
| `Restoration.dfy` | services over any number of retries and cancelled runs |
| `Stranding.dfy` | two concrete interleavings that leave a service stopped |
| `RetryLoop.dfy` | `RetryPartition` as a loop over the steps of `System.dfy`, interleaved with everything else |
| `NodeLabels.dfy` | the label update against other writers |

What the program cannot control is a parameter: the answers of AMD SMI by loop
iteration (`Engine.Session`), the decoded config file (`Engine.ConfigFile`), the
answers of systemd, the writes of other Kubernetes clients, the order in which the
parts of the system act (a sequence of `System.Event`), and the clock (an event
that advances a counter of seconds). AMD SMI answers are arbitrary in
`EngineFacts.dfy`; `Hives.dfy` adds the device assumptions as `HiveRun`: reads
report the hive, a memory set and reload gives every GPU one memory mode (the old
or the requested one) and arbitrary compute modes, a successful compute set
changes its own GPU only, and nothing changes after an early return.

## What turned out false

- A recovery for one GPU overwrites the failure of another: the label says
  "success" while a status entry says "Failure". This happens exactly on nodes that
  try recoveries (KMM on and node name known): `EngineFacts.RecoveryMasksFailureExactly`.
- A first processor that is not a GPU stops the index for good, and the call still
  reports success: `EngineFacts.NonGpuReportsSuccess`. The index counts the
  iterations exactly when every first processor is a GPU: `EngineFacts.IndexCounts`.
- A rejection before line 528 of configmanager.go returns an error, and is retried,
  exactly when an earlier call left the flag true: `EngineFacts.RetryExactly`, with
  two calls in a row that show it in `Witnesses.StaleFlagRetried`.
- On a hive with mixed memory modes a later reload can undo a GPU that already
  matched. A plan is safe exactly when only its first GPU can switch memory:
  `Hives.EndToEndExactly`, with a run that breaks any other plan in
  `Hives.SwitchLaterBreaks`. A uniform hive always is safe, and stays uniform over
  failed attempts: `Hives.EndToEnd`, `Hives.EndToEndOverAttempts`.
- When the service list changes between a cancelled run and the run that
  finishes, services missing from the new list stay stopped. All come back exactly
  when the list covers every recorded active unit: `Restoration.FinishRestoresExactly`.
  `Stranding.ServiceDroppedFromList` reaches a finish where it does not.
- A run that stops on an unreadable config file restarts nothing:
  `Stranding.ServiceStranded`, `Restoration.RestingServices`.
- Label and final status need not agree at rest: a run that stops on an unreadable
  config file sets the label "failure" and leaves the final status as it was, which
  may be "Success" (`Settling.FinalStatusLeftOver`). In every other case they agree:
  `Settling.LabelSettles`.
- Not every request is followed by a run of its profile: two requests in a row lose
  the second in `Settling.DroppedProfileIsLost`. A request is sure to be run exactly
  when the slot is empty, or its profile is the one buffered or held by the worker
  already: `Requests.RequestRunExactly`. Accepted requests are all run, once each and
  in order: `Requests.AcceptedAllRun`. A change of the config file is never lost:
  `Settling.NoLostChange`.

Where code and documentation differ, the model follows the code.
docs/configuration/configmap.md lists NPS1, NPS2 and NPS4 and restricts the
combinations of modes; the code accepts NPS8 and every combination of valid modes,
and leaves it to the device to refuse one. docs/systemd_integration.md appends
".service" to every name; the code appends it only where it is missing. The comment
at lines 588-594 of configmanager.go says that an unsupported mode is not retried;
it is retried when an earlier GPU of the same call failed
(`Witnesses.UnsupportedModeRetried`).

## Model

| member | source | states |
|---|---|---|
| Profiles.ValidateList | pkg/config_manager/configmanager.go:785-792 | true exactly for members of the list |
| Profiles.CheckInvalidPartitionType | pkg/config_manager/configmanager.go:794-805 | no error exactly for valid compute and memory types, and which of the two errors otherwise |
| Profiles.ValidateProfile | pkg/config_manager/configmanager.go:344-394 | the loops compute the verdict function, for every profile that has a first group when line 375 reads it |
| Profiles.ValidateExact | pkg/config_manager/configmanager.go:344-394 | accepted exactly when ids are in range, counts add up to the sockets, all types are valid and the memory type is common |
| Profiles.VerdictExact | pkg/config_manager/configmanager.go:344-374 | which error is reported: a list that is too long, then an id out of range, then wrong counts |
| Profiles.FirstOffender | pkg/config_manager/configmanager.go:376-388 | the first offending group decides the error, an invalid type before a mixed memory type |
| Profiles.CreateGPUIDList | pkg/config_manager/configmanager.go:281-293 | the nested loops compute the usable list |
| Profiles.UsableIsComplement | pkg/config_manager/configmanager.go:281-293 | the usable list is the ascending complement of the skip list |
| Profiles.UsableCount | pkg/config_manager/configmanager.go:281-293 | usable GPUs and distinct skipped GPUs add up to the total |
| Profiles.AllocationFits | pkg/config_manager/configmanager.go:364-374 | accepted counts never exceed the usable GPUs, even with repeated ids, and use all of them exactly when the ids are distinct |
| Profiles.AllocationIsFlat | pkg/config_manager/configmanager.go:524-536 | the k-th usable GPU gets the group whose prefix range holds k; it exists and is not skipped |
| Profiles.AllocationBijective | pkg/config_manager/configmanager.go:344-394 | positions get different GPUs, and all usable GPUs are assigned exactly when the skip ids are distinct |
| Duplicates.DetectDuplicateKeys | pkg/config_manager/configmanager.go:822-840 | the loop over the keys returns the repeated ones |
| Duplicates.RepeatedCount | pkg/config_manager/configmanager.go:822-840 | each key is listed one time fewer than it occurs |
| Duplicates.RepeatedExact | pkg/config_manager/configmanager.go:837-840 | no error exactly when all keys are distinct |
| Duplicates.LastWinsUnique | pkg/config_manager/configmanager.go:881-891 | without duplicates the last-wins map gives the unique entry of the file |
| Capability.GetSupportedMemoryPartitionType | pkg/config_manager/configmanager.go:295-342 | the error, a list of exactly the modes whose mask bit is set, or with the low four bits clear the current mode |
| Capability.SupportedExact | pkg/config_manager/configmanager.go:303-342 | for all masks and modes: NPS order, no repetition; with a low bit set exactly the modes whose mask bit is set, otherwise exactly the current mode |
| Capability.ConvertersExact | pkg/config_manager/configmanager.go:192-222 | every valid name goes to its AMD SMI constant, and back exactly for valid names |
| Recovery.PollMemory | pkg/config_manager/configmanager.go:446-475 | ends on every trace of reads, succeeds exactly when some poll before the timeout wins matches, and then the last read matched, however long the reads take |
| Recovery.NextPollTime | pkg/config_manager/configmanager.go:446-465 | when the next poll begins: after a slow read at once, otherwise at the next multiple of 5 seconds |
| Recovery.PollsInTime | pkg/config_manager/configmanager.go:446-465 | polls begin before 5 minutes have passed, except those in which a ready tick is preferred to the timeout |
| Recovery.PollsOfFastReads | pkg/config_manager/configmanager.go:446-465 | reads faster than the ticker are polled 59 times, or 60 if the last tick beats the timeout |
| ConfigManagers.ConfigManager.PopulateGPUEventStatus | pkg/config_manager/configmanager.go:420-426 | writes one entry of the status array and nothing else |
| ConfigManagers.ConfigManager.RetryMemoryPartitionWithWait | pkg/config_manager/configmanager.go:430-475 | the new flag, and the final status unchanged on every path |
| ConfigManagers.ConfigManager.MemoryPartition | pkg/config_manager/configmanager.go:574-660 | the memory phase in place computes the engine's memory phase |
| ConfigManagers.ConfigManager.ComputePartition | pkg/config_manager/configmanager.go:662-710 | the compute phase in place computes the engine's compute phase |
| ConfigManagers.ConfigManager.VisitGpu | pkg/config_manager/configmanager.go:535-718 | the loop body in place computes one visit of the engine |
| ConfigManagers.ConfigManager.VisitGroup | pkg/config_manager/configmanager.go:533-719 | the inner loop advances the flat run by the GPUs of one group |
| ConfigManagers.ConfigManager.VisitGroups | pkg/config_manager/configmanager.go:529-723 | the nested loops compute the run over the flat list of requests, early returns included |
| ConfigManagers.ConfigManager.AmdSmiHelper | pkg/config_manager/configmanager.go:477-746 | the whole helper computes the engine's helper |
| ConfigManagers.ConfigManager.PartitionGPU | pkg/config_manager/configmanager.go:843-924 | the whole call computes the engine's outcome, state and error |
| EngineFacts.VisitFacts | pkg/config_manager/configmanager.go:535-718 | for any answers: when an iteration returns early, what it does to flag, index and label, which calls it makes, which entry, status code and reason it leaves, early returns included |
| Reports.StoppedReport | pkg/config_manager/configmanager.go:848-917 | a call that stops before the helper: the whole outcome, and which reason comes first |
| Reports.EarlyReport | pkg/config_manager/configmanager.go:481-524 | a call turned away before the flag is cleared: the whole outcome |
| Reports.MemoryStepReport | pkg/config_manager/configmanager.go:624-660 | without recovery a memory set raises the flag and fails its entry exactly when its status is not 0 or the mode read back is the old one |
| Reports.MemoryFailureReported | pkg/config_manager/configmanager.go:624-660 | such a failure is an error of the call, with the label "failure" and the entry "Failure" in the end |
| Reports.ErrorExactly | pkg/config_manager/configmanager.go:528-723 | without recovery an error of a call that gets to the loop means exactly that some memory or compute set failed, told from the raw answers |
| Reports.LeftExactly | pkg/config_manager/configmanager.go:544-697 | a loop is left early exactly when an iteration it reaches ends the call |
| Reports.LeftEarlyReport | pkg/config_manager/configmanager.go:544-697 | at the index the rejected GPU with its pair, "Failure" and the message of the one of four early returns, below it the entries before, above it blank entries |
| Reports.LeftEarlyShape | pkg/config_manager/configmanager.go:544-697 | the whole status array of such a call in closed form, without recovery and on GPUs |
| Reports.FailureReason | pkg/config_manager/configmanager.go:699-716 | a failure is reported with the status of the last step that failed |
| Reports.SuccessExactly | pkg/config_manager/configmanager.go:725-743 | success exactly when the loop runs, no iteration ends the call and no failure is open; the reason tells whether a GPU was changed |
| EngineFacts.RecoveryReport | pkg/config_manager/configmanager.go:430-445 | during a recovery the entry is "Pending" and the reason says that the driver is waited for |
| EngineFacts.LabelMatchesFinal | pkg/config_manager/configmanager.go:843-924 | after every call, over all early returns, the label is "success" or "failure", and "success" exactly when the final status is |
| EngineFacts.FlagExact | pkg/config_manager/configmanager.go:528-723 | the flag is true exactly when a reached step failed and no later recovery succeeded |
| EngineFacts.PrepareExact | pkg/config_manager/configmanager.go:848-917 | exactly when a call reaches the helper, and with which profile |
| EngineFacts.RetryExactly | pkg/config_manager/configmanager.go:854-923 | exactly when a call returns an error, including the stale flag on early rejections |
| EngineFacts.PermanentRejection | pkg/config_manager/configmanager.go:588-614 | from a cleared flag a rejection with no failed step in the iterations reached returns no error |
| EngineFacts.RetriedExactlyOnFailure | pkg/config_manager/configmanager.go:854-923 | without recovery and from a cleared flag, an error exactly when a reached step failed |
| Witnesses.StaleFlagRetried | pkg/config_manager/configmanager.go:482-528 | after a failed call, a call rejected before the flag is cleared returns an error that it would not return otherwise |
| Witnesses.UnsupportedModeRetried | pkg/config_manager/configmanager.go:588-614 | an unsupported mode after a failed step of an earlier GPU returns an error |
| EngineFacts.IndexCounts | pkg/config_manager/configmanager.go:556-559 | the index equals the iterations exactly when all first processors are GPUs |
| EngineFacts.StatusExact | pkg/config_manager/configmanager.go:564-570 | without recovery, the status array and the flag in closed form over the answers |
| EngineFacts.StatusShape | pkg/config_manager/configmanager.go:699-716 | success before the first failing position, failure at it, failure after it unless the GPU already matched |
| EngineFacts.WrittenBelowIndex | pkg/config_manager/configmanager.go:526-719 | the written entries are exactly those below the index |
| EngineFacts.IndexStuck | pkg/config_manager/configmanager.go:556-559 | with stable processor types nothing changes after the first non-GPU |
| EngineFacts.NonGpuReportsSuccess | pkg/config_manager/configmanager.go:556-559 | a non-GPU first processor gives "success" with no call and no entry |
| EngineFacts.CallsSanctioned | pkg/config_manager/configmanager.go:575-621 | every call belongs to an iteration, targets its GPU, and a memory set uses a supported mode |
| EngineFacts.SkippedGpusUntouched | pkg/config_manager/configmanager.go:529-719 | no set call targets a skipped GPU or an undocumented mode; reloads only off KMM |
| EngineFacts.SuccessIsHonest | pkg/config_manager/configmanager.go:643-653 | without recovery "success" leaves no failure entry |
| EngineFacts.RecoveryMasksFailure | pkg/config_manager/configmanager.go:643-653 | with recovery there is a session that ends with "success" and a failure entry |
| EngineFacts.RecoveryMasksFailureExactly | pkg/config_manager/configmanager.go:643-653 | success is honest for all sessions exactly on nodes that are unnamed or have KMM off |
| Hives.RunProgress | pkg/config_manager/configmanager.go:529-719 | after the first iteration no memory switch happens and compute modes set so far stay |
| Hives.EndToEnd | pkg/config_manager/configmanager.go:375-387 | off KMM, all GPUs, uniform hive: "success" means every assigned GPU holds its requested pair |
| Hives.UniformKept | pkg/config_manager/configmanager.go:529-719 | a hive with one memory mode keeps one through every call, whichever steps fail and wherever the loop is left |
| Hives.EndToEndOverAttempts | pkg/config_manager/configmanager.go:1031-1073 | off KMM, uniform hive at the start: after any earlier attempts of any profiles, an attempt that ends with "success" ran its loop and every GPU it assigns holds its requested pair |
| Hives.EndToEndExactly | pkg/config_manager/configmanager.go:375-387 | clean runs always configure a hive exactly when only the first GPU can switch memory |
| Hives.SwitchLaterBreaks | pkg/config_manager/configmanager.go:561-570 | any other hive has a run that ends with "success" and the first GPU in another valid compute mode than its entry says |
| Hives.SecondRunChangesNothing | pkg/config_manager/configmanager.go:561-570 | a second run makes no call, reports "not required" everywhere and ends with "success" |
| Services.ServiceManager.StopService | pkg/partition/utils/utils.go:34-66 | stops a loaded unit, refuses a missing one, reports a call that fails |
| Services.ServiceManager.StartService | pkg/partition/utils/utils.go:34-57 | starts a unit unless it is already active, reports a call that fails |
| Services.ServiceManager.CleanupPreState | pkg/partition/utils/utils.go:68-76 | empties the map of records |
| Services.ServiceManager.StopServiceHandler | pkg/partition/utils/utils.go:106-146 | the loop computes the fold of single stops |
| Services.ServiceManager.StartServiceHandler | pkg/partition/utils/utils.go:78-104 | the loop computes the fold of single starts, then the cleanup |
| Services.StopHandlesConfigured | pkg/partition/utils/utils.go:106-146 | stopping records and stops exactly the units of the configured names, ".service" appended where it is missing, and touches no other unit |
| Services.StartHandlesConfigured | pkg/partition/utils/utils.go:78-104 | starting starts exactly the units of the configured names that are recorded as "active", and touches no other unit |
| Services.RecordsKept | pkg/partition/utils/utils.go:115-124 | a record is never overwritten |
| Services.StopAllKeeps | pkg/partition/utils/utils.go:106-146 | records stay the first status, recorded active units are down, exactly listed units get records |
| Services.RestoresExactly | pkg/partition/utils/utils.go:78-104 | the active units are those of the first stop exactly when the list covers the recorded active ones |
| Services.StopThenStart | pkg/partition/utils/utils.go:78-146 | stopping and starting the same list is a round trip on the active units |
| Serialisation.StepKeeps | pkg/config_manager/configmanager.go:1077-1104 | every step of every part keeps the protocol invariant |
| Serialisation.AtMostOneRun | pkg/config_manager/configmanager.go:1077-1095 | wait group = live runs <= 1; sessions balanced, one open exactly while a run is in the helper |
| Serialisation.AtMostOneLateAttempt | pkg/config_manager/configmanager.go:1032-1051 | after its cancel a run starts at most one attempt, and only if the cancel came after the head check |
| Serialisation.CancelledRunEndsQuietly | pkg/config_manager/configmanager.go:1032-1067 | a run cancelled at the head or in its wait: over every interleaving until the next spawn no further attempt, records intact, and no end but "cancelled" |
| Persistence.AttemptsAfterCancel | pkg/config_manager/configmanager.go:1032-1067 | over every interleaving until the next spawn: one attempt at most after a cancel between head check and call, none after a cancel anywhere else |
| Persistence.GivesUpOnlyAfterWindow | pkg/config_manager/configmanager.go:1010-1045 | in every reachable state a run that gives up is more than 1800 seconds past its start |
| Persistence.RetriesWithinWindow | pkg/config_manager/configmanager.go:1031-1051 | from the head, not cancelled and within 1800 seconds, every interleaving leads to another attempt before any restart or end |
| Persistence.BoundIsReached | pkg/config_manager/configmanager.go:1010-1073 | for every list of services some run makes exactly floor(1800/(60+10n))+1 attempts and then expires |
| Timing.AttemptBound | pkg/config_manager/configmanager.go:1010-1073 | at most floor(1800/(60+10n))+1 attempts over n services, in every interleaving |
| Timing.RunTerminates | pkg/config_manager/configmanager.go:1031-1073 | every step of a run uses up a bounded number of remaining steps |
| Settling.LabelSettles | pkg/config_manager/configmanager.go:992-1074 | at rest, once a request was handled, the label is "success" or "failure"; "failure" after an expired run or an unreadable file; and except after an unreadable file "success" exactly when the final status is |
| Settling.ReportUnderWay | pkg/config_manager/configmanager.go:995-1059 | "in-progress" until the first outcome, then the failure of the last attempt with the status "retrying" after the first; the selected profile is that of the run |
| Settling.AttemptUsesOwnProfile | pkg/config_manager/configmanager.go:843-899 | an attempt gets into the helper exactly with the one entry of its own run's profile in the file as it is now |
| Settling.FinalStatusLeftOver | pkg/config_manager/configmanager.go:1012-1024 | an interleaving that rests with the label "failure" beside the final status "Success" |
| Settling.NoLostChange | pkg/config_manager/configmanager.go:1077-1104 | at rest, every trigger was followed by a run that read the file at least as new, unless the file was unreadable |
| Requests.AcceptedInOrder | pkg/config_manager/configmanager.go:1077-1104 | in every reachable state the accepted requests are the runs spawned, then the one held, then the one buffered |
| Requests.AcceptedAllRun | pkg/config_manager/configmanager.go:1077-1104 | at rest the runs are exactly the accepted requests, in order, and the last one was not cancelled |
| Requests.CanRest | pkg/config_manager/configmanager.go:992-1095 | from every state of the invariant some interleaving without a further request comes to rest |
| Requests.RequestRunExactly | pkg/config_manager/configmanager.go:1097-1104 | every continuation of a request that comes to rest has run its profile since, exactly when the slot was empty or the profile was buffered or held already |
| Restoration.RecordsAreFirstStatus | pkg/partition/utils/utils.go:113-124 | throughout a calm run of the system each record is the status at the first stop since the last cleanup |
| Restoration.RecordsSurvive | pkg/partition/utils/utils.go:115-124 | no step but the end of a restart removes or changes a record |
| Restoration.AttemptFindsServicesDown | pkg/config_manager/configmanager.go:1048-1051 | in a calm run every configured service is recorded and down while a run calls `PartitionGPU` |
| Restoration.FinishRestoresExactly | pkg/config_manager/configmanager.go:1041-1071 | when a run finishes by success or expiry: empty records, exactly the first active units run again if and only if its list covers the records |
| Restoration.FinishRestores | pkg/config_manager/configmanager.go:1041-1071 | with an unchanged list everything is put back, and unlisted units are untouched |
| Restoration.RestingServices | pkg/config_manager/configmanager.go:1012-1024 | at rest the records are empty unless the last run stopped on an unreadable file |
| Stranding.ServiceDroppedFromList | pkg/config_manager/configmanager.go:1069-1071 | an interleaving whose last run completes with a list that no longer names a stopped service, which stays down |
| Stranding.ServiceStranded | pkg/config_manager/configmanager.go:1012-1024 | an interleaving that comes to rest with a formerly active service stopped |
| RetryLoop.Controller.StopServices | pkg/config_manager/configmanager.go:1048 | the interleaved stop loop reaches the call |
| RetryLoop.Controller.Attempt | pkg/config_manager/configmanager.go:1051-1072 | one more attempt, then the wait or the restart |
| RetryLoop.Controller.WaitToRetry | pkg/config_manager/configmanager.go:1060-1067 | the wait ends at the head, then not before the minute is over, or by cancellation, then as soon as it is noticed |
| RetryLoop.Controller.StartServices | pkg/config_manager/configmanager.go:1044-1071 | the interleaved restart ends the run |
| RetryLoop.Controller.RetryPartition | pkg/config_manager/configmanager.go:992-1074 | from any reachable state the loop ends the run in a reachable state within the attempt bound, whatever the others do: cancelled, on an unreadable file before any attempt, after a last attempt without error, or more than 1800 seconds after its start |
| NodeLabels.K8sClient.AddNodeLabel | pkg/amdgpu/k8sclient/k8s.go:258-292 | the loop over the node object computes the rounds |
| NodeLabels.K8sClient.DeleteNodeLabel | pkg/amdgpu/k8sclient/k8s.go:294-333 | the loop over the node object computes the rounds |
| NodeLabels.AddIsAtomic | pkg/amdgpu/k8sclient/k8s.go:258-292 | nil exactly when one of ten rounds goes through; then one commit of ours, the last, changing only its key in the labels just before |
| NodeLabels.DeleteIsAtomic | pkg/amdgpu/k8sclient/k8s.go:294-333 | nil exactly when one of ten rounds fetches and finds the key absent or goes through; then the key is absent, by one commit that removes only it or by none |

## Left out

- AMD SMI itself: its calls are replaced by arbitrary answers; every socket is assumed to have at least one processor handle, because the code indexes handle 0.
- JSON decoding: the decoded profiles, the key sequence and the service list are inputs; null profiles and null groups are not modelled, and the two reads of the file in one call see one content.
- File watching, informers, Kubernetes events and their text, log output, D-Bus and `modprobe`.
- Label writes of the manager always succeed in the engine and in the system; `NodeLabels.dfy` models the write itself.
- Message texts and the status-code table: messages and reasons are enumerated, with the status code where the text carries it.
- The status code of the driver reload: the code only logs it.
- Profiles.ValidateProfile: excludes a profile without groups that skips every GPU, for which the code indexes an empty list; the same condition appears as `NoPanic` wherever the helper is called, and the 64-bit sum of counts is unbounded here.
- Recovery.PollMemory: time is counted in whole seconds; where a tick and the timeout are both ready the code picks one at random, and the model assumes that it picks the timeout after finitely many polls.
- Worker: it is modelled by the steps Receive, Check, WaitDone and Spawn of `System.dfy`, not as a loop, because it never ends; its mutex is not modelled, since only the worker takes it.
- Timing.AttemptBound: no time passes between the computation of the expiry and the first head check; the sleeps of restarts and of existence checks are not counted.
- Settling.LabelSettles: safety only; that a run in the helper or a cancelled run eventually moves on is not stated for the whole system.
- Services.StopThenStart: the time stamp and the comment of a pre-state are not modelled.
- NodeLabels.AddIsAtomic: an update whose commit succeeds while its response is lost is excluded by treating the update as a compare-and-swap; a node without any label map is not modelled, and neither are the pauses between rounds.
- `GetNodeLabel`, pod and daemon-set listing, the environment getters and the node-label watcher, which would add only lookups.
