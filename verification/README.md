# Verification of the Agent's stateful core

A Dafny model of the parts of the Agent where state is shared, merged or cleaned up, with proofs of
what they promise. `dafny verify dfyconfig.toml` checks it.

| modules | component |
|---|---|
| `VolumeLock` | the shell scripts that prepare, supervise, delete, export and inspect one owner's volume |
| `Daemon`, `DockerClient`, `DockerExecutor`, `DockerRecovery` | the personal Docker environment: atomic names, immutable ids, command fences, GC, personal operations |
| `Json`, `JsonPointer`, `Manifest` | RFC 6901 pointers, manifest projection and drift |
| `ChangedFields`, `ManagedFields` | what an update changes, who manages which field, whom a conflict is attributed to |
| `LogMerge`, `LogOrder`, `WorkerPool` | the bounded merge of log sources, when it depends on their order, and the pool that reads them |
| `Buildpacks`, `Submodules` | the Buildpacks runner under faults; matching of declared submodules |
| `LeaseTables` | the lease table, the active table and batched GC |
| `SshSessions`, `ResourceEvents` | the SSH session table; the bounded event queue of one subscription |
| `Strings`, `Basics` | byte order of strings and sorted key lists; small shared definitions |

## How the concurrency is modelled

**Volume scripts.** `VolumeLock` is a transition system. One step is one line of one script, the death of
a process (a kill, a timeout, a crashed Agent), or the start of another script. Any number of processes
run. `flock -n` is a reader/writer lock that disappears with its process. The theorems quantify over all
sequences of steps.

**Docker daemon.** `Daemon` has the daemon's state, with one `VolumeLock` volume for each owner, and its
theorems about *legal* runs. A script line in a volume is a step of the same history as a container
request, so scripts of all calls interleave with everything else, and what the volume theorems say holds
between any two requests of a call. Deletion is final across all calls: see `PersonalOperation`,
`RetiredForever` and `Start`. `Legal` is not an assumption about the code: it is what each request owes
the others (create only free names, with the Agent's labels; remove a command fence only if it is your
own or its parent is gone; dispatch only under your own fence), and it is the precondition of the one
method that changes the daemon, `DockerClient.Client.Act`. `DockerExecutor` and `DockerRecovery` follow
the Go functions branch by branch and must establish it at every request, although before each request
any number of legal steps of other calls take place (`Interfere`), any receipt may be lost after the
effect, and a call may simply stop. `Client.History` then says that the history of such a call, with
everybody else's steps in it, is a legal run, so the theorems about runs apply to it. A call also keeps
notes of the checks it made and the commands it sent (`notes`), which pin the order of its steps, a
record of what it created, removed, dispatched and which scripts it started (`did`), and a count of the
requests that failed or checks that were answered with no (`setbacks`). A success comes without any;
theorems of the form "without a setback it fails only if" say that the code has no further reason to
refuse. In-process locking (`e.mu`) is ignored, which only adds interleavings.

**The rest.** The SSH table is guarded by a mutex, so its operations are atomic and taken in any order. In
`ResourceEvents` the consumer runs between any two of the publisher's three channel operations. The
runner has one slot; between its tasks others may change the daemon. Commands that may fail have a
nondeterministic outcome, and what a failed removal leaves behind is arbitrary. Time is a nondecreasing
integer.

Assumed: container ids are never reused and cannot be guessed, so a handle names a container that was
issued; a call's identity is fresh; the hashes and the JSON and base64 encodings are injective; an
answered listing or inspection is true at the moment of the answer.

## Where the code does less than one would expect

- Merging log results one at a time is not one sort and one cut. When the byte budget does the cutting, a
  later and smaller entry can take the room of one that was dropped, so the page can depend on which
  source answers first (`LogOrder.CompletionOrderExample`: three containers with one entry each). What
  holds: the page of one sort and one cut is always a prefix of the merged page, with the same truncated
  flag (`LogMerge.MergedExtendsOneShot`). And the page is the same in every order of the same results
  exactly when nothing is left out or no source can slip in (`LogOrder.SamePageForEveryOrder`): a source
  slips in if it does not hold the first entry left out, the list up to that entry would fit without
  this source's entries, so that entry would have to be dropped before they come, and its first entry
  behind it fits in the room that is left. Exactly then do all schedules of the worker pool agree
  (`WorkerPool.SchedulesAgreeIffOrderFree`, `QueriesAgree`). Pages cut by the entry limit are always of this
  kind (`CountCutsAreOrderFree`).
- `diffManifestFields` skips a key named `status` at every map depth, the projection only at the top. For
  a desired object the two agree about every live object exactly when no nested `status` that
  survives stripping holds a leaf (`Manifest.ViewsAgreeIffNothingHidden`); otherwise
  `NestedStatusEscapesDrift` names a live object on which they part.
- Adoption leaves drift behind exactly when a desired leaf is absent from the live object
  (`AdoptionRemovesDrift`).
- A successful command whose fence cannot be removed returns an error but does not end the sandbox
  (`FenceKept` in `ExecuteTask`); a holder whose own stop failed still removes its fence (`CleanUp`).
- When the daemon holds containers before a task, the Buildpacks runner refuses the task without setting
  its blocked flag and leaves them alone. A task leaves the daemon empty or the flag set exactly when the
  daemon was empty before or the flag was set already (`ExecuteTask`). When a workspace could not be
  completed and its removal failed as well, empty directories stay behind unblocked (`leftovers`);
  secrets and sources never do.
- Releasing an active lease at Go's zero time leaves a lease that reads as unreleased
  (`RuntimeManager.Release`).
- An SSH claim's release closure deletes by id; run a second time it would remove a later claim's entry
  (`Sessions.Release`). The request handler defers it once.

## Model

| member | source | states |
|---|---|---|
| VolumeLock.StepInv | internal/agent/environment/docker_volume.go:55-72 | Any step of any of the five scripts, or the death of a process, keeps the lock invariant; the tombstone only appears and data only appears or disappears while nobody else holds the lock, data never appears behind a tombstone and never disappears without one (what each script achieves, and in which lock mode, is in the `...Alone` rows) |
| VolumeLock.RunInv | internal/agent/environment/docker_volume.go:55-72 | The invariant holds in every state of every schedule of any number of prepare, supervisor, delete, export and inspect processes, with deaths anywhere |
| VolumeLock.FreshInv | internal/agent/environment/docker_volume.go:52-55 | A volume nobody has used yet satisfies the invariant, so every run from it is covered |
| VolumeLock.TombstoneStays | internal/agent/environment/docker_data.go:24-28 | Once written, the tombstone is there in every later state of every schedule |
| VolumeLock.RetiredStays | internal/agent/environment/docker_data.go:24-28 | Tombstone without data is absorbing: no schedule ever makes the data again |
| VolumeLock.NobodyPassesTombstone | internal/agent/environment/docker_executor.go:191-196 | In every state after the tombstone, no preparation, supervisor or export is past its retired check, also one that chose its lock mode before the deletion |
| VolumeLock.NoSuccessBehindTombstone | internal/agent/environment/docker_volume.go:55-72 | After the tombstone no next line lets a preparation or an export end successfully |
| VolumeLock.CreatedUnderExclusiveLock | internal/agent/environment/docker_volume.go:55-72 | Data comes into being only at the create line of a preparation that was allowed to create, holds the lock exclusively, with no other holder and no tombstone |
| VolumeLock.SupervisedDataIsSafe | internal/agent/environment/docker_export.go:44-47 | While a supervisor holds its shared lock no step removes data or writes the tombstone, and no export is past its lock |
| VolumeLock.SupervisedRun | internal/agent/environment/docker_executor.go:191-196 | Over any run between two states in which the same supervisor holds its lock, the data it found is still there and the tombstone is as it was |
| VolumeLock.DeletedReceiptIsPermanent | internal/agent/environment/docker_data.go:47-76 | Once a deletion has succeeded, or an inspection has answered retired, the data is gone in every later state |
| VolumeLock.StepLater | internal/agent/environment/docker_volume.go:55-72 | Any step leaves tombstones and retired data as they are, and behind a tombstone no preparation or export comes to succeed and no inspection to answer "retained" |
| VolumeLock.PrepareAlone | internal/agent/environment/docker_volume.go:55-72 | Started on any volume and run to its end, a preparation succeeds exactly when the data is not given up and is either there, with no lock in the way but shared ones held, or may be created with no lock held; it then leaves the data there, and changes nothing of it otherwise |
| VolumeLock.SuperviseAlone | internal/agent/environment/docker_executor.go:191-196 | A supervisor comes to its final sleep under its shared lock exactly on data that is there and not given up, beside any number of other shared locks |
| VolumeLock.DeleteAlone | internal/agent/environment/docker_data.go:24-28 | A deletion run to its end succeeds exactly when no lock is held, and leaves the data given up and gone; refused, it changes nothing |
| VolumeLock.ExportAlone | internal/agent/environment/docker_export.go:44-47 | An export succeeds exactly on data that is there and not given up when no lock is held; it changes nothing |
| VolumeLock.InspectAlone | internal/agent/environment/docker_data.go:59-62 | An inspection answers retired exactly of data given up and gone, retained exactly of data not given up, and fails in between, whatever locks are held |
| VolumeLock.FailedCommandEnds | internal/agent/environment/docker_volume.go:55-72 | At exactly the lines with a command of their own a failure ends the script, gives its lock back and changes nothing else |
| VolumeLock.SoloRuns | internal/agent/environment/docker_volume.go:55-72 | These completions are schedules: the start of the script and then only its own lines |
| Daemon.RunInv | internal/agent/environment/docker_executor.go:157-198 | In every state of every legal run names are unique among existing containers and all labels are those Agents write |
| Daemon.StepDisks | internal/agent/environment/docker_volume.go:55-72 | Script lines of any calls in any owner's volume, among all other requests, keep the lock invariant of every volume |
| Daemon.OneWriterPerOwner | internal/agent/environment/docker_executor.go:157-166 | Never two existing restricted-write containers of one owner |
| Daemon.LeasesCompete | internal/agent/environment/docker_executor.go:157-166 | Two leases have one container name exactly if both write for one owner, or are the same read-only lease of one owner |
| Daemon.RunLater | internal/agent/environment/docker_executor.go:200-226 | Between any two moments of a run recorded identities and labels are unchanged, no removed container is back and no ended one runs again |
| Daemon.FenceStands | internal/agent/environment/docker_executor.go:429-448 | From any moment a call holds a fence until that call removes it, the fence exists as long as its parent does, whatever the other calls do |
| Daemon.OneCommandPerSandbox | internal/agent/environment/docker_executor.go:394-427 | Between two commands of different calls in one container, the first call has removed its own fence |
| Daemon.NoReplayAfterCrash | internal/agent/environment/docker_recovery.go:73-108 | If a call stops acting while it holds a fence, no command is ever dispatched into that container again, and the fence stands while the container exists |
| DockerClient.Client.History | internal/agent/environment/docker_executor.go:54-73 | The recorded history of a call and everybody interleaved with it is a legal run ending in the present state |
| DockerClient.CommandsAreSeparated | internal/agent/environment/docker_executor.go:394-427 | The separation of commands holds of the history of every client |
| DockerClient.RetiredForever | internal/agent/environment/docker_data.go:24-28 | Over the history of every client, with everybody else's steps in it: an owner's data once given up and gone stays so |
| DockerClient.SupervisedKeepsData | internal/agent/environment/docker_executor.go:191-196 | A container whose supervisor sleeps under the lock belongs to an owner whose data is there and has not been given up |
| DockerClient.Client.constructor | internal/agent/environment/docker_executor.go:47-52 | A call starts on any consistent daemon state with an empty history |
| DockerClient.Client.Act | internal/agent/environment/docker_executor.go:54-73 | One daemon step, by anyone: the new state, the recorded event and what this call is charged with; steps of others leave this call's fences and every record alone |
| DockerClient.Client.Interfere | internal/agent/environment/docker_executor.go:54-73 | Any number of legal steps of other calls keep this call's fences while their parents exist and create none in its name |
| DockerClient.Client.ListId | internal/agent/environment/docker_executor.go:200-210 | An answered listing by id is true of the moment it is answered |
| DockerClient.Client.ListName | internal/agent/environment/docker_executor.go:200-210 | An answered listing by name says whether some existing container carries it |
| DockerClient.Client.InspectId | internal/agent/environment/docker_executor.go:211-226 | An inspected record is that of an existing container with the id asked for |
| DockerClient.Client.InspectName | internal/agent/environment/docker_executor.go:211-226 | An inspected record is that of an existing container with the name asked for |
| DockerClient.Client.ListReceipts | internal/agent/environment/docker_recovery.go:13-48 | Listed receipts carry the deadlines in the labels of issued containers of the requested kind |
| DockerClient.Client.ListVolume | internal/agent/environment/docker_data.go:36-45 | An answered listing by volume that is empty means no environment container of the owner exists |
| DockerClient.Client.VolumeExists | internal/agent/environment/docker_data.go:47-52 | An answered listing by volume name that is empty means the owner has no volume |
| DockerClient.Client.RunScript | internal/agent/environment/docker_volume.go:81-104 | Runs one script line by line among everybody's steps: an answer received is that of a process of this script, and none of success (of a preparation or export) or "retained" is received if the tombstone stood before; at most this one script is started in the call's name |
| DockerClient.AnswerIsReceipt | internal/agent/environment/docker_data.go:24-76 | A deletion that succeeded and the answer "retired" mean that the data is given up and gone |
| DockerClient.Client.CreateContainer | internal/agent/environment/docker_executor.go:108-118 | At most one container, the one described, is created in this call's name; a success means it was and that it is there; a failure may hide a creation |
| DockerClient.Client.RemoveContainer | internal/agent/environment/docker_executor.go:429-440 | Only allowed on an environment, an own fence, or a fence whose parent is gone; success means the id no longer exists, and no other fence of this call is disturbed |
| DockerClient.Client.ExecCommand | internal/agent/environment/docker_executor.go:340-346 | Only allowed under the caller's own fence on that container; at most one command is dispatched, a success means one was, a failure may hide one |
| DockerExecutor.Executor.RecordById | internal/agent/environment/docker_executor.go:200-226 | Missing means the id does not exist, Found gives the record of exactly that container, anything else is an error |
| DockerExecutor.Executor.RecordByName | internal/agent/environment/docker_executor.go:200-226 | Missing means the name is free, Found gives the record of the existing container of that name |
| DockerExecutor.Executor.RemoveCommandFence | internal/agent/environment/docker_executor.go:429-440 | Removes at most that one fence, after comparing parent, ref and call; success means it no longer exists, and without a setback it fails only on labels that are not the fence's |
| DockerExecutor.Executor.RemoveParentCommandFence | internal/agent/environment/docker_executor.go:442-448 | Clears a fence by name once its parent is gone, leaving every fence of this call with a live parent alone |
| DockerExecutor.Executor.Stop | internal/agent/environment/docker_executor.go:274-292 | Removes nothing but the handle's own validated container and, once that is gone, a fence on it; success means the container no longer exists, nor any fence that was on it; the handle's container is left only if a request failed, and the fence only then or if a foreign container has its name |
| DockerExecutor.Executor.MeetReservation | internal/agent/environment/docker_executor.go:413-420 | A foreign reservation is never taken over: before its deadline the caller is refused with nothing done, from its deadline on the sandbox is ended and the outcome reported unknown |
| DockerExecutor.Executor.AcquireCommandFence | internal/agent/environment/docker_executor.go:394-427 | Success means this call's one live fence, with exactly the given deadline, reserves the parent if it still exists; refused only when the deadline has passed, another call's reservation is met, the container is gone, or a request failed; the parent is ended only if a reservation of another call was over; nothing is dispatched |
| DockerExecutor.Executor.ClaimReservation | internal/agent/environment/docker_executor.go:403-427 | Whoever created the container of the reserved name holds it; an own fence with a lost creation receipt is given up, not used; the sandbox is ended only for a foreign reservation whose time is over |
| DockerExecutor.Executor.HolderOfReservation | internal/agent/environment/docker_executor.go:403-412 | Finds the fence of the reserved name, with its labels; after a successful creation it is missed only if a request failed or the container is gone |
| DockerExecutor.Executor.KeepReservation | internal/agent/environment/docker_executor.go:421-427 | An own reservation is kept exactly if its creation succeeded, and otherwise removed; it stays behind only if that removal failed |
| DockerExecutor.Executor.ActiveLease | internal/agent/environment/docker_executor.go:450-472 | Success means the handle names a container made for exactly its lease, of the configured image, unexpired at some time since the call began; each refusal says what was wrong with the container, and without a setback there is no other |
| DockerExecutor.Executor.AdmittedLease | internal/agent/environment/docker_executor.go:450-467 | The part of it that reads the record, in the source's order of checks |
| DockerExecutor.Executor.Recheck | internal/agent/environment/docker_executor.go:331-345 | What is checked again under the fence, in the source's order; success made every check and re-establishes that the container is admitted |
| DockerExecutor.Executor.RecheckLease | internal/agent/environment/docker_executor.go:337-345 | Under the fence the lease is admitted again before the container is found idle |
| DockerExecutor.Executor.RunReserved | internal/agent/environment/docker_executor.go:331-354 | At most one command, in the admitted container, under the call's fence and only after every recheck; success means one was dispatched; no container is created or removed; none if the owner's data had been given up |
| DockerExecutor.Executor.SendCommand | internal/agent/environment/docker_executor.go:346-353 | At most one command is dispatched; success means one was and that nothing but the supervisor was left running |
| DockerExecutor.Executor.RequireIdle | internal/agent/environment/docker_executor.go:339-345 | Success saw only the supervisor and, for a task, made its workspace |
| DockerExecutor.Executor.RequireRunning | internal/agent/environment/docker_executor.go:257-272 | Success saw the container run, then its supervisor asleep with the lock of the owner's volume, so the owner's data was not given up at that moment |
| DockerExecutor.Executor.Inspect | internal/agent/environment/docker_executor.go:474-492 | Success means the lease was active: its container admitted, seen running and its supervisor holding the lock, the owner's data not given up; nothing is created, removed or dispatched; without a setback it fails only if the container cannot be used |
| DockerExecutor.Executor.DeletePersonalData | internal/agent/environment/docker_data.go:13-34 | Success means that the owner's data is given up and gone (tombstone, no data), which it stays, and that no container of the owner was attached at the end; no container is touched, and nothing is started beside one that is attached all the time; without a setback it fails only because one is attached |
| DockerExecutor.Executor.GiveUp | internal/agent/environment/docker_data.go:24-30 | Starts the deletion script and nothing else; success means the data is given up and gone |
| DockerExecutor.Executor.PersonalDataRetired | internal/agent/environment/docker_data.go:47-76 | "Retired" is answered only of data given up and gone, the opposite only if it was not given up when the call began; only the inspection script is started, and no answer only after a setback |
| DockerExecutor.Executor.ExportPersonalData | internal/agent/environment/docker_export.go:18-61 | A complete archive only of data that was not given up when the call began; no container is touched, and nothing is started beside one that is attached all the time; without a setback it fails only because one is attached |
| DockerExecutor.Executor.EnsureVolume | internal/agent/environment/docker_volume.go:17-77 | Success only if the owner's data was not given up when the call began; the one script started is a preparation that may create exactly if the caller allows it |
| DockerExecutor.Executor.RequireUnused | internal/agent/environment/docker_data.go:36-45 | Success means no environment container of the owner exists |
| DockerExecutor.FenceByName | internal/agent/environment/docker_executor.go:390-448 | Looking up a container's one command name finds the only fence there can be on it |
| DockerExecutor.MineIsFound | internal/agent/environment/docker_executor.go:403-412 | As long as the container exists, whoever has its command name after a successful creation is this call's own fence |
| DockerExecutor.Executor.ExecuteTask | internal/agent/environment/docker_executor.go:300-354 | At most one user command, only with valid arguments and into the handle's admitted container; success means exactly one, every check made in the source's order, and no reservation of this call left; one fence at most is made, for the time of the command or of the lease, whichever ends first; a command that ran and failed leaves no sandbox unless Stop itself failed or only the fence removal failed; it fails without a setback only when too late, because the container cannot be used, or before another call's reservation: "reserved" only if that was in force, "outcome unknown" only if it was over; the sandbox is ended only in the latter case or after a failure under this call's own fence; nothing at all is done if the owner's data had been given up when the call began |
| DockerExecutor.Executor.ExecuteFenced | internal/agent/environment/docker_executor.go:309-354 | The same, from the moment the deadline is fixed |
| DockerExecutor.Executor.AdmitTask | internal/agent/environment/docker_executor.go:300-316 | The first look at the lease, and the deadline: that of the operation or of the lease, whichever comes first |
| DockerExecutor.Executor.RunAndCleanUp | internal/agent/environment/docker_executor.go:319-354 | The reserved run and its deferred cleanup: no reservation is left by a success, no sandbox by a failure other than that of the fence removal, unless Stop failed |
| DockerExecutor.Executor.CleanUp | internal/agent/environment/docker_executor.go:319-331 | The deferred cleanup: only a failed run ends the sandbox, and the fence is removed even when that stop failed: each of the two that is left costs a setback of its own |
| DockerExecutor.Executor.Start | internal/agent/environment/docker_executor.go:75-132 | A bad request or an expired lease does nothing; a returned handle names a container whose labels are exactly the requested lease; a container of the lease's name that was there before and still is has the returned id; at most the lease's own container, of the configured image, is created, after its volume was prepared, also when the receipt is lost; data may be made only for a new container and if that is allowed; success saw it running under its supervisor's lock; otherwise it fails without a setback only for a lease that has run out meanwhile, a name held for another lease or image, or a container gone again; if the owner's data had been given up when the call began, nothing is created and nothing returned |
| DockerExecutor.Executor.Resume | internal/agent/environment/docker_executor.go:95-110 | A found container is returned only for exactly the lease and the configured image, after it was seen running and its volume was prepared, with no permission to create; without a setback it is refused only for another lease or image |
| DockerExecutor.Executor.Launch | internal/agent/environment/docker_executor.go:111-131 | A container is created only after its volume was prepared, with the caller's permission to create, and returned only if it carries exactly the lease and was seen running; nothing is created if the owner's data had been given up |
| DockerRecovery.ExpiredReceiptIds | internal/agent/environment/docker_recovery.go:110-136 | The expired ids in listing order, cut at the batch limit and complete below it |
| DockerRecovery.GcDockerLease | internal/agent/environment/docker_recovery.go:50-71 | Reports a lease released only if it expired and a container labelled with it no longer exists, and reports every environment removed; removes only due environments and command fences; an expired container is left only if a request failed |
| DockerRecovery.GcDockerLeases | internal/agent/environment/docker_recovery.go:13-41 | Over the batch; unless it is full, success, or that no request failed, leaves no container that was ended and expired when the listing was made |
| DockerRecovery.GcEachLease | internal/agent/environment/docker_recovery.go:32-41 | Success means every container of the batch is gone and every one removed is reported; a failure leaves one container and does not keep the pass from the rest: no more of the batch are left than requests failed, unless the context ended |
| DockerRecovery.GcDockerCommandFence | internal/agent/environment/docker_recovery.go:88-106 | An expired reservation ends its parent; the fence falls only after it, success means it is gone, and it is left only if a request failed |
| DockerRecovery.GcDockerCommandFences | internal/agent/environment/docker_recovery.go:73-108 | Over the batch; unless it is full, success, or that no request failed, leaves no reservation that was expired when the listing was made |
| DockerRecovery.GcEachFence | internal/agent/environment/docker_recovery.go:82-107 | Success means every reservation of the batch is gone; no more are left than requests failed, unless the context ended |
| DockerRecovery.CleanupPersonalProbe | internal/agent/environment/docker_preflight.go:97-135 | Refused for any lease that is not a probe's; ends at most the container of exactly this lease and a fence on it; success means no container that was there before has the lease's name; without a setback a probe is refused only if its name is held for another lease or a foreign container has a fence's name |
| DockerRecovery.TryProbe | internal/agent/environment/docker_preflight.go:41-56 | Creates at most the container of the probe's lease, and succeeds only after that lease was seen active |
| DockerRecovery.Preflight | internal/agent/environment/docker_preflight.go:24-57 | Ready only after a container of exactly the probe's lease was seen active and is gone again; no command is dispatched |
| DockerRecovery.EndLease | internal/agent/environment/docker_preflight.go:102-110 | Stops the container of exactly this lease if there is one; success means no container that was there before has its name |
| DockerRecovery.GcPersonalProbes | internal/agent/environment/docker_preflight.go:137-165 | Over the listed probes: only due environments and their fences are removed; success means every listed lease had expired and no sandbox of it that was there before is left |
| DockerRecovery.GC | internal/agent/environment/docker_recovery.go:13-48 | No command is dispatched, nothing created, only due environments and command fences removed, and only expired leases without container reported released; unless a batch was full, everything overdue at its listing is gone after a success, and also whenever no request failed; without probes it fails only if a request failed or a foreign container has a fence's name |
| DockerRecovery.GcReceipts | internal/agent/environment/docker_recovery.go:13-48 | The two passes over durable labels, with the same promises |
| DockerRecovery.PersonalHandle | internal/agent/environment/personal.go:99-110 | A found handle names a container made for exactly this lease, and is the only such sandbox still there; not found means the lease's name is free |
| DockerRecovery.InspectActive | internal/agent/environment/personal.go:82-96 | Active is answered only after an inspection that saw the lease active; without a setback it is refused only to a container that cannot be used |
| DockerRecovery.PersonalOperation | internal/agent/environment/personal.go:13-97 | Which action may dispatch, create, remove or start which script, and what each outcome promises: only execute dispatches and then into a container of exactly this lease; active means a container of exactly this lease and the configured image, unexpired during the call, was last seen running under its supervisor's lock, and that no sandbox was ended; expired is answered only to an observation of a lease that is over; observing a lease that goes on does nothing; a sandbox is ended only by a release, after its lease or another call's reservation is over, or after a run under this call's own fence, never by an acquisition or deletion, and a deletion starts nothing beside a sandbox that is attached all the time; an acquisition answered active prepared the volume, with permission to make data only for a new sandbox and if it was given; a release, and an execution or observation of a lease that is over, do end it unless a request fails; without a setback the operation is refused only for a stated obstacle; "deleted" is answered only of data given up and gone, and no operation that begins once an owner's data is given up is answered active or missing for it, creates a container or dispatches a command |
| DockerRecovery.ExecuteOrObserve | internal/agent/environment/personal.go:46-97 | The same for the branch shared by execute and observe: a found sandbox is ended exactly if its lease is over, and otherwise used or looked at |
| DockerRecovery.OperateFound | internal/agent/environment/personal.go:67-97 | A found sandbox whose lease is over is ended, for execute too, which is then refused; one whose lease goes on is left alone by an observation |
| DockerRecovery.ExecuteFound | internal/agent/environment/personal.go:77-96 | Active only after the command ran in a container of this lease and that was seen active again; refused without a setback only when too late, to a container that cannot be used, or before another call's reservation |
| DockerRecovery.ObserveMissing | internal/agent/environment/personal.go:57-66 | Without a sandbox: deleted only of data given up and gone, missing only if it was not given up when the look began |
| DockerRecovery.EndFound | internal/agent/environment/personal.go:41-51 | A release ends the sandbox found: only a container of this lease and fences on it go, and it is left only if a request failed |
| DockerRecovery.AcquireSandbox | internal/agent/environment/personal.go:52-56 | An acquisition removes nothing, creates at most once, and is answered active only after a look that saw the lease active |
| DockerRecovery.DeleteUnused | internal/agent/environment/personal.go:31-40 | Deletion only when no sandbox of the lease was found; no container is touched |
| JsonPointer.EscapeIsOnePass | internal/agent/kubernetes/resource_update_analysis.go:121-123 | Replacing tildes, then slashes, is one character map |
| JsonPointer.RoundTrip | internal/agent/kubernetes/resource_update_analysis.go:121-123 | The decoding of section 4 of RFC 6901 undoes the escaping, for every string |
| JsonPointer.NoSlash | internal/agent/kubernetes/manifest.go:375-377 | An escaped token holds no raw slash |
| JsonPointer.PointerAppend | internal/agent/kubernetes/resource_update_analysis.go:58-60 | Growing a pointer by a slash and an escaped key is the pointer of the longer token path |
| JsonPointer.PointerInjective | internal/agent/kubernetes/resource_update_analysis.go:121-123 | Distinct token paths have distinct pointers |
| JsonPointer.PrefixIsAncestry | internal/agent/kubernetes/resource_update_analysis.go:125-139 | One pointer followed by a slash is a prefix of another exactly when its token path is a proper ancestor |
| JsonPointer.OverlapIsKinship | internal/agent/kubernetes/resource_update_analysis.go:125-139 | The three-way string test holds exactly when one token path is the other or an ancestor of it |
| Manifest.ProjectManifestValue | internal/agent/kubernetes/manifest.go:280-303 | The loops compute the recursive projection, for any map order; what that is, is in the three rows on reading |
| Manifest.ProjectManifestMetadata | internal/agent/kubernetes/manifest.go:267-278 | The loop computes the projection of the non-volatile metadata |
| Manifest.ProjectManifestObject | internal/agent/kubernetes/manifest.go:249-265 | The loop computes the projection of a whole object |
| Manifest.ProjectIffSeen | internal/agent/kubernetes/manifest.go:280-303 | The projection gives the desired value back exactly when each leaf of it is the live value at its place, with null for a missing key or an item beyond the live list |
| Manifest.ProjectionReadsAt | internal/agent/kubernetes/manifest.go:280-303 | At every path: where the desired value has a map the projection has its keys, where a list its length, and at a leaf the live value of that path, or null |
| Manifest.ReadsIsProjection | internal/agent/kubernetes/manifest.go:280-303 | No other value reads like that, so this is all of the projection |
| Manifest.ProjectSelf | internal/agent/kubernetes/manifest.go:280-303 | Projecting a value onto itself gives it back |
| Manifest.ProjectAgain | internal/agent/kubernetes/manifest.go:280-303 | Projecting the observation through its own projection changes nothing |
| Manifest.ProjectOfProjected | internal/agent/kubernetes/manifest.go:280-303 | The projection keeps everything the desired shape can see |
| Manifest.SkipsKey | internal/agent/kubernetes/manifest.go:307-310 | Skipped are status everywhere and the five volatile keys directly below metadata |
| Manifest.DiffManifestFields | internal/agent/kubernetes/manifest.go:305-324 | Reports every drifting leaf of the reference definition exactly once, with its pointer and both values; pointers are distinct; empty exactly when, in terms of the values alone, every desired value past no skipped key is there in the live object |
| Manifest.NoDriftIffMatches | internal/agent/kubernetes/manifest.go:305-324 | No path drifts exactly when every desired value that is not a map is present and seen in the live one |
| Manifest.AdoptionRemovesDrift | internal/agent/kubernetes/manifest.go:143-147 | With a metadata map, the adopted object has no drift against live exactly when no desired leaf is absent from live |
| Manifest.AdoptedIsFixed | internal/agent/kubernetes/manifest.go:143-147 | The adopted object is a fixed point of the projection of live |
| Manifest.DriftAgreesWithProjection | internal/agent/kubernetes/manifest.go:305-324 | For all objects: no drift exactly when no desired leaf is missing and projecting live onto the compared fields gives them back |
| Manifest.NoDriftIffProjectionMatches | internal/agent/kubernetes/manifest.go:249-324 | With a metadata map and no leaf in a nested status: for every live object, no drift exactly when nothing is missing and the projection of live equals the desired object without status and volatile metadata |
| Manifest.NestedStatusEscapesDrift | internal/agent/kubernetes/manifest.go:305-324 | With a leaf in any nested status the desired object has a live one without drift and with nothing missing whose projection still differs |
| Manifest.ProjectLeafless | internal/agent/kubernetes/manifest.go:280-303 | A value without a leaf is its own projection, whatever is observed |
| Manifest.ProjectChanged | internal/agent/kubernetes/manifest.go:280-303 | A value with a leaf is not its own projection of the value with every leaf changed |
| Manifest.ViewsAgreeIffNothingHidden | internal/agent/kubernetes/manifest.go:249-324 | With a metadata map: drift and projection agree about every live object exactly when no nested status that survives stripping holds a leaf |
| ChangedFields.CollectResourceChangedFields | internal/agent/kubernetes/resource_update_analysis.go:35-67 | Collects every changed path of the reference definition once, as its pointer, and nothing else |
| ChangedFields.CollectKeys | internal/agent/kubernetes/resource_update_analysis.go:41-63 | The same for two different maps, key by key, past status and server metadata |
| ChangedFields.KeptKeys | internal/agent/kubernetes/resource_update_analysis.go:41-57 | The compared keys, in ascending order: all but status and, directly below metadata, the five server fields |
| ChangedFields.SortedChangedFields | internal/agent/kubernetes/resource_update_analysis.go:16-19 | The changed pointers, each once, in ascending order, for any order of map keys |
| ChangedFields.UnchangedIffEquivalent | internal/agent/kubernetes/resource_update_analysis.go:35-67 | Nothing changed exactly when the values are equal up to status, server metadata, and null against absent |
| ChangedFields.EmptyIffEquivalent | internal/agent/kubernetes/resource_update_analysis.go:16-33 | The analysis of two objects is empty exactly when they are equivalent in that sense |
| ChangedFields.ChangedSymmetric | internal/agent/kubernetes/resource_update_analysis.go:35-67 | A path is changed from one side exactly when it is from the other |
| ChangedFields.AnalysisSymmetric | internal/agent/kubernetes/resource_update_analysis.go:35-67 | Exchanging the two objects gives the same list |
| ChangedFields.NoDuplicates | internal/agent/kubernetes/resource_update_analysis.go:35-67 | No pointer is collected twice |
| ChangedFields.NoAncestors | internal/agent/kubernetes/resource_update_analysis.go:35-67 | No listed pointer lies below another one |
| ChangedFields.EquivalentTransitive | internal/agent/kubernetes/resource_update_analysis.go:35-67 | The equivalence behind an empty analysis is transitive |
| ManagedFields.CollectManagedFieldPaths | internal/agent/kubernetes/resource_update_analysis.go:92-119 | One pointer for each end of the managed-fields tree, and no other: an empty node below the root, or a dot that marks the node it stands in |
| ManagedFields.ThroughKey | internal/agent/kubernetes/resource_update_analysis.go:104-118 | What one key adds: a field name, a wildcard for a list or set element, or nothing |
| ManagedFields.ManagedFieldPaths | internal/agent/kubernetes/resource_update_analysis.go:78-90 | The sorted list of those pointers; none if the fields are absent or do not decode |
| ManagedFields.ManagedHas | internal/agent/kubernetes/resource_update_analysis.go:78-119 | A pointer is listed exactly when some path of keys through the tree ends there |
| ManagedFields.ManagedUnique | internal/agent/kubernetes/resource_update_analysis.go:78-119 | The tree determines the list, so no map order shows in it |
| ManagedFields.OwnerUnique | internal/agent/kubernetes/resource_update_analysis.go:21-30 | An entry determines its owner |
| ManagedFields.AnalyzeResourceUpdate | internal/agent/kubernetes/resource_update_analysis.go:16-33 | The changed fields, and for every entry with a manager name, in order, an owner with the first 256 of its paths, and no other owner; operation, version and time are those of the entry |
| ManagedFields.NamedHas | internal/agent/kubernetes/resource_update_analysis.go:21-30 | Exactly the entries with a manager name have an owner |
| ManagedFields.ConflictsFromError | internal/agent/kubernetes/resource_update_analysis.go:125-139 | Attributes the message to the first changed field any foreign manager claims and to the first who does; unattributed when nobody claims any |
| ManagedFields.OneFirstClaim | internal/agent/kubernetes/resource_update_analysis.go:125-139 | There is at most one such field and manager, so the answer is determined |
| ManagedFields.ClaimIsKinship | internal/agent/kubernetes/resource_update_analysis.go:125-139 | A field is claimed only by foreign managers whose tree reaches the field, a parent or something below it, and, with at most 256 paths, by all of them |
| LogMerge.EntryOrderIsWeak | internal/agent/kubernetes/pod_logs_aggregate.go:553-566 | The sort order is a strict weak order, in both directions |
| Strings.LessIffPart | internal/agent/kubernetes/pod_logs_aggregate.go:553-566 | One string is before another exactly if it is a proper prefix or smaller at the first difference |
| Strings.LessInParts | internal/agent/kubernetes/pod_logs_aggregate.go:562-564 | Of strings joined by NUL characters, and holding none, the first part that differs decides |
| LogMerge.KeyIsFields | internal/agent/kubernetes/pod_logs_aggregate.go:562-564 | For names without NUL, the joined sort key orders by namespace, pod, container and message, in this order |
| LogMerge.AheadIffInOrder | internal/agent/kubernetes/pod_logs_aggregate.go:553-566 | An entry may stand ahead of another exactly if it is older (forward) or newer (backward), or as old and its fields do not come later, for names without NUL |
| LogMerge.StableSortSorted | internal/agent/kubernetes/pod_logs_aggregate.go:553-566 | The sorted list is in order |
| LogMerge.StableSortPermutes | internal/agent/kubernetes/pod_logs_aggregate.go:553-566 | The sorted list holds the same entries |
| LogMerge.StableSortIsStable | internal/agent/kubernetes/pod_logs_aggregate.go:553-566 | Tied entries keep their arrival order |
| LogMerge.StableSortUnique | internal/agent/kubernetes/pod_logs_aggregate.go:553-566 | A sorted permutation that keeps ties in order is this one, so the library sort can be no other |
| LogMerge.SortAggregateLogEntries | internal/agent/kubernetes/pod_logs_aggregate.go:553-566 | Returns the stable sort, in order by the fields of the entries: timestamps ascend if forward and descend otherwise, ties (for names without NUL) by namespace, pod, container and message |
| LogMerge.BoundAggregateLogEntries | internal/agent/kubernetes/pod_logs_aggregate.go:568-587 | Returns the longest prefix within the count limit and the byte budget, and says truncated exactly when it was before or entries were left out |
| LogMerge.CutIsLongest | internal/agent/kubernetes/pod_logs_aggregate.go:568-587 | No longer prefix would fit |
| LogMerge.MergeResult | internal/agent/kubernetes/pod_logs_aggregate.go:70-86 | One channel result keeps the page equal to the merge so far, with its flags and the counts of results read and failed |
| LogMerge.QueryPodLogs | internal/agent/kubernetes/pod_logs_aggregate.go:52-88 | For results in any order, on the fields of the entries: timestamps on the page do not decrease if forward and do not increase otherwise, and at equal timestamps (for names without NUL) the order is by namespace, pod, container and message; if each entry read fits by itself, the page starts with the oldest (forward) or newest of everything read; the page starts with that of one sort and one cut, whose entries come before all others read, fits both bounds, and holds everything if everything fits; truncated exactly when a source was or the page is shorter than what was read; successful plus failed is the number of results |
| LogMerge.MergeResults | internal/agent/kubernetes/pod_logs_aggregate.go:70-86 | The loop over the channel |
| LogMerge.HeadLeads | internal/agent/kubernetes/pod_logs_aggregate.go:553-566 | The first entries of the page that are those of the sorted list are in order with everything else that was read |
| LogMerge.FirstOfAll | internal/agent/kubernetes/pod_logs_aggregate.go:70-86 | If each entry read fits by itself, the merged page begins with the oldest or newest of everything read |
| LogMerge.PageOfMerged | internal/agent/kubernetes/pod_logs_aggregate.go:70-86 | The merged page is in order on the fields, and its first entries, as many as one sort and one cut keeps, come before everything else that was read |
| LogMerge.AllFits | internal/agent/kubernetes/pod_logs_aggregate.go:568-587 | If everything read fits, the merged page is all of it |
| LogMerge.MergedExtendsOneShot | internal/agent/kubernetes/pod_logs_aggregate.go:70-86 | For all results: the page of one sort and one cut is a prefix of the merged page, and both leave entries out or neither does |
| LogOrder.FilterOfSort | internal/agent/kubernetes/pod_logs_aggregate.go:553-566 | Sorting, then filtering, is filtering, then sorting |
| LogOrder.SortTwice | internal/agent/kubernetes/pod_logs_aggregate.go:70-86 | Sorting the page before a further result arrives changes nothing |
| LogOrder.SameSort | internal/agent/kubernetes/pod_logs_aggregate.go:553-566 | If entries tie only within one source, the sorted list of everything read does not depend on the order of the results |
| LogOrder.QuietDelivery | internal/agent/kubernetes/pod_logs_aggregate.go:70-86 | If no source can slip in behind the first entry left out, the merged page of any order is that of one sort and one cut |
| LogOrder.LateSourceSlips | internal/agent/kubernetes/pod_logs_aggregate.go:70-86 | If the source of the first entry left out answers last but one, and then a source that can slip in, the page gets longer than that |
| LogOrder.CutSourceLast | internal/agent/kubernetes/pod_logs_aggregate.go:70-86 | If the source of the first entry left out answers last, the page is that of one sort and one cut |
| LogOrder.SamePageForEveryOrder | internal/agent/kubernetes/pod_logs_aggregate.go:70-86 | For any results whose entries tie only within one source: they give the same page in every order exactly when no source can slip in, and exactly then the page of every order is that of one sort and one cut |
| LogOrder.CountCutsAreOrderFree | internal/agent/kubernetes/pod_logs_aggregate.go:568-587 | A page cut by count, or not at all, never depends on the order; only the byte budget lets entries slip in |
| LogOrder.RoomIsTaken | internal/agent/kubernetes/pod_logs_aggregate.go:70-86 | Three sources of one entry: the second entry is dropped before the smaller third one comes and takes the room |
| LogOrder.RoomIsKept | internal/agent/kubernetes/pod_logs_aggregate.go:70-86 | Read with the second entry last, the page ends after the first |
| LogOrder.CompletionOrderExample | internal/agent/kubernetes/pod_logs_aggregate.go:70-86 | Three containers with one entry each, within what one source can yield, whose two completion orders give different pages |
| WorkerPool.StepConsistent | internal/agent/kubernetes/pod_logs_aggregate.go:423-449 | Every step of the pool keeps each source handed out in exactly one place and the channels closing in order |
| WorkerPool.EverySourceOnce | internal/agent/kubernetes/pod_logs_aggregate.go:423-449 | On every schedule no send meets the closed channel, and when the reading loop ends each source has yielded exactly one result |
| WorkerPool.RunsEnd | internal/agent/kubernetes/pod_logs_aggregate.go:423-449 | No schedule is longer than a bound computed from its first state |
| WorkerPool.Progress | internal/agent/kubernetes/pod_logs_aggregate.go:423-449 | A schedule that cannot go on has ended the reading loop: there is no deadlock |
| WorkerPool.CompletionOrders | internal/agent/kubernetes/pod_logs_aggregate.go:423-449 | The orders in which the pool can complete its sources are exactly the permutations that take each source from those the workers can hold at that time |
| WorkerPool.ResultsReorder | internal/agent/kubernetes/pod_logs_aggregate.go:70-86 | The same sources in another completion order give the same results in another order |
| WorkerPool.SchedulesAgreeIffOrderFree | internal/agent/kubernetes/pod_logs_aggregate.go:52-88 | All schedules of the pool give the same page exactly when no source can slip in; it is then the page of one sort and one cut |
| WorkerPool.TiesAreOfOneContainer | internal/agent/kubernetes/pod_logs_aggregate.go:553-566 | Entries that tie in the sort have the same namespace, pod and container |
| WorkerPool.SourcesDoNotTie | internal/agent/kubernetes/pod_logs_aggregate.go:152-189 | Sources that each read a container of their own meet the hypothesis: ties stay within one source |
| WorkerPool.QueriesAgree | internal/agent/kubernetes/pod_logs_aggregate.go:52-88 | So for the sources of a query, in both directions and with any limit: the schedules agree exactly when no source can slip in |
| LeaseTables.Manager.Acquire | internal/agent/environment/manager.go:64-79 | Accepts exactly valid leases with an unused id and stores them as asked for, with issue time now unless one is given and no release time |
| LeaseTables.ValidateLease | internal/agent/environment/manager.go:153-170 | A lease is accepted exactly if its names are not blank, its mode is known, it goes on and its quota is bounded |
| LeaseTables.Manager.Release | internal/agent/environment/manager.go:81-93 | Fails exactly on an unknown id; sets the release time once and changes no other lease |
| LeaseTables.RuntimeManager.New | internal/agent/environment/runtime.go:153-188 | A manager is made exactly when the workspace root is usable and the backends are all there, with distinct kinds that are not blank; it starts with empty tables |
| LeaseTables.RuntimeManager.constructor | internal/agent/environment/runtime.go:153-188 | The fresh manager has empty tables, the registered backends and a positive batch, 32 if none is configured |
| LeaseTables.RuntimeManager.Acquire | internal/agent/environment/runtime.go:190-221 | Success exactly when the specification is valid, its backend registered, the lease valid and new, and the backend prepares a handle; failure leaves both tables as they were |
| LeaseTables.RuntimeManager.Release | internal/agent/environment/runtime.go:237-260 | Success exactly as the backend answers, a failed backend release changes nothing, and the tables keep agreeing unless an active lease is released at the zero time |
| LeaseTables.RuntimeManager.GcCandidates | internal/agent/environment/runtime.go:290-304 | The lowest ids among all active leases whose time is over, at most one batch, for any map order |
| LeaseTables.RuntimeManager.GC | internal/agent/environment/runtime.go:262-281 | The candidates are the lowest ids of all active leases with `expires <= now`; exactly those tried whose backend release succeeds leave both tables and are returned, in ascending order; no error exactly when the context lasts for all of them and every release succeeds; then it is one full round |
| LeaseTables.RuntimeManager.GcOne | internal/agent/environment/runtime.go:268-279 | One candidate leaves both tables or neither |
| LeaseTables.RuntimeManager.ReleaseEach | internal/agent/environment/runtime.go:266-280 | The loop over the candidates, stopped by the context |
| LeaseTables.RoundTakesBatch | internal/agent/environment/runtime.go:290-304 | One full round shrinks the overdue set by the batch, or empties it |
| LeaseTables.RoundsClear | internal/agent/environment/runtime.go:262-281 | Repeated rounds have cleared n overdue leases exactly from round ceil(n / batch) on |
| SshSessions.Sessions.constructor | internal/agent/api/routes_ssh.go:25-45 | The configured limit, raised to 1 or lowered to 32 if it lies outside |
| SshSessions.Sessions.DropExpired | internal/agent/api/routes_ssh.go:92-97 | Exactly the unexpired stagings remain |
| SshSessions.Sessions.Stage | internal/agent/api/routes_ssh.go:89-109 | Admitted exactly when open, below capacity and neither staged nor active, after expired stagings went; the whole new table in both cases |
| SshSessions.Sessions.ClaimSession | internal/agent/api/routes_ssh.go:111-123 | Succeeds exactly on an unexpired staging, never claimed before; the staging is gone either way |
| SshSessions.Sessions.Release | internal/agent/api/routes_ssh.go:121-121 | A claim's release removes its own entry only; the table keeps matching the claims exactly when the claim is held or its id is not active |
| SshSessions.Sessions.Close | internal/agent/api/routes_ssh.go:125-133 | Nothing stays staged and every active claim is cancelled |
| SshSessions.ClaimKeeps | internal/agent/api/routes_ssh.go:111-123 | A claim keeps ids disjoint, the capacity, and claimed serials fresh; only an open table has anything to claim |
| SshSessions.StageKeeps | internal/agent/api/routes_ssh.go:89-109 | An admitted staging keeps ids disjoint, the capacity and fresh serials |
| SshSessions.ReleaseKeeps | internal/agent/api/routes_ssh.go:121-121 | Deleting by id keeps entries and claims matched exactly when the claim holds the entry or there is none |
| SshSessions.Interleave | internal/agent/api/routes_ssh.go:89-133 | Over any sequence of operations: disjoint ids, capacity, no staging claimed twice, and after Close nothing staged or claimed |
| ResourceEvents.Subscription.Publish | internal/agent/kubernetes/resource_events.go:162-188 | An event is offered exactly if it has no resource, or one of the subscribed namespace, of none, or any if none is asked for, and of a subscribed kind; below capacity it is queued and nothing lost; at capacity the loss is recorded, at most the oldest event that was still queued goes with it, and a reset takes their place; what was received is never changed |
| ResourceEvents.Subscription.Matches | internal/agent/kubernetes/resource_events.go:188-200 | The namespace and kind filter of one subscription |
| ResourceEvents.Subscription.Consume | internal/agent/kubernetes/resource_events.go:127-148 | Receiving takes from the front and leaves the stream as it is |
| ResourceEvents.Subscription.EvictOldest | internal/agent/kubernetes/resource_events.go:175-178 | The oldest queued event is dropped unless the consumer has emptied the queue, and there is room afterwards |
| ResourceEvents.Subscription.RaiseReset | internal/agent/kubernetes/resource_events.go:179-183 | The reset is always queued: with one publisher its own select cannot fail |
| ResourceEvents.Subscription.Overflow | internal/agent/kubernetes/resource_events.go:173-184 | The overflow path, with the consumer running in between: the stream is the old one without at most the oldest entry not yet received, and a reset behind it |
| ResourceEvents.SendKeeps | internal/agent/kubernetes/resource_events.go:170-172 | A queued event keeps the account of losses |
| ResourceEvents.OverflowKeeps | internal/agent/kubernetes/resource_events.go:173-184 | Dropping at most one entry, even an earlier reset, and appending a reset keeps the account of losses |
| ResourceEvents.LossIsSignalled | internal/agent/kubernetes/resource_events.go:162-188 | Every lost event has a reset in the stream, raised no earlier than the loss and behind everything published up to it |
| ResourceEvents.CompleteSinceReset | internal/agent/kubernetes/resource_events.go:162-188 | From the last reset on, or from the start when there is none, the stream is exactly what was published since, in order |
| Buildpacks.Runner.Containers | internal/agent/runner/buildpacks_runtime.go:133-156 | A listing that succeeds is the daemon's set of containers |
| Buildpacks.Runner.CleanupContainers | internal/agent/runner/buildpacks_runtime.go:157-181 | Success means the daemon was confirmed empty; nothing is ever added |
| Buildpacks.Runner.CleanupWorkspace | internal/agent/runner/buildpacks.go:172-178 | Success means credentials and source are gone; failure sets blocked; other workspaces are untouched |
| Buildpacks.Runner.CreateWorkspace | internal/agent/runner/buildpacks.go:180-205 | Success, exactly if nothing goes wrong, gives a fresh workspace with empty directories; failure leaves nothing, or a recorded leftover without secrets when its own removal failed |
| Buildpacks.Runner.Sweep | internal/agent/runner/buildpacks.go:143-153 | The container cleanup's three results, their blocked flag, and how they overwrite the task's result |
| Buildpacks.Runner.InWorkspace | internal/agent/runner/buildpacks.go:121-169 | Everything under the workspace cleanup: at most one build, after its confirmation, on the daemon as it is, followed by its sweep |
| Buildpacks.Runner.RunBuildpacks | internal/agent/runner/buildpacks.go:106-170 | What one run adds to the trace, exactly; a build starts only with blocked clear and an empty daemon; a run that met containers, or a set flag, is refused with everything left as it was; without a build the daemon is untouched; no error exactly when blocked was clear, the daemon empty and nothing went wrong |
| Buildpacks.Runner.ExecuteTask | internal/agent/runner/buildpacks.go:28-60 | One last callback: canceling exactly when the stop is unconfirmed, completed exactly when blocked was clear, the daemon empty and nothing went wrong, timed out and canceled exactly when the time is over or the task not wanted; on return the daemon is empty or blocked is set exactly when the daemon was empty before or blocked was set already |
| Buildpacks.Runner.Poll | internal/agent/runner/runner.go:545-548 | A blocked runner takes no further task and blocked never clears |
| Buildpacks.Runner.Serve | internal/agent/runner/buildpacks.go:20-60 | Over any sequence of tasks and any activity of others on the daemon in between, the whole trace stays sound |
| Buildpacks.AppendTask | internal/agent/runner/buildpacks.go:28-60 | A further task keeps the trace sound: blocked exactly when some cleanup failed, no build after that, builds on an empty daemon, right after their confirmation and right before their own sweep, canceling exactly for unconfirmed stops |
| Buildpacks.BuildsAreSeparated | internal/agent/runner/buildpacks.go:106-153 | Before a later build every earlier cleanup of any kind succeeded and the daemon is empty |
| Submodules.MatchBuildpacksSubmodules | internal/agent/runner/buildpacks_git.go:115-157 | For every visiting order: success exactly when declared paths are distinct, equal the gitlink paths, and each declaration passes the checks and has its bound checkout |
| Submodules.Visit | internal/agent/runner/buildpacks_git.go:115-157 | A declaration that fails its check against the remaining gitlinks decides the verdict; one that passes is consumed |
| Submodules.Check | internal/agent/runner/buildpacks_git.go:122-150 | The checks of one declaration, against the gitlinks it is given |
| Submodules.OneDeclarationPerLink | internal/agent/runner/buildpacks_git.go:115-157 | A success pairs declarations and gitlinks one to one |

## Left out

- Quota-probe volumes (`internal/agent/environment/docker_preflight.go`): they delete their subvolume without the lock and are removed; a volume here is a personal one, which no call removes.
- A container request whose effect outlives the call that gave up on it: its effect takes place within the request or not at all. A script may go on.
- The end of a supervisor with its container: a supervisor may live on after `container rm` for any time, or end at once.
- Docker hashes, labels as JSON, CLI flags, cgroup and quota numbers, and the bounds in `validateRequest`: outcomes of checks.
- The `quota_exceeded` state and the usage figures of a personal operation, `Manager.Snapshot`, `Manager.GCExpired` and `RuntimeManager.Inspect`.
- LogMerge.SortAggregateLogEntries: `sort.SliceStable` is represented by an insertion sort; `StableSortUnique` shows that any stable sort gives the same list.
- Parsing, filtering and streaming of logs (`StreamPodLogEvents`), and the resolution of sources: that a query reads each container once (names are checked to be unique, pods are listed once) is what `OwnContainers` says.
- Decoding of managed-fields entries: they come with their tree, or without one; the RFC 3339 text of a time is a parameter.
- ChangedFields.CollectResourceChangedFields: the caller's slice grows by the returned list; aliasing of the slice is not modelled.
- Numbers of different Go types with the same JSON text: JSON equality is structural.
- LeaseTables.RuntimeManager.Acquire: each operation is atomic, although the lock is dropped around backend calls.
- Reading gitlinks and `.gitmodules` through Git, URL parsing and path joining: `Submodules` takes their results, or functions for them.
- Heartbeats, status polling, log redaction and callback retries of the runner; the report and SBOM directories of a workspace; its cache eviction.
- ResourceEvents.Subscription.Publish: one publisher per subscription; concurrent publishers are not modelled.
- HTTP routes, authentication, configuration, Helm and Gateway mappers, and everything in the contracts packages: plumbing, or not visible.
