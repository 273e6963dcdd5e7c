# Verified model of the console's transfer, SSH, telemetry and workspace engines

The console copies datasets, models and code between GPU servers, keeps one SSH
connection per server, collects telemetry, expands ProxyJump chains, plans project
syncs, edits `authorized_keys` and keeps one realtime connection to the browser. This
project models the parts of it whose correctness is not visible in one function, and
proves what they promise for every input, every run and every interleaving.

`dafny verify dfyconfig.toml` checks everything.

## The engines

**Resumable relay** (`RelayFile`, `RelayCopy`, `SourceTree`, `RelayTree`, `RelayJob`,
`Verifier`). A target is a map from paths to entries. One attempt on one file is a
method over that map which the environment may stop anywhere; `RelayFile.Attempt` is
what it leaves. The invariant is that a scratch file whose sidecar parses is a prefix of
the source version the sidecar names. It survives every stop except one: the sidecar of
a new source version is complete (local_relay.py:229) before the old scratch file is
truncated (line 243), so a failed close or open in between leaves an old scratch file
under a new sidecar, and a later attempt appends to it. `AttemptSafeIff` says exactly
when; `ExposedStopCorrupts` shows three attempts that end in a wrong file. On top of it,
the recursive copy walk, the explicit-stack counting walk and the verifier's second walk
are related to one list of steps; where the source tree holds links, which the copy
skips and the verifier's walk follows, the two are compared.

**SSH manager** (`SshManager`, `SshRetire`, `SshSafety`, `SshReuse`, `SshIdentity`,
`SshPeers`, `TransferSessions`). Every section under the manager lock is a method and a function on
the tables; commands, identity changes and closes interleave as tasks over these sections
and over the semaphores. One invariant covers all interleavings; the rest are its
consequences and a measure for the drain. What the sections of a command decide is told
from the connections that were built. For whom an entry was built is traced back
through the run, and so is who connected it: the first command that finds the connection
without a peer connects it to the host of its own record. The lookup of a transfer session
is a second, smaller protocol.

**Telemetry** (`Telemetry`, `DemandScheduler`, `SchedulerRuns`, `RealtimeHub`,
`HubFrames`, `Correlation`). Reconciliation is proved against a relation between the states before and
after; worker steps, demand changes and reconciliations then run in any order. Held data
remembers the endpoint it was collected from, and every stored update gets a number, so
that a frame can be compared with the data it should show. The hub's broadcast loop and
the GPU/process join are methods proved against what they must leave.

**ProxyJump** (`Text`, `SshConfig`, `ProxyJump`). What a comma-separated piece asks for
is a function from the piece, so that expansion is a function over a graph; termination,
order and success are statements about any such graph. The depth parameter is the
interpreter's recursion budget. Whether expansion ends depends on the pieces its
evaluation comes to: those before the first fault.

**Paths, plans and target locks** (`Paths`, `RemotePaths`, `NormalForms`, `SyncPlan`,
`JobRegistry`), **authorized_keys** (`AuthorizedKeys`, `KeyLines`) and the **realtime
client** (`RealtimeClient`).

Promises of the code that do not hold as stated are kept as the code has them, with an
input or run that shows the failure and the exact condition under which they hold:

- the resume invariant (`RelayFile.AttemptSafeIff`, `RelayFile.ExposedStopCorrupts`);
- a finished relay verifies: an empty single file never does (`Verifier.RelayAndVerify`);
- the re-walk agrees with the copy: not when a link leads to a file whose mirror is not
  there (`Verifier.RewalkAgreesIff`, `Verifier.LinkToFileRefused`);
- an entry handed to a command was built for its identity: not when a task with another
  identity built it between the command's two lock sections (`SshIdentity.ForeignEntryIff`,
  `SshIdentity.IdentityCanDiffer`);
- a command runs on the host of its own record: not when a command with another identity
  connected the connection before it, whatever identity the entry was built for
  (`SshPeers.PeerForeignIff`, `SshPeers.PeerCanDiffer`);
- telemetry is shown only for the host it came from, also across a stop and a start
  (`SchedulerRuns.RestartIff`, `SchedulerRuns.RestartCanExpose`);
- a waiting hub has shown every client the selected server as it is: not when the server
  was forgotten since, so that its version numbers started again, or the owners of its
  processes were stored, which notifies nobody (`HubFrames.SnapshotShowsIff`,
  `HubFrames.SnapshotCanBeMissed`);
- and the fleet as it is: not when storage, network, processes or their owners were stored
  since, which are shown but raise no fleet revision (`HubFrames.FleetShowsIff`,
  `HubFrames.FleetCanBeStale`);
- ProxyJump expansion ends (`ProxyJump.EndsIff`, `ProxyJump.SucceedsSomewhereIff`,
  `ProxyJump.NeverEnds`);
- the text of a hop reads back as that hop (`ProxyJump.HopReparsed`): the documentation of
  `_split_hop` says that a bare IPv6 address keeps its last group, the code reads the
  digits after the last colon as a port;
- a normalised path is its own normal form: not when it starts or ends in whitespace, as
  the one of "/a /" does (`NormalForms.NormalizeTwiceIff`, `NormalForms.TrailingSpaceLost`);
- a leaf adds one component to a root (`RemotePaths.LeafAddsOneIff`: not when the root
  ends in whitespace);
- one directory has one target lock (`JobRegistry.SharedLockIff`,
  `JobRegistry.ExtraSlashSecondLock`: two leading slashes are kept, as section 4.13 of the
  POSIX.1-2017 Base Definitions allows, so the same tree has a second lock);
- the lock makes a job the single writer of its target: of the path, not of the tree; a job
  on a directory and one on a place below it are active together
  (`JobRegistry.ActiveTreesOverlapIff`, `JobRegistry.AdmitBoth`);
- an edit of `authorized_keys` keeps the lines of others: not when it removes the old file
  and then cannot rename the new one (`KeyLines.UserLinesSurviveIff`, `KeyLines.AddingCanLose`);
- the realtime client has a socket or a retry, never both: not when listeners stop or start
  it while it tells them of a close or a start (`RealtimeClient.RunKeepsIff`,
  `RealtimeClient.StopInsideClose`).

## Model

| member | source | states |
|---|---|---|
| RelayFile.ScratchNamesApart | backend/app/transfer/strategies/local_relay.py:55-62 | scratch and sidecar names of two targets never meet and never equal their own target, so different targets have different scratch |
| RelayFile.ResumesIff | backend/app/transfer/strategies/local_relay.py:272-344 | bytes are kept if and only if the scratch file is not empty and no longer than the source and its sidecar can be read and has, field by field, this artifact, source path, target path, size and mtime; then all of them are |
| RelayFile.AttemptSafeIff | backend/app/transfer/strategies/local_relay.py:203-270 | one attempt, stopped anywhere, keeps "a described scratch file is a prefix of its source" if and only if it was not stopped between the complete new sidecar and the truncation of an old scratch file that is no prefix of the new source |
| RelayFile.AttemptDelivers | backend/app/transfer/strategies/local_relay.py:243-270 | the attempt that finishes leaves the target byte-equal to the source |
| RelayFile.AttemptFrame | backend/app/transfer/strategies/local_relay.py:203-270 | an attempt changes nothing but the target, its two scratch names and missing directories |
| RelayFile.RunDelivers | backend/app/transfer/strategies/local_relay.py:186-301 | over any number of attempts on one target, from any source paths and with the sources changing between them, every described scratch file stays a prefix of what its sidecar's source path held at that size and mtime, and the attempt that finishes delivers its own source exactly |
| RelayFile.ExposedStopCorrupts | backend/app/transfer/strategies/local_relay.py:228-247 | three concrete attempts, the second failing to open its writer, end with a target that is neither source version |
| RelayCopy.Target.Rename | backend/app/ssh/transport.py:463-477 | a rename replaces a file target in one step, fails with nothing changed, or fails after the target was removed |
| RelayCopy.CopyLoop | backend/app/transfer/strategies/local_relay.py:248-262 | however the loop ends, the scratch file has grown by the next source bytes, the counters by the bytes written whole, and "done" means all of the source |
| RelayCopy.WriteSidecar | backend/app/transfer/strategies/local_relay.py:347-374 | the sidecar is complete, or a proper prefix of its text, or untouched |
| RelayCopy.Prepare | backend/app/transfer/strategies/local_relay.py:204-247 | before the first byte: the attempt ended in one of the early ways, or the scratch file is open at the resume offset under a sidecar that describes it |
| RelayCopy.Commit | backend/app/transfer/strategies/local_relay.py:264-270 | rename, sidecar sweep and mtime restore leave the consumed target, or a failed rename |
| RelayCopy.RelayOne | backend/app/transfer/strategies/local_relay.py:186-270 | the copy of one file leaves exactly the attempt's target, and the counters grow by the bytes resumed and streamed, nothing else |
| SourceTree.WantedIsVisited | backend/app/transfer/strategies/local_relay.py:435-484 | the recursive walk visits every regular file with no skipped or excluded name below the root |
| SourceTree.VisitedIsWanted | backend/app/transfer/strategies/local_relay.py:435-484 | and it visits nothing else |
| SourceTree.VisitedOnce | backend/app/transfer/strategies/local_relay.py:435-484 | no place is visited twice |
| SourceTree.CountFolder | backend/app/transfer/strategies/local_relay.py:417-431 | one round of the counting walk: counted plus pending files and bytes stay what the recursive walk of the popped and the remaining folders meets |
| SourceTree.CountTree | backend/app/transfer/strategies/local_relay.py:400-432 | the explicit-stack walk ends and counts exactly the files and bytes that the recursive copy walk meets |
| RelayTree.WalkMirrors | backend/app/transfer/strategies/local_relay.py:435-484 | a walk that finishes leaves every visited file mirrored with equal content |
| RelayTree.WalkFrame | backend/app/transfer/strategies/local_relay.py:435-484 | a walk, finished or not, changes no path that is neither a mirror nor a scratch name of one |
| RelayTree.WalkSafeIff | backend/app/transfer/strategies/local_relay.py:435-484 | a walk, finished or cut short anywhere, leaves every scratch file resumable if and only if no file's attempt was stopped in the exposed window with a scratch file that is no prefix |
| RelayTree.WalkCounts | backend/app/transfer/strategies/local_relay.py:224-254 | bytes done are exactly bytes resumed, skipped and streamed, also after a walk cut short; a finished walk has counted every file and byte |
| RelayTree.WalkSettles | backend/app/transfer/strategies/local_relay.py:265-269 | a finished walk that restored nonzero mtimes leaves every file up to date |
| RelayTree.SettledWalkSkips | backend/app/transfer/strategies/local_relay.py:377-387 | walking an up-to-date target skips and counts every file, streams nothing and keeps every entry |
| RelayTree.SecondRunStreamsNothing | backend/app/transfer/strategies/local_relay.py:377-387 | running the directory relay again on an unchanged tree streams no byte, skips every file and leaves all target contents |
| RelayTree.RelayedTree | backend/app/transfer/strategies/local_relay.py:435-484 | a finished directory relay of an unchanged tree mirrors every wanted file byte for byte and keeps every other target entry, unless a file is named like another's scratch file |
| RelayJob.RelayChild | backend/app/transfer/strategies/local_relay.py:474-484 | one file of the walk is skipped if and only if the target has a regular file there with the source's size and its known mtime, and then nothing is streamed or changed; else it is copied; with the counters of the step |
| RelayJob.RelayDir | backend/app/transfer/strategies/local_relay.py:435-484 | the recursive method does a prefix of the tree's steps in order, and all of them when it finishes |
| RelayJob.RelayTransfer | backend/app/transfer/strategies/local_relay.py:116-183 | a finished job has files done = files total and bytes done = bytes total, the totals coming from the other walk; bytes done are always resumed plus skipped plus streamed |
| Verifier.FirstMissing | backend/app/transfer/verifier.py:78-111 | the second walk, which follows links, finds nothing missing exactly when every wanted file it sees has a mirror of equal size |
| Verifier.QuickVerify | backend/app/transfer/verifier.py:25-75 | the check answers yes exactly on: target there, and for a file its size and non-emptiness, for a folder equal counters or the second walk; it fails when the source path is gone and the counters differ |
| Verifier.RewalkIsSound | backend/app/transfer/verifier.py:54-75 | a yes that does not come from the counters means that every wanted file, also one behind links, has a mirror of equal size |
| Verifier.SingleVerdictIff | backend/app/transfer/verifier.py:39-52 | a single file verifies exactly when its target is there, is not empty and has the counted size, if one was counted |
| Verifier.FolderVerdictIff | backend/app/transfer/verifier.py:39-75 | a folder verifies exactly when its target is there and both counters were tracked and met, or every wanted file, links followed, has a mirror of equal size |
| Verifier.RewalkAgreesIff | backend/app/transfer/verifier.py:96-111 | after a finished copy the second walk says yes if and only if the files behind links have mirrors of equal size too |
| Verifier.LinkToFileRefused | backend/app/transfer/verifier.py:96-111 | the finished copy of a folder with one link to a file is refused by the second walk |
| Verifier.RelayAndVerify | backend/app/transfer/verifier.py:25-75 | after a finished relay a folder always verifies, also with links in it; a single file exactly when it is not empty |
| SshManager.Manager.FindStale | backend/app/ssh/manager.py:95-100 | first lookup section: refused while retiring, else whether the listed identity is another one; the next row says what that means in a run |
| SshReuse.FindRetiresIff | backend/app/ssh/manager.py:95-103 | in every run, a command that looks goes to close the entry if and only if its server is not retiring and the listed connection was built for another identity; it gives up exactly while the server retires, and otherwise goes on to take the entry |
| SshReuse.GetTakesIff | backend/app/ssh/manager.py:104-120 | in every run, it then takes the listed connection, or builds one for its own identity exactly when none is listed and fewer than 512 are, or gives up |
| SshReuse.RunsIff | backend/app/ssh/manager.py:153-163 | in every run, with its permit it runs exactly when its connection is still the listed one of a server that is not retiring |
| SshReuse.CloseReturns | backend/app/ssh/manager.py:100-107 | a command goes on to take an entry after the close it ran or waited for, a closer is done |
| SshReuse.OneIdentityReuses | backend/app/ssh/manager.py:95-172 | a server that only commands with one identity come for is never retired: all of them share one connection, built once, listed ever since and never closed |
| SshManager.Manager.GetEntry | backend/app/ssh/manager.py:104-120 | second lookup section: refused, full at 512 entries, the existing entry, or a new connection and slot listed under the same three keys |
| SshManager.Manager.BeginClose | backend/app/ssh/manager.py:314-326 | a close waits for the running one, or becomes the owner and marks the server retiring |
| SshManager.Manager.PopDrained | backend/app/ssh/manager.py:346-349 | the drained owner drops the entry only if it is still the one it drained |
| SshManager.Manager.PopEntry | backend/app/ssh/manager.py:364-367 | connection, slot and identity leave together |
| SshManager.Manager.EndClose | backend/app/ssh/manager.py:358-362 | the server may be used again and the waiters' event is the one handed back |
| SshRetire.StepKeepsInv | backend/app/ssh/manager.py:95-367 | every step of every command, identity change and close keeps: the three maps have the same keys, each slot's permits and the overall ones are free or held, a server retires exactly while one task owns its close, and every task's entry and event are as its place requires |
| SshRetire.RunKeepsInv | backend/app/ssh/manager.py:95-367 | hence in every interleaving |
| SshSafety.DrainedOwn | backend/app/ssh/manager.py:338-349 | in every reachable state a draining owner's entry is listed, open and the one it found, so the early return of a drained owner never happens |
| SshSafety.ActiveUsesInstalled | backend/app/ssh/manager.py:144-172 | a command past its recheck uses the connection and slot installed for its server, and that connection has not been closed |
| SshSafety.ClosedWhileIdle | backend/app/ssh/manager.py:338-351 | when a close reaches the connection, no command of the server is active and nobody else holds a permit of the slot |
| SshSafety.OneOwner | backend/app/ssh/manager.py:314-333 | two tasks never own the close of one server, and a server is retiring exactly while one does |
| SshSafety.InFlightBounds | backend/app/ssh/manager.py:144-172 | at most max_in_flight_per_server commands run per server id, across rebuilds; at most max_in_flight_global in all; at most 512 entries |
| SshSafety.NothingStartsWhileRetiring | backend/app/ssh/manager.py:122-128 | while a server retires no command gets past its recheck and none joins its queue |
| SshSafety.StepDrains | backend/app/ssh/manager.py:338-362 | while a server retires, queued and running commands and the owner's remaining work are a measure that no step raises and each of their own steps lowers |
| SshSafety.CloseNeverStuck | backend/app/ssh/manager.py:338-362 | while a server retires, some step that lowers the measure is possible |
| SshSafety.CloseEnds | backend/app/ssh/manager.py:307-362 | any run during which the server keeps retiring contains at most as many such steps as the measure says |
| SshSafety.WaitersReleased | backend/app/ssh/manager.py:328-330 | once a server no longer retires, everybody who waited for its close can go on |
| SshIdentity.ForeignEntryIff | backend/app/ssh/manager.py:95-120 | in every run, the connection a command waits for or uses was built for another identity if and only if a task with another identity built it between the two lock sections of the command's lookup |
| SshIdentity.IdentityCanDiffer | backend/app/ssh/manager.py:97-120 | two commands that both find no entry: the later one queues on a connection built for the other identity |
| SshPeers.PeerForeignIff | backend/app/ssh/manager.py:144-187 | in every run, a command runs on a host reached with another identity if and only if a command with another identity connected the connection before this one started on it and the connection was neither lost nor closed in between, whatever identity the entry was built for |
| SshPeers.PeerCanDiffer | backend/app/ssh/manager.py:144-187 | a run in which the command that built an entry runs on the host of another one, which queued on the entry and connected it first |
| SshPeers.ManagerRuns | backend/app/ssh/manager.py:144-187 | connecting, using and losing connections leave the manager in states of its own runs, so all results on those hold here too |
| TransferSessions.StepKeepsInv | backend/app/ssh/manager.py:396-450 | every step of callers, losses and closes keeps: only the cached session can be usable, and the creation lock is held exactly by the one caller past it |
| TransferSessions.OneUsableSession | backend/app/ssh/manager.py:396-436 | concurrent callers share one session: at most one is usable, the cached one |
| TransferSessions.CreatedOnlyWhenNoneUsable | backend/app/ssh/manager.py:420-450 | a new session replaces nothing, and is made only when no earlier one is usable; a caller is handed a usable cached session or a new one |
| TransferSessions.LockMovesOn | backend/app/ssh/manager.py:414-436 | while a caller queues for the creation lock, it is free or its holder can go on |
| Telemetry.TelemetryState.SetStatus | backend/app/telemetry/state.py:182-189 | a changed status or detail is stored, cut, counted and notified; the same one is not, but makes the server's record |
| Telemetry.TelemetryState.SetError | backend/app/telemetry/state.py:291-316 | a changed or cleared error of a known section is stored, counted and notified as a fleet change |
| Telemetry.TelemetryState.UpdateSection | backend/app/telemetry/state.py:191-289 | a section's update is stored and counted; all but the owners' notify, and four raise the fleet revision |
| Telemetry.UpdateTells | backend/app/telemetry/state.py:182-316 | an update raises version, revision and wake flag exactly when it tells something new, and the fleet revision unless it is of storage, network, processes or GPU processes |
| Telemetry.UpdateStores | backend/app/telemetry/state.py:182-316 | and it stores its status with the detail cut to 300 characters, or its error under its section, and leaves the rest and all other servers as they were |
| Telemetry.TelemetryState.Clear | backend/app/telemetry/state.py:486-495 | data, history and baselines of the server go together, with one notification |
| Telemetry.TelemetryState.Prune | backend/app/telemetry/state.py:497-501 | exactly the servers outside the kept set are dropped |
| DemandScheduler.EnabledKeyed | backend/app/telemetry/scheduler.py:176 | the enabled map holds enabled records of the list under their own ids, one for every enabled id |
| DemandScheduler.LastCounts | backend/app/telemetry/scheduler.py:176 | of several enabled records with one id the last one counts |
| DemandScheduler.Scheduler.ReconcileOne | backend/app/telemetry/scheduler.py:177-204 | one record: its worker goes on, or is cancelled and replaced, and moved telemetry is dropped; the rows on runs below say when |
| DemandScheduler.Scheduler.Reconcile | backend/app/telemetry/scheduler.py:169-210 | exactly the enabled servers have a record and a worker; a worker goes on exactly when it still runs and endpoint and interval are unchanged; every other listed worker is cancelled; exactly the telemetry of moved and disabled servers is dropped |
| DemandScheduler.Scheduler.SetDemand | backend/app/telemetry/scheduler.py:120-131 | a change of demand gets a new revision and sets the event of every registered worker; no change does neither |
| SchedulerRuns.RunKeepsInv | backend/app/telemetry/scheduler.py:169-345 | every order of reconciliations, demand changes and worker steps keeps the invariant behind the next three rows |
| SchedulerRuns.HeldUnderCurrentEndpoint | backend/app/telemetry/scheduler.py:190-210 | telemetry, GPU history and network baselines held for an enabled server were collected under its current endpoint, and none are held for any other server |
| SchedulerRuns.OneWorkerPerServer | backend/app/telemetry/scheduler.py:177-210 | at most one uncancelled, unfinished worker per server: the listed one |
| SchedulerRuns.WorkersFollowRecords | backend/app/telemetry/scheduler.py:177-210 | in every state of a run, a worker that can still run has the endpoint and the interval of its server's record |
| SchedulerRuns.CancelledIff | backend/app/telemetry/scheduler.py:177-210 | a reconciliation cancels a running worker if and only if its server is not enabled any more, or with another endpoint or interval than the worker's own; any other one goes on untouched, as the listed one |
| SchedulerRuns.EveryEnabledWorks | backend/app/telemetry/scheduler.py:177-204 | after a reconciliation every enabled server has a worker that can run, for the endpoint and interval of its record |
| SchedulerRuns.DataKeptIff | backend/app/telemetry/scheduler.py:190-210 | a reconciliation keeps all that is held of a server that stays enabled at its endpoint, and drops all that is held of any other |
| SchedulerRuns.DemandWakes | backend/app/telemetry/scheduler.py:120-131 | a demand with another number of clients, not counted below zero, or other servers shown gets the next revision and wakes every blocked worker; an equal one changes nothing |
| SchedulerRuns.NoLostWakeup | backend/app/telemetry/scheduler.py:277-337 | a worker blocked on its unset event has observed the current demand revision, so a change of demand leaves no worker blocked on an unset event |
| SchedulerRuns.RestartIff | backend/app/telemetry/scheduler.py:153-210 | after a stop and a new reconciliation held telemetry is again the servers' own exactly when no enabled server with held data changed its endpoint meanwhile |
| SchedulerRuns.RestartCanExpose | backend/app/telemetry/scheduler.py:153-165 | a run, a stop and a reconciliation that leave data of one host under another |
| RealtimeHub.NewestWins | backend/app/telemetry/hub.py:43-50 | after any number of pushes a queue holds the newest frames, in order, within its bound |
| RealtimeHub.Hub.Broadcast | backend/app/telemetry/hub.py:160-217 | one round clears the event first, gives every client the fleet frame and snapshot it lacks and each changed status once, and blocks |
| RealtimeHub.Hub.PushStatuses | backend/app/telemetry/hub.py:206-217 | the status frames are exactly the known statuses that differ from what was last sent, and all statuses are remembered |
| RealtimeHub.Hub.SetIntent | backend/app/telemetry/hub.py:140-156 | a selection, stripped and cut to 128 characters, makes every client's frames due and wakes the loop; an empty one is refused |
| RealtimeHub.Hub.Connect | backend/app/telemetry/hub.py:109-127 | a new client lacks every frame, has the hello frame queued, and wakes the loop |
| RealtimeHub.Hub.Disconnect | backend/app/telemetry/hub.py:129-133 | the client and its queue go, and nothing else changes |
| RealtimeHub.RoundQueue | backend/app/telemetry/hub.py:172-217 | a round leaves in a client's queue the newest frames of what was there, the fleet frame exactly when this revision was not sent, the selected server's snapshot exactly when it is there and this version was not sent, and the status news, in this order |
| RealtimeHub.BlockedHasPushed | backend/app/telemetry/hub.py:153-187 | in every interleaving, also with updates that notify nobody, while the loop blocks on the unset event, the fleet revision, the selected server's version once an update was notified, and every known status have been pushed to every client, and no queue exceeds its bound |
| RealtimeHub.FleetDueIff | backend/app/telemetry/hub.py:172-187 | in every run, an event between rounds makes a fleet frame due exactly when one was due before, or it raises the fleet revision, or it is a selection |
| HubFrames.FleetShowsIff | backend/app/telemetry/hub.py:172-187 | while the loop waits, the last fleet frame pushed to a client shows the fleet as it is if and only if no storage, network, processes, GPU processes or owners were stored since |
| HubFrames.FleetCanBeStale | backend/app/telemetry/state.py:256-260 | a run in which storage is updated and notified and the round it wakes pushes no fleet frame |
| HubFrames.SnapshotShowsIff | backend/app/telemetry/hub.py:189-204 | while the loop waits, the last snapshot pushed to a client shows the selected server as it is if and only if it was one of that server and since then the server was not forgotten and no owners of its processes were stored |
| HubFrames.SnapshotCanBeMissed | backend/app/telemetry/hub.py:189-204 | a run after which a waiting hub leaves a client with the snapshot of another host, because the version started again after a clear |
| Correlation.ServerState.Correlate | backend/app/telemetry/state.py:320-363 | the method joins every GPU process in place, sorts stably, and writes counts, index lists and VRAM as the tallies say |
| Correlation.ServerState.JoinAll | backend/app/telemetry/state.py:328-354 | the joined list, and tallies that equal the counts, index sets and memory sums of that list |
| Correlation.CorrelatedMeans | backend/app/telemetry/state.py:320-363 | afterwards each GPU's process count is the number of processes with its index, each process lists its pid's GPU indexes sorted and once each, and its VRAM is the sum over its indexed entries with a figure |
| Correlation.JoinedIndex | backend/app/telemetry/state.py:327-333 | a GPU process is on the last GPU with its identifier, nowhere when no GPU has it, and stays where it was without an identifier |
| Correlation.JoinedOwner | backend/app/telemetry/state.py:334-346 | user and command are those of the last process with its pid, which also names it when it has no name; else what is known of the pid fills what is missing; else its owner does |
| Correlation.AllJoinedAt | backend/app/telemetry/state.py:331-346 | each GPU process is joined by itself, in place |
| Correlation.TalliesGrow | backend/app/telemetry/state.py:347-355 | each counts on its GPU, is listed there for its pid, and adds its memory to its pid when it is located and has a figure |
| Correlation.SumSorted | backend/app/telemetry/state.py:356-358 | sorting changes no sum over the processes |
| Correlation.SortedInOrder | backend/app/telemetry/state.py:356-358 | the processes come in the key's order, and are the same ones |
| Correlation.SortedStable | backend/app/telemetry/state.py:356-358 | entries that the key does not tell apart keep their order |
| Correlation.CorrelateTwice | backend/app/telemetry/state.py:320-363 | correlating again changes nothing |
| SshConfig.MatchPatterns | backend/app/ssh/config_resolver.py:157-169 | a block matches exactly when some positive pattern does and no negated one, in whatever order they stand |
| SshConfig.MatchesIff | backend/app/ssh/config_resolver.py:157-169 | told from the patterns: without regard to case some pattern without an exclamation mark fits, and none with one does |
| SshConfig.FirstWins | backend/app/ssh/config_resolver.py:174-200 | the resolved value of a directive is the first one any block offers, or none when no block offers one |
| SshConfig.Resolve | backend/app/ssh/config_resolver.py:174-210 | hostname, user, port and jump are each the first offer of a matching block, and the key files those of all matching blocks, each once; a port outside 1 to 65535 is no offer, so a later block may give one |
| SshConfig.ResolvedSays | backend/app/ssh/config_resolver.py:174-210 | told from the blocks: each of host name, user and jump is the first value given by a matching block, with the alias put in and the ends stripped; the port is the first number from 1 to 65535 so given; the key files are those any matching block names |
| Text.FirstReplaced | backend/app/ssh/config_resolver.py:226-228 | the first %h or %n becomes the alias, and what follows it is treated the same way |
| Text.StripIs | backend/app/ssh/config_resolver.py:228 | exactly the whitespace at the two ends goes |
| SshConfig.UniqueIs | backend/app/ssh/config_resolver.py:198-201 | collecting key files keeps each one once and loses none |
| SshConfig.UniqueInOrder | backend/app/ssh/config_resolver.py:198-201 | and in the order in which they are first named |
| ProxyJump.ResolveProxyJump | backend/app/ssh/config_resolver.py:264-302 | the recursive method with its loop computes the expansion over the jump graph of the config, which the next two rows determine |
| ProxyJump.AskedHop | backend/app/ssh/config_resolver.py:278-301 | a piece asks for the hop of the written user, else the config's, if not empty; of the config's host name, if not empty, else the written host; and of the written port, else the config's, else 22; cycles are told by that host, case-folded, and the config's jump, if not empty, is expanded in front |
| ProxyJump.AskedNothing | backend/app/ssh/config_resolver.py:279-283 | an empty piece and none, in any case, ask for nothing; a port of digits that are no number is a fault |
| ProxyJump.PlainSplit | backend/app/ssh/config_resolver.py:258-261 | without brackets, digits after the last colon are the port; anything else stays in the host |
| ProxyJump.BracketsSplit | backend/app/ssh/config_resolver.py:250-257 | in brackets is the host; a colon and digits behind them are the port, anything else there is dropped |
| ProxyJump.UserSplitOff | backend/app/ssh/config_resolver.py:244-249 | the user is what stands before the last at sign, if anything does |
| ProxyJump.HopOrder | backend/app/ssh/config_resolver.py:278-302 | the text of every expansion that succeeds on the hops 1 to n joins inner_n, ..., inner_1, hop_1, ..., hop_n, where inner_k is the expansion of the jumps of hop k |
| ProxyJump.EndsIff | backend/app/ssh/config_resolver.py:264-302 | some depth is enough for expansion to end, in success or in a fault, if and only if the pieces its evaluation comes to, before the first fault, lead to finitely many hosts |
| ProxyJump.FiniteEnds | backend/app/ssh/config_resolver.py:264-302 | hence it ends whenever only finitely many hosts can be reached from the jump, with a depth of one more than the hosts not yet seen |
| ProxyJump.ExpansionEnds | backend/app/ssh/config_resolver.py:264-302 | for every config whose jumps carry no %h or %n, expansion needs no more depth than there are hosts named by the config's and the given jumps |
| ProxyJump.SucceedsSomewhereIff | backend/app/ssh/config_resolver.py:264-302 | some depth is enough for success if and only if every piece that can be reached is sound and leads to no host of its own path, and only finitely many hosts can be reached |
| ProxyJump.DeeperSame | backend/app/ssh/config_resolver.py:264-302 | the depth decides only whether expansion ends, never its outcome |
| ProxyJump.SucceedsIff | backend/app/ssh/config_resolver.py:284-297 | expansion that is not cut short succeeds exactly when every piece it can reach has a sound port and no nesting path comes back to an effective host |
| ProxyJump.SuccessIsAcyclic | backend/app/ssh/config_resolver.py:284-297 | after success the effective hosts on every nesting path are distinct and none was seen before |
| ProxyJump.FailureHasWitness | backend/app/ssh/config_resolver.py:284-297 | a failure names a path that repeats a host or reaches a bad port |
| ProxyJump.NeverEnds | backend/app/ssh/config_resolver.py:174-302 | with one block for every host and the jump x%h, no depth is enough |
| ProxyJump.HopReparsed | backend/app/ssh/config_resolver.py:237-302 | a hop's text reads back as the same user, host and port exactly unless the port is 22 and the host ends in a colon and digits |
| Paths.SanitizedIsComponent | backend/app/workspace/paths.py:35-61 | a sanitised text is non-empty, has only kept characters, no double dash, no dash or dot at its ends, and at most the given length |
| Paths.CleanedLetters | backend/app/workspace/paths.py:49-55 | its letters are those of the text, in order and none added, but for dots in front and behind |
| Paths.SeparatorBecomesDash | backend/app/workspace/paths.py:49-55 | one character that is not kept, between two components, becomes a dash |
| Paths.SanitizedIs | backend/app/workspace/paths.py:47-61 | a text is refused exactly when nothing usable is left of it; one that is too long is cut at the limit, with the dashes and dots before the cut |
| Paths.PlainUnchanged | backend/app/workspace/paths.py:24-32 | letters, digits and underscores stay as they are |
| Paths.SanitizeTwice | backend/app/workspace/paths.py:35-61 | sanitising twice is sanitising once |
| Paths.LeafDecodes | backend/app/workspace/paths.py:64-75 | a leaf exists exactly when name and version sanitise, and the text around its first double dash is the sanitised pair |
| Paths.LeafDeterminesParts | backend/app/workspace/paths.py:64-75 | two leaves are equal exactly when their sanitised names and versions are |
| Paths.LeafIsOneComponent | backend/app/workspace/paths.py:64-75 | a leaf is one path component: not empty, not "." or "..", without a slash |
| RemotePaths.ComponentsAre | backend/app/workspace/paths.py:78-112 | the components of a normalised path are what removing empty, "." and ".." pieces leaves, whatever its slashes |
| RemotePaths.ReducedRewrites | backend/app/workspace/paths.py:78-93 | those pieces go by rewriting: an empty or "." piece, a name with a ".." behind it, and a ".." at the root |
| NormalForms.NormalizeTwiceIff | backend/app/workspace/paths.py:78-93 | normalising any path again changes nothing if and only if the normalised path neither starts nor ends in whitespace |
| NormalForms.TrailingSpaceLost | backend/app/workspace/paths.py:78-93 | a last component ending in whitespace survives the first normalisation of a path with a slash at its end and not the second |
| RemotePaths.OverlapIff | backend/app/workspace/paths.py:96-107 | two paths overlap exactly when some place lies under both, in either order |
| RemotePaths.LeafAddsOne | backend/app/workspace/sync_planner.py:372-373 | a leaf joined to an absolute root adds exactly one component |
| RemotePaths.LeafAddsOneIff | backend/app/workspace/sync_planner.py:372-373 | for any absolute root, exactly when the root does not end in whitespace |
| RemotePaths.FirstFreeIs | backend/app/workspace/paths.py:157-173 | a claim is the first free of the base and its suffixed forms, and fails only when all are taken |
| RemotePaths.ClaimedIs | backend/app/workspace/paths.py:157-173 | the forms are the base, then two dashes and the first 6, 8, 12 characters of the id, then the whole id |
| RemotePaths.ClaimPath | backend/app/workspace/paths.py:157-173 | the loop over the widths makes that claim |
| RemotePaths.DedupedDistinct | backend/app/workspace/paths.py:115-143 | no two artifacts of a batch get the same leaf, and each gets its own or that leaf with a prefix of its owner's id |
| RemotePaths.DedupeLeaves | backend/app/workspace/paths.py:115-143 | the loop maps every artifact to the leaf given to it, or fails when one has none left |
| JobRegistry.Registry.Create | backend/app/transfer/state.py:41-75 | a job is refused exactly when an active job has its target; a new one takes its lock; the lock table stays the exact mirror of the active jobs |
| JobRegistry.Registry.Transition | backend/app/transfer/state.py:88-108 | a terminal state, also a repeated one, archives the job and frees exactly the lock it holds; other states move nothing |
| JobRegistry.Registry.ReleaseTargetLock | backend/app/transfer/state.py:97-100 | a lock is freed only by the job that holds it |
| JobRegistry.Registry.TargetLockHolder | backend/app/transfer/state.py:102-104 | the holder is an active job with that target, and none means that no active job has it |
| JobRegistry.Registry.ClearHistory | backend/app/transfer/state.py:136-144 | exactly the terminal entries go; active jobs and locks stay |
| JobRegistry.Registry.TargetsDiffer | backend/app/transfer/state.py:54-75 | no two active jobs share a target key |
| JobRegistry.SharedLockIff | backend/app/transfer/state.py:25-28 | two absolute paths share a lock exactly when their components agree and, below the root, both or neither start with exactly two slashes |
| JobRegistry.ExtraSlashSecondLock | backend/app/transfer/state.py:25-28 | one more leading slash gives the same directory tree a second lock |
| JobRegistry.ActiveTreesOverlapIff | backend/app/transfer/state.py:25-75 | two active jobs on one server write into overlapping trees if and only if one target lies strictly below the other, or they name one tree with and without exactly two leading slashes |
| JobRegistry.AdmitBoth | backend/app/transfer/state.py:41-75 | any two such targets can be active together |
| SyncPlan.SelectSource | backend/app/workspace/sync_planner.py:302-336 | the usable candidates in order, the first one selected and the rest as alternatives |
| SyncPlan.SourceIsBest | backend/app/workspace/sync_planner.py:302-336 | the sources in order of preference are the usable placements of the artifact on other servers, the verified ones first, each group in declaration order |
| SyncPlan.WhereAround | backend/app/workspace/sync_planner.py:312-333 | choosing keeps each placement that passes where it stands among the others, and no other |
| SyncPlan.PlanItem | backend/app/workspace/sync_planner.py:135-289 | one decision; the path is the declared one, or the automatic one, which is then remembered; it fails exactly when a path it needs is refused |
| SyncPlan.DecidedIff | backend/app/workspace/sync_planner.py:135-289 | it skips exactly while syncing, and when the target is there, unless it is code to be refreshed; it transfers exactly when the target is missing or code to be refreshed, and there are a path, a usable source and the planner's consent |
| SyncPlan.TargetStatus | backend/app/workspace/sync_planner.py:145-167 | with a placement on the server the first one declared counts: what is cached of it, checked now when that is nothing or no more than the declaration |
| SyncPlan.NoTargetStatus | backend/app/workspace/sync_planner.py:145-156 | with none the target is missing |
| SyncPlan.SuggestedIs | backend/app/workspace/sync_planner.py:362-373 | the automatic path is the leaf under the root for the kind, normalised; there is none exactly without a root or with an empty one |
| SyncPlan.ClaimTarget | backend/app/workspace/sync_planner.py:199-224 | the automatic path is the first tried one that no other artifact's placement on the server and no earlier suggestion uses; there is none exactly when the server has no root or all tries are in use |
| SyncPlan.OverlapError | backend/app/workspace/sync_planner.py:424-445 | the nested loops answer valid exactly when no two transfers overlap, and fail only on a pair that cannot be compared |
| SyncPlan.BuildPlan | backend/app/workspace/sync_planner.py:87-131 | the items are the decisions one after the other; automatic paths differ from each other and from every other artifact's normalised placement on the server, and the plan is valid exactly when no two transfer targets overlap |
| SyncPlan.ValidIsDisjoint | backend/app/workspace/sync_planner.py:424-445 | in a valid plan no place lies in the target trees of two transfers |
| SyncPlan.ValidTreesDisjoint | backend/app/workspace/paths.py:96-112 | the same of the components of the workspace's own normalised paths |
| AuthorizedKeys.LinesConcat | backend/app/direct_auth/service.py:755-773 | the lines with their ends make up the file again |
| AuthorizedKeys.RestrictedFields | backend/app/direct_auth/service.py:691 | the restricted line is one line, its last field the comment and the one before the key blob |
| AuthorizedKeys.PlainFields | backend/app/direct_auth/service.py:112-126 | a line of two words has no comment; of three the last is the comment and the one before the key |
| AuthorizedKeys.RemovalDropsOne | backend/app/direct_auth/service.py:754-769 | a removal drops exactly one line, the first with this comment and, when a fingerprint is known, a key with it; it keeps all others in order, also one with the comment and another key, finds nothing exactly when no line has both, and stops at a key it cannot decode |
| AuthorizedKeys.AppendThenRemove | backend/app/direct_auth/service.py:675-773 | appending the line for an absent comment and removing it by that comment and its fingerprint restores the file, with at most one newline after a last line that had none |
| AuthorizedKeys.AppendedHasComment | backend/app/direct_auth/service.py:688-696 | the appended comment is found afterwards, so appending again changes nothing |
| AuthorizedKeys.KeyFile.Write | backend/app/direct_auth/service.py:776-793 | written beside and renamed over; without an overwriting rename the old file is removed first, and a second failure leaves no file |
| AuthorizedKeys.KeyFile.Ensure | backend/app/direct_auth/service.py:675-696 | unchanged exactly when the comment is there; else the write of the old content, byte for byte, and the line, as far as the session lets it go |
| AuthorizedKeys.KeyFile.Remove | backend/app/direct_auth/service.py:734-773 | the loop keeps what the removal keeps, and writes only when a line was removed |
| KeyLines.OthersRewritten | backend/app/direct_auth/service.py:755-773 | a file written from kept lines splits into the same lines, but for an empty one that melts into a return before it |
| KeyLines.UserLinesSurviveIff | backend/app/direct_auth/service.py:675-793 | after any sequence of additions and removals, with any failures, the texts of everybody else's non-empty lines are all there, unchanged and in order, if and only if there were none, or no edit that had to write removed the old file and then failed to rename the new one |
| KeyLines.AddingCanLose | backend/app/direct_auth/service.py:688-696 | so adding a key can lose all others |
| RealtimeClient.CapIsHarmless | frontend/src/services/realtime.ts:24-30 | capping the exponent at 10 never changes the delay |
| RealtimeClient.DelayOfTry | frontend/src/services/realtime.ts:150-158 | the n-th retry in a row after a start waits min(30000, 1000 * 2^(n-1)) |
| RealtimeClient.FreshBackoff | frontend/src/services/realtime.ts:115-136 | once a socket has opened, the retry after its close waits one second again |
| RealtimeClient.TriesAreRun | frontend/src/services/realtime.ts:105-158 | that chain is a run: a start, then the timer each time |
| RealtimeClient.Client.Begin | frontend/src/services/realtime.ts:62-68 | start, with whatever the listeners call meanwhile |
| RealtimeClient.Client.HandleOpen | frontend/src/services/realtime.ts:115-120 | a current socket's open resets the backoff, tells the listeners and sends the latest selection |
| RealtimeClient.Client.HandleClose | frontend/src/services/realtime.ts:129-136 | a current socket's close tells the listeners and schedules a retry; a stale one does nothing |
| RealtimeClient.Client.HandleTimer | frontend/src/services/realtime.ts:150-158 | the retry makes a socket, or schedules the next retry when none can be made; a stopped client does neither |
| RealtimeClient.Client.End | frontend/src/services/realtime.ts:70-76 | stop closes the current socket, and drops it and the retry |
| RealtimeClient.Client.Send | frontend/src/services/realtime.ts:99-103 | a selection is sent once, on an open current socket; nothing is sent otherwise |
| RealtimeClient.Client.EmitState | frontend/src/services/realtime.ts:167-169 | the listeners' calls run one after the other, inside the caller |
| RealtimeClient.StepKeepsIff | frontend/src/services/realtime.ts:62-165 | with any listeners, a step keeps: started means exactly one of socket and retry, stopped means neither, and an open socket has been sent the latest selection, if and only if what its listeners call is harmless, told from their calls alone |
| RealtimeClient.RunKeepsIff | frontend/src/services/realtime.ts:62-165 | in every run all states are so if and only if every event was harmless |
| RealtimeClient.RunKeepsGood | frontend/src/services/realtime.ts:62-165 | hence all are in every run whose listeners only make selections |
| RealtimeClient.CloseKeepsIff | frontend/src/services/realtime.ts:129-136 | with any listeners, a close leaves one of socket and retry if and only if their calls, by themselves, leave a started client without a socket |
| RealtimeClient.StartKeepsIff | frontend/src/services/realtime.ts:62-68 | with any listeners, a start does so if and only if their calls, by themselves, leave the client stopped, or without a retry before a socket is made, or without a socket before a retry is scheduled |
| RealtimeClient.StopInsideClose | frontend/src/services/realtime.ts:129-136 | a listener that stops the client inside its close leaves a retry on a stopped client, and a later start has both a socket and a retry |

## Left out

- Paths in the relay are sequences of components; joining and splitting their text is modelled only for the workspace paths.
- The sidecar's JSON text is any code that reads back and whose proper prefixes do not parse; a sidecar longer than 64 KiB, which the code reads only in part, is not modelled.
- Sidecars do not record the source server; that equal source path, size and mtime mean equal content is an assumption of the resume theorems, as in the code.
- Source entries that vanish during a walk, and links that lead back above themselves: a link holds the finite tree that is seen through it.
- A symbolic link or directory at a scratch name is taken as a failed open.
- Paths below a target root that is a link are taken by their text; where the link leads is not part of this model.
- Transfer rate and time estimates, the warnings list and the current path.
- Cancellation of SSH commands and closes; `acquire_connection`, which has no recheck after its permit, and `test_connection`, which takes none; both also connect, with the record they are given.
- Semaphores are not first-in-first-out: any waiting task may be next, so what is proved holds for every order.
- Reconnect backoff of one connection is a refusal that may happen at any time before queueing.
- The timing of collection groups and the values of telemetry: an update stands for any new content of its section. Error texts come stripped and cut.
- That a pushed frame is finally received: a full queue drops its oldest frame. Fleet frames also show the registry's records, which the hub is not told about.
- Loading and tokenising the ssh_config file, `Include` and `%d`; the model starts from the loaded blocks.
- Shell-style globbing, case folding, Unicode categories and integer parsing are parameters of the models that use them.
- `JobRegistry.cancel_all`, which removes from the map it iterates, and the error fields that `fail` sets before its transition.
- The choice of transfer strategy, the preflight commands and the transfer planner's warnings are inputs of a sync plan.
- The key setup and rollback around the `authorized_keys` edits, `known_hosts`, file modes and the temporary file's name.
- Incoming frames, pings and the JSON of the realtime client.
- Rate derivation for network interfaces and the bounded GPU history.
