# fly-vault: a Dafny model of its state machines

fly-vault provisions encrypted workspaces on remote machines. This project models the
parts of it that keep state over a whole run, with every call to the provider, the
file system, the transport and the token service as an outcome that may go either way,
and proves what holds over every run.

`dafny verify dfyconfig.toml` checks the whole project.

## What is modelled

**Resumable console output.** The server keeps a bounded window of bytes over an
unbounded log; an attachment streams from a cursor; the client reconnects with the
number of bytes it has rendered.
`ConsoleBuffer` is the window and the streaming loop, proved to refine the log, with
sends that may fail at any frame.
`ConsoleClient` is the client's frame loops and reconnect loop, with every way in which
they end.
`ConsoleProtocol` composes both ends over a transport that loses frames: no byte that
was retained at attach time is skipped on any run, and the output is exactly a prefix
of the log if and only if no frame cut after an overrun was shown and no local write
failed half way. The second half of that condition is a finding: a failing local write
is reported like a lost connection, and the bytes it did write are written again.
Another is what the exit frame promises: a client that reads it has seen the whole log
if and only if nothing was printed after the server's last snapshot.

**Shared connections and exec sessions.** `Reconnect` proves single flight over every
interleaving of callers. It also proves that a lease can still be obtained if and only
if no attempt was cancelled between its two critical sections: a cancelled attempt
leaves `reconnecting` set for ever. Whoever is handed a lease gets the one issued last
and not dropped since. `ExecSessions` proves that at most one attachment of a session is
live, and that no detach or removal hits a newer one.

**Image rollout.** `Scheduler` and `Canary` choose which machine is updated when, with
a bound on the number of batches. `MachinesApi` is the provider: a trace of calls and
panics, the books it adds up to, and who is called when. `Rollout` runs the tasks of a
batch in any interleaving, with any call failing and any task panicking; `Rollback` goes
back. `UpdateImage` puts the stages together. The trace of a run falls into one segment
per stage, in the order of the plan, up to the first stage that does not complete; all
complete if and only if no call is refused, no task panics and every configuration can be
edited. At no moment are more than `concurrency` machines, or two of one tenant, being
updated. What is rolled back is exactly what was acknowledged, apart from tasks that
panicked, and a machine that is still leased or cordoned is a panicked task's, or the
provider did not acknowledge that it was given back. If nothing panicked and no call of
the rollback was refused, the configurations are as before if and only if all metadata
of the machines rolled back is strings: of the two edits in `MachineConfig` the update
drops other values. The calls of one machine come in a fixed order: those of an update or
a rollback that succeeds are the whole list, and those of one that fails are that list up
to the refused call and then the uncordoning and the release, if it had the lease.

**Root file system.** `Filesystem` and `Setup` model staging, activation, restore and
the persistent directories. The old tree survives every failure until a new runtime
has been launched. Two failures leave it at the previous path only: a marker that could
not be written after the promotion, and a restore that fails before its rename. The next
activation then clears that path, and the tree with it. Which tree was provisioned last
is read off the system calls, and over a run of requests without such a failure the root
path holds that tree. What a request does is stated as a plan of system calls, which is
followed up to the first that fails; the request succeeds if and only if none does, and
then the archive is at the root, ready to be mounted and running.

**Wire formats.** `Wire`, `Repeat`, `Stream`, `Frames`, `ControlCodec` and `ExecCodec`
give encoders and decoders, and the exact set of byte strings from which each value
decodes. The bytes are also described by position, with the digits of every length and
the value of every flag: a byte string is the encoding of a value if and only if it is
laid out like that, and valid UTF-8 is what some sequence of scalar values encodes to.

**Tenants, attestations, templates.** `Tenant` is tenant creation with compensation: what
a failing run leaves over is what a delete was refused for, and a machine that is created
is the template's, with its labels and a new volume under every mount that named none;
`AttestationCache` an on-disk cache overwritten by several processes, `Template` the
rendering of placeholders, which is the simultaneous substitution in every order of
iteration if and only if that substitution passes the guard of the renderer.

Objects that the program updates in place are classes; loops are methods proved
against specification functions. Protocols are total step functions `Do`, folded over
arbitrary sequences of actions by `Run`. An action that is not enabled changes nothing.

Two readings of the source: strings on the wire are byte sequences that are valid
UTF-8, and everything else uses Dafny strings. Lengths that are cast to `u32` are
bounded by `Fits` predicates, and saturating additions are written out.

## Model

| member | source | states |
|---|---|---|
| ConsoleBuffer.TailOfTail | crates/init/src/forward.rs:406-432 | evicting before an append leaves the same window as evicting after it, so a window can be kept without the log |
| ConsoleBuffer.RetainedIff | crates/init/src/forward.rs:363-441 | a replay is a suffix of the log that holds a byte if and only if that is among the last `limit` bytes and not before the offset |
| ConsoleBuffer.BufferedConsoleState.Push | crates/init/src/forward.rs:406-432 | the buffer is the last `limit` bytes of old contents and payload, on every branch; the start and end offsets stay consistent while the counter does not saturate |
| ConsoleBuffer.BufferedConsoleState.PushData | crates/init/src/forward.rs:382-389 | a window that refines the log refines the longer log if and only if its length fits in 64 bits |
| ConsoleBuffer.BufferedConsoleState.PushAll | crates/init/src/forward.rs:382-389 | after any run of pushes the window is the tail of everything pushed, with the right offsets if and only if the total fits in 64 bits |
| ConsoleBuffer.BufferedConsoleState.ReplayFrom | crates/init/src/forward.rs:434-441 | a replay is the log suffix from the clamped offset, and the cursor is the end of the log |
| ConsoleBuffer.BufferedConsoleState.SubscribeFrom | crates/init/src/forward.rs:363-375 | a subscription starts from the log suffix at the clamped watermark |
| ConsoleBuffer.OnWake | crates/init/src/forward.rs:819-849 | one turn of the loop sends what is retained from the cursor on and moves the cursor to the end, sends nothing after a takeover, and fails exactly if the stream takes no further frame |
| ConsoleBuffer.StreamLoop | crates/init/src/forward.rs:819-849 | the loop stops at the first takeover, dropped notifier or exit; what was sent is the slices its wake-ups call for and the exit frame, or as many of these frames as the stream took, and then it fails |
| ConsoleBuffer.StreamConsoleOutput | crates/init/src/forward.rs:802-852 | one attachment sends increasing, disjoint slices of the log starting with the clamped replay, then at most one exit frame; it fails exactly if the stream takes fewer frames, having sent those |
| ConsoleBuffer.SentIffRetained | crates/init/src/forward.rs:819-849 | a byte pushed before a wake-up is sent to the attachment if and only if it is then still among the last `limit` bytes of the log |
| ConsoleBuffer.LastFrameIff | crates/init/src/forward.rs:844-848 | the stream ends with the recorded exit code, unless a newer attachment has taken over |
| ConsoleClient.RunSession | crates/client/src/console.rs:251-273 | the watermark counts exactly the frames written in full; a partial write shows bytes it does not count. At the end of the frames the outcome is a disconnect if the connection was lost and an error otherwise; at the first frame not passed by it is the exit code carried, an error for a malformed exit, and a disconnect for a failed write |
| ConsoleClient.WaitForExit | crates/client/src/console.rs:138-148 | frames are skipped up to the first exit, whose code is the outcome; a malformed exit and every read error are errors |
| ConsoleClient.RunExecStreaming | crates/client/src/console.rs:100-135 | the same watermark and outcomes when payloads are passed on, except that once the receiver is gone the first exit after it decides, and a lost connection is then an error |
| ConsoleClient.OutcomeConcludes | crates/client/src/console.rs:100-148 | the outcome of a connection is what the first frame not passed by, or the end of the frames, calls for |
| ConsoleClient.RunWithReconnect | crates/client/src/quic.rs:220-287 | each connection resumes from what its predecessor wrote in full; the loop goes on after an attempt if and only if that was a connection that was lost, or whose local write failed when not streaming; it ends with a code if and only if the deciding exit frame of the last attempt carries it |
| ConsoleClient.EndSettles | crates/client/src/quic.rs:220-287 | an attempt leaves the loop open if and only if it is a lost connection or a failed local write when not streaming, and ends it with a code if and only if its deciding exit carries that code |
| ConsoleProtocol.RunKeeps | crates/init/src/forward.rs:802-852 | the invariant of the composed protocol holds after every sequence of actions |
| ConsoleProtocol.NoRetainedByteIsSkipped | crates/init/src/forward.rs:363-441 | on every run, whatever precedes a shown byte was shown before it or had left the window when that byte was copied; the watermark never passes the last shown byte |
| ConsoleProtocol.ReplayComesFirst | crates/init/src/forward.rs:802-817 | while an attachment lives, its replay is shown before anything else |
| ConsoleProtocol.AttachmentSkipsNothing | crates/init/src/forward.rs:363-375 | every byte retained at attach time and not yet shown is shown before anything else of that attachment, also after overruns |
| ConsoleProtocol.OutputIsExactIff | crates/client/src/console.rs:262-265 | the output is offset by offset the first `rendered` bytes of the log if and only if no frame cut after an overrun was shown and no local write failed half way |
| ConsoleProtocol.NeverOverrunHasNoGaps | crates/init/src/forward.rs:802-852 | runs in which the window never passes the watermark at an attach or the cursor at a wake-up have no gaps |
| ConsoleProtocol.ReconnectsAreSeamless | crates/client/src/quic.rs:239-287 | in such runs the output is exactly a prefix of the log across any number of reconnects, and the whole log once caught up |
| ConsoleProtocol.SmallSessionsNeverOverrun | crates/init/src/forward.rs:406-432 | a session that prints no more than the window holds is never overrun |
| ConsoleProtocol.ExitComesLast | crates/init/src/forward.rs:812-848 | a client that reads the exit frame has been shown everything up to the last snapshot that had not left the window, the process has exited, and nothing is sent after it |
| ConsoleProtocol.ExitShowsAllIff | crates/init/src/forward.rs:812-848 | without an overrun it has then been shown the whole log if and only if nothing was printed after that snapshot |
| ConsoleProtocol.LateOutputIsNotShown | crates/init/src/forward.rs:840-848 | for every log: output printed between the snapshot and the look at the exit code is not shown before the client returns |
| ConsoleProtocol.FailedWriteRepeatsOutput | crates/client/src/console.rs:262-265 | for every log and every cut: a write that fails after `k` bytes and a reattach show the first `k` bytes twice |
| ConsoleProtocol.OverrunLeavesAGap | crates/init/src/forward.rs:363-375 | for every log longer than the window, attaching late shows its tail only |
| ConsoleProtocol.DeliveriesAreTurns | crates/client/src/console.rs:251-273 | delivering any number of frames is that many turns of the client loop: same watermark, same bytes on the screen |
| ConsoleProtocol.FailedWriteIsTheLastTurn | crates/client/src/console.rs:262-265 | a failing write is the last turn of a session that reads as a disconnect, with the same partial output |
| Reconnect.ReconnectState.Connect | crates/client/src/quic.rs:73-91 | the first critical section: a lease, a wait, or an attempt that sets the flag |
| Reconnect.ReconnectState.ConnectSucceeded | crates/client/src/quic.rs:93-110 | the second critical section after a success issues the next generation and clears reprovisioning |
| Reconnect.ReconnectState.ConnectFailed | crates/client/src/quic.rs:111-126 | the second critical section after a failure clears the flag and nothing else |
| Reconnect.ReconnectState.InvalidateLease | crates/client/src/quic.rs:131-141 | a lease is dropped only for its own generation |
| Reconnect.SingleFlight | crates/client/src/quic.rs:73-141 | over every interleaving: at most one attempt, never beside a lease; the flag is set exactly while one is in flight or after one was cancelled; leases are numbered 0, 1, 2, ...; the current lease is the one issued last and not dropped since, and whoever is handed a lease gets that one; no attempt after the first success reprovisions |
| Reconnect.Asking | crates/client/src/quic.rs:73-91 | in every reachable state a caller that asks is handed the current lease if there is one, waits if an attempt is in flight or was cancelled, and attempts otherwise |
| Reconnect.AttemptEnds | crates/client/src/quic.rs:93-126 | in every reachable state the end of an attempt clears the flag and lets the next caller in, with the next generation as the lease exactly if it succeeded |
| Reconnect.OnlyItsOwnInvalidateDropsALease | crates/client/src/quic.rs:131-141 | in every reachable state a step changes the current lease if and only if it is the invalidate of its generation |
| Reconnect.CancelledIsForever | crates/client/src/quic.rs:73-128 | after a cancelled attempt no continuation changes anything or issues a lease |
| Reconnect.ConnectableIff | crates/client/src/quic.rs:73-128 | a lease can still be obtained if and only if no attempt was cancelled in flight |
| Reconnect.OneCancelWedges | crates/client/src/quic.rs:73-128 | one caller that enters and is cancelled leaves a state from which no lease is ever issued |
| ExecSessions.ExecSession.Attach | crates/init/src/forward.rs:285-304 | an attach gets a new generation and token and cancels the holder's token |
| ExecSessions.ExecSession.Detach | crates/init/src/forward.rs:306-323 | a detach clears the current attachment only if it is its own, and reports whether the process has exited |
| ExecSessions.ExecSessionManager.FindOrCreate | crates/init/src/forward.rs:153-189 | a known id returns its object; an unknown one is created only with a command that spawns; errors change nothing |
| ExecSessions.ExecSessionManager.RemoveIfSame | crates/init/src/forward.rs:206-214 | an id is removed exactly if it maps to the given object, and nothing else is |
| ExecSessions.ExecSessionManager.Reap | crates/init/src/forward.rs:139-151 | exactly the sessions whose exit is older than the limit are removed |
| ExecSessions.AtMostOneLiveAttachment | crates/init/src/forward.rs:285-323 | on every interleaving an attachment is live if and only if its session records it as current, so no session has two |
| ExecSessions.StaleDetachIsHarmless | crates/init/src/forward.rs:306-323 | a detach never changes another attachment or clears a newer current one |
| ExecSessions.OneRunningProcessPerId | crates/init/src/forward.rs:139-214 | no two running processes share an id, and a running one is always found |
| ExecSessions.RemovalSparesOtherObjects | crates/init/src/forward.rs:206-214 | the removal after a detach never removes another object re-created under the id |
| ExecSessions.RequestCreates | crates/init/src/forward.rs:153-189 | an id stands for a new, running, unattached object after a request exactly if it stood for none before |
| ExecSessions.AttachTakesOver | crates/init/src/forward.rs:285-304 | on every interleaving a new attachment is live and current, the live one of that session is cancelled and no other is touched |
| ExecSessions.DetachEnds | crates/init/src/forward.rs:306-323 | a detach ends its own attachment and frees the session exactly if that was live |
| ExecSessions.RemovalRemoves | crates/init/src/forward.rs:206-214 | an id leaves the registry exactly if it stands for the given object and that has exited |
| ExecSessions.ReapRemoves | crates/init/src/forward.rs:139-151 | a reap takes out exactly the sessions whose end is recorded and whose time is up |
| MachineConfig.EditedFields | crates/admin/src/machines.rs:549-576 | an edit sets image and metadata and keeps every other field |
| MachineConfig.MetadataWriteBack | crates/admin/src/machines.rs:380-391 | writing extracted metadata back changes nothing if and only if all of it is strings |
| MachineConfig.RollbackUndoesUpdateIff | crates/admin/src/rollout.rs:437-446 | the rollback edit restores the configuration from before the update edit if and only if all metadata values are strings |
| MachineConfig.NumberInMetadataIsLost | crates/admin/src/machines.rs:380-391 | a configuration with a number in its metadata is not restored |
| Scheduler.BatchSize | crates/admin/src/rollout.rs:139-152 | a batch has min(concurrency, non-empty tenants) machines and takes exactly those out of the queues |
| Scheduler.BatchTakesHeads | crates/admin/src/rollout.rs:139-152 | a batch takes from each tenant the head of its queue or nothing |
| Scheduler.BatchServes | crates/admin/src/rollout.rs:139-152 | a queue gives its head to a batch if and only if it has one and fewer than `concurrency` queues before it have, and the batch is in that order |
| Scheduler.BatchesAreFull | crates/admin/src/rollout.rs:139-152 | every batch of a rollout has exactly min(concurrency, tenants with machines left) machines |
| Scheduler.ScheduleServesEveryQueue | crates/admin/src/rollout.rs:139-152 | over the whole rollout each tenant's machines are scheduled once, in queue order, at most one per batch |
| Scheduler.ScheduleLength | crates/admin/src/rollout.rs:139-152 | the number of batches is at most total / concurrency + longest queue, and at least each of the two bounds alone |
| Scheduler.NextBatch | crates/admin/src/rollout.rs:139-152 | the loop over the queues computes the batch and the queues that the schedule is defined by |
| Scheduler.GroupByTenant | crates/admin/src/rollout.rs:131-137 | the queues are in key order, each holding the tenant's machines in order |
| Scheduler.LessIff | crates/admin/src/rollout.rs:131-137 | the key order of the queues is the lexicographic one |
| Canary.SelectCanaryIndices | crates/admin/src/rollout.rs:253-280 | min(count, n) distinct valid indices covering min(count, tenants) tenants; a machine is picked if and only if it is the first of its tenant and fewer than `count` of those precede it, or all of those are picked and it is among the earliest others that make up the count |
| Canary.SeeTenants | crates/admin/src/rollout.rs:261-268 | the first loop picks one machine of every tenant among those it has looked at, and looks at all unless it has enough |
| Canary.FirstOfEachTenant | crates/admin/src/rollout.rs:261-268 | so its picks are of distinct tenants, and of all tenants unless it stops early |
| Canary.FillUp | crates/admin/src/rollout.rs:270-277 | the second loop fills up to the count with the earliest machines not picked yet, and loses no tenant |
| Canary.SplitIsPartition | crates/admin/src/rollout.rs:83-91 | canaries and remaining machines together are the targets, none lost or doubled |
| Canary.SplitKeepsOrder | crates/admin/src/rollout.rs:83-91 | each machine follows exactly those of its half that came before it |
| Canary.Split | crates/admin/src/rollout.rs:83-91 | the loop computes the two halves |
| Canary.ChooseCanaries | crates/admin/src/rollout.rs:79-91 | as many canaries as asked for, of as many tenants as possible, exactly those that the choice of the indices says, and the rest |
| MachinesApi.AckedIff | crates/admin/src/rollout.rs:334-338 | a machine is booked as updated if and only if the rollout's update call for it was acknowledged |
| MachinesApi.AnsweredIff | crates/admin/src/rollout.rs:300-495 | the books know exactly which calls of the rollout and of the rollback were and were not acknowledged |
| MachinesApi.HeldIff | crates/admin/src/rollout.rs:300-385 | a machine is booked as held if and only if its lease was granted, or its cordon called for, and no later release, or uncordoning, of it was acknowledged |
| MachinesApi.FailedGiveBackLeavesHolds | crates/admin/src/rollout.rs:362-379 | a failed uncordon and a failed release leave the machine cordoned and leased |
| MachinesApi.LostIff | crates/admin/src/rollout.rs:166-178 | a machine is booked as lost if and only if its task panicked |
| MachinesApi.OneGroupInFlight | crates/admin/src/rollout.rs:139-178 | when groups of machines are called one after the other, all machines between their first and last call are of one group at any moment |
| Rollout.Step | crates/admin/src/rollout.rs:300-385 | each call of a task keeps the books in step with it (update, lease, cordon, and the calls answered so far); a hold is dropped only when giving it back is acknowledged; only its machine is touched |
| Rollout.StepUpdate | crates/admin/src/rollout.rs:323-338 | the rollback target is set exactly when the update is acknowledged; a configuration that cannot be edited fails without a call |
| Rollout.RunBatch | crates/admin/src/rollout.rs:154-178 | for every interleaving, failure and panic: the machines reported as updated are exactly those all of whose calls were acknowledged and none refused; those reported for rollback are exactly the others whose update was acknowledged and whose task did not panic; there is no failure exactly if all completed; a finished task that still holds its machine had its release or uncordoning refused |
| Rollout.UpdateOneMachine | crates/admin/src/rollout.rs:300-385 | the same for one machine on its own, which does not panic, with the order of its calls as in `EndedInOrder` |
| Rollout.BatchOutcome | crates/admin/src/rollout.rs:154-191 | what a batch reports as updated or for rollback is exactly what was acknowledged and not lost to a panic; without failures it is the whole batch |
| Rollout.EndedIsReported | crates/admin/src/rollout.rs:154-191 | once all tasks have ended, what is reported is what the trace says, and every machine of the batch has made its first call or panicked |
| Rollout.EndedInOrder | crates/admin/src/rollout.rs:300-385 | once all tasks have ended the calls of each machine, as a sequence, are the eight calls of an update if it completed; otherwise these up to the refused call, then uncordon and release if the lease was granted; or a beginning of them if the task panicked |
| Rollback.RollbackTargets | crates/admin/src/rollout.rs:282-298 | the successes in their order, then the failures after an update, no machine twice |
| Rollback.RollbackOneMachine | crates/admin/src/rollout.rs:409-495 | on a configuration that can be edited a rollback succeeds exactly if none of its calls is refused; its calls are then, in this order, the lookup, the lease, the cordon, the update, the waits for started, healthy and the soak window, the uncordoning and the release, and it leaves the edited current configuration; a failing one makes these calls up to the first that is refused, and then uncordons and releases if the lease was granted; a machine it leaves leased or cordoned was so before, or giving it back was not acknowledged |
| Rollback.RollbackAll | crates/admin/src/rollout.rs:387-407 | the targets are called one after the other, the last one first, whatever happened to the others, each with the calls of one rollback in their order; each whose rollback was refused nothing is reverted; what is newly held afterwards was refused when given back |
| UpdateImage.ScheduleIsPermutation | crates/admin/src/rollout.rs:131-152 | the batches hold the remaining machines, each exactly once |
| UpdateImage.StageSucceeds | crates/admin/src/rollout.rs:101-116 | after a stage without failures every call was acknowledged for every machine started so far and none refused, all run the new image on any provider, and nothing is held |
| UpdateImage.StageFails | crates/admin/src/rollout.rs:180-191 | after a failing stage the rollback targets, in stage order, are exactly the acknowledged machines whose task did not panic; all earlier stages completed and this one did not; acknowledged machines run the new image; what is held is a panicked task's or was refused when given back; unacknowledged machines keep their configuration if failed calls have no effect |
| UpdateImage.CanaryStage | crates/admin/src/rollout.rs:101-116 | the canaries are updated one by one, as the first segments of the trace; at the first that does not complete the run stops and is rolled back, without a panic |
| UpdateImage.RollingStage | crates/admin/src/rollout.rs:139-192 | the batches of the schedule are run in order, one segment of the trace each; the first that does not complete is the last one called, and ends in a rollback |
| UpdateImage.RestoredIff | crates/admin/src/rollout.rs:409-446 | if failed calls have no effect, nothing panicked and no call of the rollback was refused, all configurations are as before if and only if the metadata of every machine rolled back is strings |
| UpdateImage.Run | crates/admin/src/rollout.rs:46-196 | a run completes if and only if no call of the rollout is refused, no task panics and every configuration can be edited; the trace falls into one segment per stage of the plan, up to the first stage that does not complete; a completed run has updated every target and holds nothing; a failed one has rolled back, the last stage first, exactly the acknowledged machines whose task did not panic, all of them if none did, with the configurations as in `RestoredIff`; at no moment more than `concurrency` machines or two of one tenant are in flight, and never two in the rollback |
| UpdateImage.SuccessIsUpdated | crates/admin/src/rollout.rs:101-192 | in a run that completes every target has gone through the eight calls of an update, in order and all acknowledged, and runs the new image |
| UpdateImage.FailureIsDisturbed | crates/admin/src/rollout.rs:101-192 | a run that stopped has a refused call, a panic or a configuration that cannot be edited to show for it |
| UpdateImage.WhatIsStillHeld | crates/admin/src/rollout.rs:362-379 | in the trace of a failed run, before its rollback and after it, a machine with a lease or cordon that was not given back since is one whose task panicked, or has an unacknowledged release or uncordon |
| UpdateImage.OneStoppingPoint | crates/admin/src/rollout.rs:101-192 | the trace determines the stage at which a run has stopped |
| UpdateImage.PlanCovers | crates/admin/src/rollout.rs:79-152 | canaries and batches together hold every target exactly once |
| UpdateImage.UpdatesInFlight | crates/admin/src/rollout.rs:139-178 | at every prefix of the trace at most `concurrency` machines are between the first and last call of their update, no two of one tenant |
| UpdateImage.RollbacksInFlight | crates/admin/src/rollout.rs:387-407 | at every prefix of the trace at most one machine is between the first and last call of its rollback |
| Setup.DefaultLayoutIsDisjoint | crates/init/src/setup.rs:41-70 | with the default root no path of the manager contains another |
| Setup.ClearingPreviousKeepsOnlyTheRoot | crates/init/src/setup.rs:208-219 | once the previous path has been cleared a tree is reachable if and only if it is at the root path; the clearing step of an activation ensures it |
| Setup.SetupManager.StopRuntime | crates/init/src/setup.rs:275-300 | no runtime is recorded afterwards, whether or not it reports an error |
| Setup.SetupManager.EnsureRuntimeStarted | crates/init/src/setup.rs:161-195 | without a recorded runtime one launch is tried, and success is its success; a recorded one is polled, and a launch follows exactly if the poll finds that it has exited |
| Setup.SetupManager.PutAside | crates/init/src/setup.rs:204-219 | stopping, clearing and setting aside keep the old tree at one of the two paths at every call |
| Setup.SetupManager.RestorePreviousRoot | crates/init/src/setup.rs:257-273 | a restore keeps the old tree at every call; it is complete if and only if none of its calls failed, and then root and marker are as they were; the promoted tree is given up unless the removal or the rename back failed |
| Setup.SetupManager.PromoteStaged | crates/init/src/setup.rs:221-232 | the staged tree becomes the root and the old one stays aside |
| Setup.SetupManager.StartPromoted | crates/init/src/setup.rs:234-255 | the new root is marked and started, which makes it the tree provisioned last, or the old one is brought back; the old tree is dropped only after a launch |
| Setup.SetupManager.ActivateStagedRoot | crates/init/src/setup.rs:204-255 | after every single call the old tree is at the root or the previous path until a launch; the root is renamed only while no runtime is recorded; every ending says where the old tree is: at the root, or left at the previous path exactly after a failed marker or a restore that failed before its rename; a tree that only the previous path held survives a failed stop and is gone once that path is cleared; a complete restore ends with the same root, no staged tree and, if the marker was as a provisioned root has it, the same marker; the calls are stop, clear, set aside if there is a root, promote, mark, launch, drop, in this order up to the first that fails, and an activation succeeds if and only if none does; a failed promotion or start is always followed by a restore, that is complete if and only if no call failed but the promotion and launches, and after a failed start a launch of the old root; where the old tree is not left aside the root path holds the tree that the system calls say was provisioned last |
| Setup.SetupManager.EnsurePersistentSourceDir | crates/init/src/setup.rs:340-369 | an existing source is never touched; a missing one is seeded with the staged tree, which must be a directory; the calls are those of the case, in order, and it succeeds if and only if none fails |
| Setup.SetupManager.PrepareMount | crates/init/src/setup.rs:326-338 | one mount: the calls of its source and then of its target, as the file system it finds calls for |
| Setup.SetupManager.PreparePersistentLayout | crates/init/src/setup.rs:326-338 | the mounts are prepared in order up to the first call that fails, a target or source that is no directory included, and it succeeds if and only if none does; then all sources exist, those that existed unchanged, and so do the targets; the staged tree is otherwise the same |
| Setup.SetupManager.StageRootfs | crates/init/src/setup.rs:197-202 | staging leaves root, previous, marker and existing persistent data alone; it clears and creates the staging directory, extracts and prepares the mounts, up to the first call that fails, and succeeds if and only if none does; what was extracted is then staged, apart from the targets of the mounts |
| Setup.SetupManager.Provision | crates/init/src/setup.rs:139-147 | a request with an archive follows the plan of staging and then of activation up to the first call that fails, and succeeds if and only if none does; the archive is then at the root, with every source and target of a mount in place and a runtime recorded |
| Setup.SetupManager.SetupAndPrepare | crates/init/src/setup.rs:135-150 | a setup request keeps existing persistent data whatever fails; a cold machine without an archive is refused unchanged; without an archive a marked machine makes sure of its runtime and does nothing else; with one, marked or not, it provisions as `Provision` says, and success means that a tree promoted by this request is at the root path |
| Setup.SetupManager.Handle | crates/init/src/setup.rs:128-159 | which calls each request makes and when it succeeds: provisioning as above, a reconnect or a start on a marked machine makes sure of the runtime, a reconnect on a cold one is refused and a start does nothing, a shutdown stops a recorded runtime and leaves none; only provisioning changes the file system; after every request the root path holds the tree provisioned last if it did before, unless a call that can leave the old tree aside has failed |
| Setup.SetupManager.Serve | crates/init/src/setup.rs:128-159 | each request of a sequence is answered as `Handle` says from where the one before it ended; no sequence of setups, reprovisions, restarts and shutdowns changes a persistent directory that exists; the root path holds the tree that was provisioned last, as the trace of system calls tells it, unless a marker write, a removal of the new root or a rename back has failed; without a provisioning request the file system stays as it is |
| Setup.OldTreeCanBeLost | crates/init/src/setup.rs:204-234 | an activation whose marker cannot be written leaves the tree provisioned last at the previous path only, and whatever is staged next, the first calls of the next activation leave it nowhere |
| Wire.PutUintAt | crates/protocol/src/lib.rs:371-379 | integers are big-endian: the byte at `k` of `width` is the digit of 256 to the power `width - 1 - k` |
| Wire.BytesIff | crates/protocol/src/lib.rs:718-729 | a length-prefixed field lies at a position if and only if the four digits of its length modulo 2^32 and then its bytes do |
| Wire.ValidIff | crates/protocol/src/lib.rs:718-729 | a byte string is accepted as a string if and only if it is the UTF-8 form of some sequence of Unicode scalar values |
| Wire.TakePutBytes | crates/protocol/src/lib.rs:718-729 | a length-prefixed field reads back, leaving exactly what follows it |
| Wire.TakePutStr | crates/protocol/src/lib.rs:718-729 | the same for strings, which must be valid UTF-8 |
| ControlCodec.AttestationTwoSided | crates/protocol/src/lib.rs:119-152 | a payload decodes from the bytes laid out for it and from nothing else |
| ControlCodec.AttestationBytes | crates/protocol/src/lib.rs:119-128 | a byte string is an attestation if and only if it has the version at 0, the state at 2, the runtime status at 3 and the token with its length from 4 to the end |
| ControlCodec.SetupBytes | crates/protocol/src/lib.rs:161-211 | and a setup request if and only if it has the token with its length, a byte 0, 1 or 2 for the kind of source, and the source to the end |
| ControlCodec.SetupTwoSided | crates/protocol/src/lib.rs:161-226 | the same for setup requests and their root file system source |
| ControlCodec.MessageTwoSided | crates/protocol/src/lib.rs:253-292 | a frame is a message if and only if its type and bytes are those laid out for that message |
| ControlCodec.MessageBytes | crates/protocol/src/lib.rs:253-292 | the frames of the five messages have the types 1 to 5 and the payloads laid out as above |
| ControlCodec.ControlStream | crates/protocol/src/lib.rs:73-108 | messages written to a control stream are read back in order, and a cut loses exactly a suffix |
| Stream.ReadUntilError | crates/protocol/src/lib.rs:306-341 | the reading loop returns every frame that arrives whole |
| Frames.FrameBytes | crates/protocol/src/lib.rs:90-108 | a byte string is a frame if and only if it has the type at 0, the length of the payload at 1 and the payload from 5 to the end |
| Frames.TruncatedFrameFails | crates/protocol/src/lib.rs:73-108 | no proper prefix of a frame reads as a frame |
| Frames.CutLosesFrames | crates/protocol/src/lib.rs:306-341 | cutting a stream of frames anywhere loses exactly a suffix of the frames |
| Frames.ReadAllWriteAll | crates/protocol/src/lib.rs:306-341 | reading the concatenation of any written frames returns them |
| Repeat.CountedPreimage | crates/protocol/src/lib.rs:616-639 | a counted list decodes from its encoding, or from a form short by what its last element may leave out, and from nothing else |
| ExecCodec.ArgvTwoSided | crates/protocol/src/lib.rs:371-406 | an argument vector decodes from the bytes laid out for it and from nothing else |
| ExecCodec.ArgvBytes | crates/protocol/src/lib.rs:371-379 | a byte string is an argument vector if and only if it has the count at 0 and then each argument with its length, to the end |
| ExecCodec.EncodeExecArgv | crates/protocol/src/lib.rs:371-379 | the appending loop writes the count and then each argument with its length, at those positions |
| ExecCodec.DecodeExecArgv | crates/protocol/src/lib.rs:381-406 | the decoding loop returns a vector if and only if the input is laid out as that vector and its lengths and count fit in 32 bits |
| ExecCodec.SharedPreimage | crates/protocol/src/lib.rs:413-427 | a watermark is read from its eight bytes, and zero also from the empty payload |
| ExecCodec.RequestPreimage | crates/protocol/src/lib.rs:437-518 | a request decodes only from its full encoding, that minus 8 bytes when the watermark is 0, or minus 9 when the context is absent too |
| ExecCodec.RequestBytes | crates/protocol/src/lib.rs:438-461 | a byte string is a full request if and only if it has the id, a flag and the vector, a flag and the context, and the watermark in the last eight bytes |
| ExecCodec.RequestAcceptedIff | crates/protocol/src/lib.rs:463-518 | a request decodes if and only if its id is not empty, its lengths fit and the input is laid out so, or would be with eight zero bytes more, or with nine if there is no context |
| ExecCodec.RequestRoundTrip | crates/protocol/src/lib.rs:437-518 | every request with a non-empty id reads back |
| ExecCodec.ListPreimage | crates/protocol/src/lib.rs:529-639 | a session list decodes only from its full encoding, or minus 1 byte when its last session has no context |
| ExecCodec.ListBytes | crates/protocol/src/lib.rs:530-552 | a byte string is a session list if and only if it has the count and then the fields of each session, by position |
| ExecCodec.ListRoundTrip | crates/protocol/src/lib.rs:529-639 | every session list with non-empty ids reads back |
| ExecCodec.EncodeExecSessionList | crates/protocol/src/lib.rs:616-624 | the appending loop writes the count and then each session: the id, the attached flag, a flag and the exit code, the vector, a flag and the context |
| ExecCodec.DecodeExecSessionList | crates/protocol/src/lib.rs:626-639 | the decoding loop returns a list if and only if its ids are not empty, its lengths fit and the input is laid out so, or would be with one zero byte more if the last session has no context |
| Tenant.GoneIff | crates/admin/src/machines.rs:643-671 | a refused delete counts as done if and only if the reply is "not found" |
| Tenant.CleanupMachines | crates/admin/src/tenant.rs:167-184 | one delete per machine, in order, whatever the others did; the errors are exactly the deletes that were neither applied nor answered with "not found", in order, and no other of these machines is left |
| Tenant.CleanupVolumes | crates/admin/src/tenant.rs:186-202 | the same for volumes |
| Tenant.FindPending | crates/admin/src/tenant.rs:233-261 | the request is refused if and only if some mount names nothing; otherwise the name-only mounts are listed in order |
| Tenant.MountIff | crates/admin/src/tenant.rs:233-261 | a mount gets a volume if and only if it has no `volume` that is more than white space but such a `name`, and is refused if and only if it has neither |
| Tenant.TrimIsTrimmed | crates/admin/src/tenant.rs:215-219 | trimming takes the white space around a string away, and leaves nothing exactly if there is nothing else |
| Tenant.AcceptableIff | crates/admin/src/tenant.rs:217-270 | a request is accepted if and only if every mount gives a volume or a name, and a region is given if some mount gives only a name |
| Tenant.FillMounts | crates/admin/src/tenant.rs:263-315 | each name-only mount gets under `volume` the id of its own fresh volume and keeps every other field; the volume has the trimmed name, the region and the size asked for; it fails exactly if a creation is not acknowledged, and then deletes the volumes before it, leaving over only those refused |
| Tenant.EnsureMountVolumes | crates/admin/src/tenant.rs:204-318 | the same for a request, which fails exactly if it is not acceptable or a creation is not acknowledged; a dry run calls nothing and shows name and region under `volume` instead |
| Tenant.EachMountHasItsVolume | crates/admin/src/tenant.rs:263-315 | in a prepared request a mount that gives a volume keeps it, and any other has one of the new volumes under `volume`, made for it, with every other field as it was |
| Tenant.TaggedIsLabelled | crates/admin/src/tenant.rs:66-82 | the metadata of a machine is that of the template with the tenant id, the manager and the template under their three keys, and no other field of the configuration changes |
| Tenant.Prepare | crates/admin/src/tenant.rs:64-97 | all requests are prepared, exactly if all are acceptable and every creation is acknowledged, each with its labels and the volumes of its mounts; otherwise every volume made for any of them has been deleted once, and only those refused are left over |
| Tenant.CreateMachines | crates/admin/src/tenant.rs:107-128 | one machine per request with its region and configuration, exactly if every creation is acknowledged; otherwise everything made so far has been deleted, machines first, and only what was refused is left over |
| Tenant.CreateTenant | crates/admin/src/tenant.rs:33-152 | a run succeeds exactly if every machine of the template has a volume or a name for each mount, and a region where it needs one, and every creation and wait is acknowledged; it then deletes nothing, and each machine is the one the template gives, with its labels and the volumes made for its mounts; a failing run issues exactly one delete per acknowledged machine and volume, machines first; its errors are exactly the refused deletes, and what it leaves over is among them, so that without a refused delete the inventory is as before; a dry run calls nothing and shows the requests |
| Tenant.MachineIsAsAsked | crates/admin/src/tenant.rs:64-128 | a created machine has the region, the labels and the other fields of its template, and at every mount the volume given or one of the new volumes, made for that mount |
| AttestationCache.RecordedKeys | crates/client/src/cache.rs:74-101 | recording adds at most one key and never a second entry for it |
| AttestationCache.Cache.Load | crates/client/src/quic.rs:489-497 | a missing file loads as empty; an unreadable one gives a cache that is never written |
| AttestationCache.Cache.Lookup | crates/client/src/cache.rs:63-72 | the first entry that matches, or none if there is none |
| AttestationCache.Cache.Persist | crates/client/src/cache.rs:126-153 | the file becomes the whole snapshot or stays as it is |
| AttestationCache.Cache.RecordVerified | crates/client/src/cache.rs:74-101 | the entry is recorded in memory even if writing fails |
| AttestationCache.Cache.RecordHit | crates/client/src/cache.rs:103-124 | only the time of the entry found changes |
| AttestationCache.Cache.Validate | crates/client/src/quic.rs:444-487 | a check accepts without the token if and only if some entry is for the organisation, application and certificate, and for the machine behind a proxy; otherwise it accepts if and only if the verified token was issued for them |
| AttestationCache.WhatIsRecorded | crates/client/src/cache.rs:74-124 | with a clock a hit changes the time of the entry found and a verification leaves one entry for what it verified; every other entry is as it was |
| AttestationCache.RecordedIsRecognised | crates/client/src/quic.rs:444-487 | what has been verified and recorded is recognised by the next check, directly or behind a proxy to that machine |
| AttestationCache.EveryAcceptanceWasVerified | crates/client/src/quic.rs:444-497 | over any number of processes loading and overwriting snapshots, every acceptance has an earlier full verification of the same organisation, application and fingerprint, and of the configured machine behind a proxy |
| AttestationCache.KeysStayUnique | crates/client/src/cache.rs:74-153 | no snapshot ever holds two entries for one key |
| Template.RenderString | crates/admin/src/template.rs:137-149 | the loop replaces every variable once, in some order |
| Template.ReplaceCuts | crates/admin/src/template.rs:139-142 | replacing cuts the text at the occurrences of the token, taken from the left and not overlapping, and puts the value there |
| Template.RenderFailsIff | crates/admin/src/template.rs:143-148 | rendering fails if and only if the text left after the replacements holds both brace pairs |
| Template.ReplaceIsSubstitute | crates/admin/src/template.rs:139-142 | replacing one token in the text is substituting its placeholder, for all literals and values of which no stretch between placeholders holds both brace pairs |
| Template.RenderIsSubstitution | crates/admin/src/template.rs:137-149 | if no stretch between unbound placeholders holds both brace pairs, every iteration order gives the simultaneous substitution, and rendering succeeds if and only if every placeholder is bound |
| Template.PlainTemplates | crates/admin/src/template.rs:137-149 | in particular for literals and values without opening braces |
| Template.RenderIff | crates/admin/src/template.rs:137-149 | for any literals and values and every iteration order, rendering gives the simultaneous substitution if and only if that does not hold both brace pairs |
| Template.OrderShowsWithBraces | crates/admin/src/template.rs:137-149 | for one map that fails the guard two orders give different results |
| Template.OrderShowsWithBracesInNames | crates/admin/src/template.rs:137-149 | for any two names, a third name that spans both placeholders makes two orders succeed with different results |
| Template.RenderValueIff | crates/admin/src/template.rs:117-149 | a tree renders to its substitution, in every order, if and only if every string of the substitution passes the guard |
| Template.RenderValueIgnoresOrder | crates/admin/src/template.rs:117-135 | so where every string of the substitution passes the guard the iteration order does not show in a rendered tree |
| Template.EveryStringIsRendered | crates/admin/src/template.rs:117-135 | at every path of a rendered tree a string is the rendering of the string there, a scalar is the same, a table has the same keys and an array as many items |
| Template.FailingString | crates/admin/src/template.rs:117-135 | a tree fails to render only because some string in it does |
| Template.RenderedTable | crates/admin/src/template.rs:57-61 | a rendered table is a table with the same keys |

## Left out

- QUIC, TLS, the checks inside token verification, HTTP, PTY, namespaces, mounts and the terminal: outcomes that may go either way.
- Waking callers that wait in `connect`: only safety is stated, and one continuation that leads to a lease.
- Output before the exit frame: the exit code and the output are recorded by separate tasks, so no order between them is promised; what does hold is stated by `ExitShowsAllIff`.
- Output after an overrun, exactly once: the watermark counts rendered bytes and not offsets; what does hold is stated by `NoRetainedByteIsSkipped`.
- Process crashes during activation, the files the running system writes (the fallback marker, `.old_root`), and the test-mode branches of `setup.rs`.
- UpdateImage.Run: starts from the selected machines; listing, filtering, snapshotting and sorting them would only add easy members, and that provider ids are distinct is assumed.
- Panics outside the tasks of a batch, in particular in the canary stage: they end the process.
- Tenant.CreateTenant: starts from the rendered machines, whose configurations are tables because the template loader refuses others (template.rs:57-61).
- Template.RenderIff: names are free of braces, which `parse_vars` does not enforce; `OrderShowsWithBracesInNames` shows that without this the order matters even where the guard passes.
- ConsoleBuffer.StreamLoop: stated for logs of at most 2^64 - 1 bytes, beyond which the offsets saturate.
- Error messages, printed output, time stamps other than those of cache entries.
- crates/proxy, port forwarding, the firewall, the control socket, usage facts and tenant summaries: plumbing, or easy folds.
