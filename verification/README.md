# Verified model of the Indexify dataplane, server and daemon protocols

Indexify runs functions in containers. A *dataplane* process on each machine
heartbeats to a *server*, reports what happened, and polls for commands and
function-call results. A *daemon* inside each container streams terminal output
to WebSocket clients. This project models the protocols between these processes
and the algorithms with the most state in them, and proves what they promise
over whole runs.

Protocols are deterministic step functions over an event datatype; every
interleaving, lost reply, failed call and scheduling choice is an event, and
theorems quantify over all event sequences. Code that updates state in place is
also written as classes and loops driven by such an event script, and proved to
end in the state the step function gives, so that the run theorems speak about
the loops.

| part | files |
|---|---|
| shared definitions | `Basics`, `Sequences` |
| report buffers, heartbeat machine and loop | `StateReporter`, `ConnectionSession`, `Heartbeat`, `ReportDelivery`, `ReportDuplicates`, `HeartbeatSession`, `HeartbeatLoop` |
| command stream | `CommandDelivery`, `CommandGuarantees`, `CommandLimits`, `CommandRaces`, `CommandPolling`, `CommandReplies` |
| function-call results | `ResultDispatch` |
| executor liveness on the server | `ExecutorLiveness`, `LivenessRuns` |
| terminal output | `PtyOutput`, `PtyFanout`, `PtyWebSocket` |
| blob transfer and chunk plans | `S3Transfer`, `BlobChunks` |
| network policy | `NetworkRules`, `NetworkPolicies`, `NetworkFleet` |
| log export | `LogProcessor`, `LogGuarantees`, `LogWorker` |

`dafny verify dfyconfig.toml` checks everything. Every lemma switches
automatic induction off, so that each proof is the one written down.

## Promises the code keeps only under a condition

Each of these is stated with its condition and, except for the end of the 64-bit
range, with a run or an input that breaks it.

- **Reports are delivered at least once, and the server holds a prefix of them**
  throughout a run if and only if no later fragment with something new in it is
  answered by a server that has meanwhile forgotten the executor (the client
  looks at `send_state` on the first fragment only, and drains), and no failed
  request is ingested in part with a report skipped
  (`ReportDelivery.SoundExactly`, `ReportDelivery.ForgottenFragmentLosesReport`,
  `ReportDelivery.PartialIngestLeavesHole`). On the same runs duplicates are
  re-sent prefixes (`ReportDuplicates.DuplicatesAreResentPrefixes`,
  `ReportDuplicates.HoleMakesDuplicateInside`).
- **The poll loop handles the commands 1, 2, 3, ... of an epoch once each and in
  order**, whatever the server replies, throughout a run if and only if no
  command is applied after the cursor was reset under the loop
  (`CommandReplies.HandledExactlyOnce`, `CommandReplies.MidBatchResetSkips`).
- **Client and server agree on the stream** unless a heartbeat fails while a full
  state is owed. The retry is sent while Unhealthy, so the client keeps its
  cursor although the server restarted the numbering, and the first commands of
  the new stream are skipped (`CommandGuarantees.AnswerKeeps`,
  `CommandLimits.StaleCursorLosesCommands`, `CommandLimits.StaleCursorReachable`);
  or unless the stream restarts while a reply waits, is half applied, or a
  request the client gave up is still on its way
  (`CommandRaces.LateReplyIsApplied`, `CommandRaces.HalfAppliedReplyGoesOn`,
  `CommandRaces.StrayAckDiscardsCommand`).
- **The next command is delivered** if and only if the in-memory outbox has it
  (`CommandLimits.PollDelivers`); an oversized command is refused after it was
  numbered, and the stream then stops until the next full sync
  (`CommandLimits.RefusedCommandStopsStream`,
  `CommandLimits.OversizedCommandReachable`).
- **An executor heard from within 30 s is not removed** if and only if it is not
  heard from between the moment a lapse pass takes it out of the queue and the
  moment it deregisters it (`LivenessRuns.StepHonours`,
  `LivenessRuns.OvertakenExecutorLapses`, `LivenessRuns.OvertakingIsReachable`).
- **Command numbers are handled once** up to the end of the 64-bit range, where
  the saturating cursor repeats (`CommandPolling.PollCursor.ApplyResponse`).
- **A container obeys its own network policy** if and only if no other
  container's id agrees with its own in the first 12 characters
  (`NetworkPolicies.TwoContainers`) and, for a packet the policy forbids, every
  entry parsed or a deny entry before the first rejected one covers the packet
  (`NetworkPolicies.ApplySucceeds`, `NetworkPolicies.PartialChainAgrees`,
  `NetworkPolicies.RejectedAllowLosesDeny`).
- **Accepted log records are exported** if and only if the worker does not notice
  the closed control channel first with records in hand, and no record is emitted
  during a shutdown's export (`LogGuarantees.ExitLossExact`,
  `LogGuarantees.DroppedHandlesLoseRecord`,
  `LogGuarantees.ShutdownLosesLateRecord`). `max_batch_size` is documented as the
  maximum of an export call; a flush or shutdown batch exceeds it if and only if
  buffer and channel do (`LogGuarantees.FlushBatchExceeds`,
  `LogGuarantees.FlushExceedsReachable`).

Where comments and code disagree the model follows the code: the comment at the
cursor reset in `service.rs` speaks of re-registration, and the code resets only
when the full state was sent while Registering, so not on the retry after a
failed heartbeat.

## Model

| member | source | states |
|---|---|---|
| `StateReporter.BatchLen` | crates/dataplane/src/state_reporter.rs:132-178 | the collected batch is the longest buffer prefix keeping base plus items under 10 MB, or one forced item |
| `StateReporter.BatchIsUnique` | crates/dataplane/src/state_reporter.rs:132-178 | only one prefix length satisfies that description |
| `StateReporter.RequestSizeBound` | crates/dataplane/src/service.rs:759-778 | three chained collects take at most 10 MB + 2M when no item exceeds M ≤ 10 MB |
| `StateReporter.RequestSizeBoundIsTight` | crates/dataplane/src/state_reporter.rs:144-147 | the bound is attained: a request can carry three times 10 MB |
| `StateReporter.PendingBuffer.Push` | crates/dataplane/src/state_reporter.rs:61-90 | an arriving item goes to the back, and is dropped when the buffer is at its limit |
| `StateReporter.PendingBuffer.Collect` | crates/dataplane/src/state_reporter.rs:132-178 | returns that longest prefix, its count and whether anything remains, and changes nothing |
| `StateReporter.PendingBuffer.DrainSent` | crates/dataplane/src/state_reporter.rs:184-191 | removes exactly the first `count` items, or all when there are fewer |
| `ReportDelivery.StepOnLane` | crates/dataplane/src/service.rs:758-917 | every step acts on a report buffer by one of push, collect, ingest, drain or nothing, in the right stage of the request |
| `ReportDelivery.StepConserves` | crates/dataplane/src/service.rs:758-917 | one step keeps drained reports followed by the buffer equal to the accepted reports |
| `ReportDelivery.ReportsConserved` | crates/dataplane/src/service.rs:724-965 | on every run, whatever fails: drained + buffer == accepted, in arrival order; a batch in flight is the front of the buffer |
| `ReportDelivery.StepCovers` | crates/dataplane/src/service.rs:842-883 | a step keeps "drained implies ingested" if and only if it is not an Ok on a later fragment from a server that forgot the executor and never had the batch |
| `ReportDelivery.DrainedReportsIngested` | crates/dataplane/src/service.rs:870-883 | on every run without such a step, everything drained was ingested |
| `ReportDelivery.IngestKeepsPrefix` | crates/server/src/executor_api/heartbeat_helpers.rs:94-135 | taking part of a request keeps the ingested reports a prefix if and only if no report is skipped that the server does not have yet |
| `ReportDelivery.StepSound` | crates/dataplane/src/service.rs:758-917 | a step keeps "everything drained is ingested, and the ingested reports are a prefix" if and only if it is neither a forgotten fragment with something new in it nor a partial ingestion that skips a report |
| `ReportDelivery.SoundExactly` | crates/dataplane/src/service.rs:724-965 | a run is sound throughout if and only if none of its steps is one of those two |
| `ReportDelivery.IngestedIsPrefix` | crates/server/src/executor_api/heartbeat_helpers.rs:71-137 | on every such run the server holds a prefix of the accepted reports that covers the drained part |
| `ReportDelivery.AnsweredFragment` | crates/dataplane/src/service.rs:758-917 | what one answered fragment does to the responses buffer, for a server that knows or has forgotten the executor |
| `ReportDelivery.ForgottenFragmentLosesReport` | crates/dataplane/src/service.rs:847-852 | a run from the start in which a report is drained and was never ingested |
| `ReportDelivery.FailedFragment` | crates/server/src/executor_api/heartbeat_helpers.rs:94-135 | what a fragment does of which the server took some responses and then failed |
| `ReportDelivery.PartialIngestLeavesHole` | crates/server/src/executor_api/heartbeat_helpers.rs:94-135 | a run from the start after which the ingested reports are not a prefix |
| `ReportDuplicates.DeliveriesLogged` | crates/dataplane/src/service.rs:758-917 | on every run, whatever fails: each delivery carries a contiguous stretch of the accepted reports, no later one starts before an earlier one, and the ingested reports are those the deliveries took |
| `ReportDuplicates.DuplicatesAreResentPrefixes` | crates/dataplane/src/service.rs:758-917 | on every run that stays sound, what a delivery repeats is an initial segment of it, and it starts no later than where the ingested reports end |
| `ReportDuplicates.WholeDeliveriesRepeatFronts` | crates/dataplane/src/service.rs:758-917 | with requests ingested whole or not at all the same holds of repetitions even when fragments were forgotten |
| `ReportDuplicates.HoleMakesDuplicateInside` | crates/server/src/executor_api/heartbeat_helpers.rs:94-135 | a run in which a delivery repeats its second report and not its first, after a partial ingestion |
| `HeartbeatSession.SessionInvariant` | crates/dataplane/src/service.rs:724-929 | the connection, cursor and backoff invariant holds after every run |
| `HeartbeatSession.ConnectionAtHead` | crates/dataplane/src/service.rs:566-578 | at every outer-loop head Ready means healthy with no full state owed, Registering after a first reply means one is owed, and the delay after k failures is min(2^k, 5) s |
| `HeartbeatSession.CursorsExactly` | crates/dataplane/src/service.rs:832-840 | on every run and at every step, both cursors become 0 exactly when a reply arrives while a full state is owed and the connection is Registering, and otherwise change only by the poll loops |
| `HeartbeatSession.ReplyOutcome` | crates/dataplane/src/service.rs:842-908 | on every run: a reply makes the client drain unless the server neither knows it nor was told its full state, or noticed a falling acknowledgement, and then it registers again; a failure makes it Unhealthy and leaves what is owed |
| `HeartbeatSession.RequestOutcome` | crates/server/src/executor_api/heartbeat_helpers.rs:53-137 | on every run: the server takes all of a request that arrives when the executor is known or told its full state, even if the reply is lost, and nothing otherwise; the reply itself removes nothing from a buffer |
| `HeartbeatSession.NextRoundBegins` | crates/dataplane/src/service.rs:729-757 | however a round ended, the next one starts with a first fragment, everything buffered, and the full state if it is owed |
| `HeartbeatSession.CursorsFallOnlyOnReregistration` | crates/dataplane/src/service.rs:832-840 | from any state, a cursor decreases only on an answered first fragment that carries the full state for a registration, and then both become 0 |
| `HeartbeatSession.QuietFragmentProgress` | crates/dataplane/src/service.rs:758-917 | one accepted fragment with no arrivals takes at least one report out of each non-empty buffer |
| `HeartbeatSession.QuietLoopDrains` | crates/dataplane/src/service.rs:758-917 | with no arrivals and every request accepted, all three buffers are empty after at most max(1, longest buffer) requests |
| `HeartbeatLoop.ServiceRuntime.CollectFragment` | crates/dataplane/src/service.rs:759-778 | three locked collects, with arrivals in between, go where the machine goes |
| `HeartbeatLoop.ServiceRuntime.DrainFragment` | crates/dataplane/src/service.rs:868-883 | three locked drains by the counts taken at collection, then Ready on a first fragment |
| `HeartbeatLoop.ServiceRuntime.HandleReply` | crates/dataplane/src/service.rs:819-908 | flags, cursors and connection state after any outcome of the request |
| `HeartbeatLoop.ServiceRuntime.SendFragment` | crates/dataplane/src/service.rs:758-917 | one pass of the inner loop and where it leaves the outer one |
| `HeartbeatLoop.ServiceRuntime.SendFragments` | crates/dataplane/src/service.rs:758-917 | the inner loop as a whole |
| `HeartbeatLoop.ServiceRuntime.RunHeartbeatLoop` | crates/dataplane/src/service.rs:724-965 | for every script of arrivals, replies and cursor updates the nested loops end in the state of the step machine, so all run theorems apply to the code |
| `CommandDelivery.ReplyIsLongest` | crates/server/src/state_store/executor_connection.rs:48-65 | a poll reply is the longest outbox prefix within the byte limit, or a single command |
| `CommandGuarantees.EnqueueKeeps` | crates/server/src/state_store/mod.rs:1113-1159 | new commands continue the numbering; the outbox holds only commands of the stream, ascending |
| `CommandGuarantees.EnqueueDiscardsNothing` | crates/server/src/state_store/mod.rs:1113-1159 | enqueueing discards no unhandled command |
| `CommandGuarantees.ServeAckKeeps` | crates/server/src/state_store/mod.rs:1163-1210 | serving an acknowledgement that covers only handled commands discards no unhandled one |
| `CommandGuarantees.AnswerKeeps` | crates/dataplane/src/service.rs:832-868 | answering a heartbeat keeps client and stream in step if and only if it does not leave a stale cursor |
| `CommandGuarantees.StepKeeps` | crates/dataplane/src/service.rs:971-1045 | every other step keeps the whole invariant |
| `CommandGuarantees.FullSyncKeeps` | crates/server/src/executors/command_emission.rs:161-190 | a restart of the stream keeps the invariant when no reply waits or is half applied and no stray request carries an acknowledgement |
| `CommandGuarantees.CommandsExactlyOnce` | crates/dataplane/src/service.rs:1005-1033 | end to end, on every clean run: while in step with the server the client has handled exactly the first commands of the stream; every ack, even in a request it gave up, covers only handled ones; the server has discarded nothing unhandled |
| `CommandGuarantees.NoFailureNoStaleCursor` | crates/dataplane/src/service.rs:740-741 | a run is free of stale cursors when no heartbeat fails while a full state is owed |
| `CommandLimits.StaleCursorLosesCommands` | crates/dataplane/src/service.rs:832-840 | after a stale answer the first N commands of the new stream are not handled by any continuation before the next full sync |
| `CommandLimits.StaleCursorReachable` | crates/dataplane/src/service.rs:885-908 | a run from the start that reaches a stale answer |
| `CommandLimits.PollDelivers` | crates/server/src/executor_api/polling.rs:17-68 | one undisturbed poll advances the client if and only if the outbox still has the next command |
| `CommandLimits.PollsBetweenBatches` | crates/dataplane/src/service.rs:976-1009 | on every run a poll is outstanding only when no response is being applied |
| `CommandLimits.UnknownExecutorGetsNothing` | crates/server/src/executor_api.rs:298-324 | a poll at a server without the executor ends at once and changes nothing |
| `CommandLimits.RestartIsClean` | crates/server/src/state_store/executor_connection.rs:255-268 | a full sync leaves an empty outbox numbered from 1 and no memory of acknowledgements |
| `CommandLimits.ServeAckExactly` | crates/server/src/executor_api/polling.rs:27-50 | an acknowledgement discards exactly the commands it covers unless it could not be persisted, and one lower than the last is noticed |
| `CommandLimits.FallingAckAsksForState` | crates/server/src/state_store/executor_connection.rs:147-168 | a falling acknowledgement makes the next served heartbeat ask for the full state, once, whatever happens in between |
| `CommandLimits.RefusedCommandStopsStream` | crates/server/src/state_store/executor_connection.rs:82-103 | once the next number is missing from the outbox, no continuation before a full sync handles another command |
| `CommandLimits.OversizedBatchSticks` | crates/server/src/state_store/mod.rs:1113-1159 | a batch with an oversized command brings an up-to-date client into that situation |
| `CommandLimits.OversizedCommandReachable` | crates/server/src/state_store/executor_connection.rs:82-103 | a run from the start that gets stuck on command 1 |
| `CommandRaces.LateReplyIsApplied` | crates/dataplane/src/service.rs:984-1009 | a run in which a reply of the old stream is applied after the restart and counts as the first command of the new one |
| `CommandRaces.HalfAppliedReplyGoesOn` | crates/dataplane/src/service.rs:1005-1033 | a run in which a half-applied reply goes on over the cursor reset, with the same effect |
| `CommandRaces.StrayAckDiscardsCommand` | crates/dataplane/src/service.rs:990-1002 | a run in which a request the client gave up acknowledges, and so discards, a command of the new stream |
| `CommandReplies.ProceedExact` | crates/dataplane/src/service.rs:1005-1033 | against any server: a step keeps "handled are 1, 2, 3, ..., the cursor counts them, acks cover only them" if and only if it does not apply a command on an expectation the cursor has been reset under |
| `CommandReplies.HandledExactlyOnce` | crates/dataplane/src/service.rs:971-1045 | for any replies (duplicates, gaps, disorder), any failures to apply and resets at any moment, that holds in every epoch throughout the run if and only if no step is of that kind |
| `CommandReplies.AsksAndResets` | crates/dataplane/src/service.rs:981-985 | a request acknowledges everything handled since the last reset |
| `CommandReplies.ResetsBetweenBatchesSuffice` | crates/dataplane/src/service.rs:971-1045 | it holds on every run whose resets fall between batches |
| `CommandReplies.MidBatchResetSkips` | crates/dataplane/src/service.rs:832-840 | a run with a reset inside a batch after which command 2 is the first one handled |
| `CommandPolling.PollCursor.ApplyResponse` | crates/dataplane/src/service.rs:1005-1033 | for any response and any verdicts, the handled numbers are consecutive after the cursor, which ends on the last; 64-bit saturation included; below it the loop equals the step machine, and a gap-free response that applies, redelivered prefix included, takes the cursor to its last number |
| `CommandPolling.ResponseUpToStop` | crates/dataplane/src/service.rs:1005-1033 | of any response, commands already handled are skipped and the new ones are handled in order up to the first that leaves a gap or fails to apply, whatever comes after it |
| `CommandPolling.PollCursor.PollCommands` | crates/dataplane/src/service.rs:971-1045 | the whole poll loop against any server, with 64-bit saturation: in every epoch the handled numbers are consecutive from 1 and every acknowledgement covers only handled commands; below saturation each request acknowledges all that was handled and each reply is handled as `Drive` does |
| `ResultDispatch.OfferedAtMostOnce` | crates/dataplane/src/service.rs:1082-1136 | between two cursor resets no result number is offered twice, on any run |
| `ResultDispatch.ChannelsReceiveInOrder` | crates/dataplane/src/allocation_result_dispatcher.rs:30-63 | everything a channel holds was offered and belongs to its owner, and its numbers strictly increase between resets, under any register and deregister interleaving |
| `ResultDispatch.OffersReachRunners` | crates/dataplane/src/allocation_result_dispatcher.rs:30-63 | on every run an open channel holds exactly the results offered for its allocation since the runner registered, in order |
| `ResultDispatch.FormerChannelIsSilent` | crates/dataplane/src/allocation_result_dispatcher.rs:30-63 | a runner that deregisters, registers again or drops its receiver gets nothing more in the channel it had |
| `ResultDispatch.GapFreeResponseReachesLast` | crates/dataplane/src/service.rs:1085-1135 | a gap-free response, possibly starting with results already processed, moves the cursor to its last number whatever is malformed or unroutable and whatever runners come and go meanwhile |
| `ResultDispatch.ResponseUpToGap` | crates/dataplane/src/service.rs:1085-1135 | a response is processed up to its first gap, whatever comes after it: the new well-formed results are offered, in order |
| `ResultDispatch.RestartedStreamIsOffered` | crates/dataplane/src/service.rs:832-840 | after a cursor reset a stream numbered from 1 again is offered from its beginning |
| `ResultDispatch.RunKeeps` | crates/dataplane/src/service.rs:1051-1147 | the dispatch invariant holds after every run |
| `ResultDispatch.AllocationResultDispatcher.RegisterRunner` | crates/dataplane/src/allocation_result_dispatcher.rs:30-37 | a registration replaces the sender with a fresh channel |
| `ResultDispatch.AllocationResultDispatcher.DeregisterRunner` | crates/dataplane/src/allocation_result_dispatcher.rs:43-45 | a deregistration removes the sender only |
| `ResultDispatch.AllocationResultDispatcher.DispatchResult` | crates/dataplane/src/allocation_result_dispatcher.rs:53-63 | delivers exactly when a registered receiver is open, and says so |
| `ResultDispatch.AllocationResultDispatcher.HandleResponse` | crates/dataplane/src/service.rs:1085-1135 | the loop over one response, with runners coming and going, goes where the step machine goes |
| `ExecutorLiveness.NextDeadline` | crates/server/src/executors.rs:89-103 | a peek on the reversed order is the minimum deadline, or the far future |
| `ExecutorLiveness.ExecutorManager.Peek` | crates/server/src/executors.rs:270-294 | the queue's top entry is the earliest deadline |
| `ExecutorLiveness.ExecutorManager.HeartbeatV2` | crates/server/src/executors.rs:270-294 | the deadline becomes exactly 30 s from now and the new minimum is published |
| `ExecutorLiveness.ExecutorManager.RegisterExecutor` | crates/server/src/executors.rs:297-313 | a registration is recorded, or only its clock updated |
| `ExecutorLiveness.ExecutorManager.DeregisterExecutor` | crates/server/src/executors.rs:427-515 | tombstone first; on a failed write nothing is forgotten |
| `ExecutorLiveness.ExecutorManager.PopLapsed` | crates/server/src/executors.rs:349-387 | pops exactly the entries with deadline at or before now, once each, and publishes the minimum of the rest |
| `ExecutorLiveness.ExecutorManager.ProcessLapsed` | crates/server/src/executors.rs:349-425 | one whole pass equals the specified lapse of exactly the expired executors |
| `ExecutorLiveness.LapsePass` | crates/server/src/executors.rs:349-425 | after a pass: unwritable executors stay registered and are requeued one second ahead, the others are gone, non-lapsed entries are untouched, the published wake-up is the minimum |
| `LivenessRuns.RegistrationsTracked` | crates/server/src/executors.rs:270-313 | on every run each registered executor is queued or about to be handled, the journal is regular, and the wake-up is the earliest deadline |
| `LivenessRuns.DeadlinesExact` | crates/server/src/executors.rs:270-294 | on every run a queued deadline is exactly 30 s after the executor was last heard from, or 1 s after its deregistration last failed |
| `LivenessRuns.ScanTakesSilentExecutors` | crates/server/src/executors.rs:349-369 | on every run a scan takes a registered executor if and only if that deadline has come, unless a pass already has it |
| `LivenessRuns.RegistrationExactly` | crates/server/src/executor_api/heartbeat_helpers.rs:399-420 | what each event does to a registration: registered or renewed by a full state, removed by a stop or its turn in a pass unless the tombstone fails, untouched otherwise |
| `LivenessRuns.EmptyQueueSleeps` | crates/server/src/executors.rs:107-109 | when the last deadline goes, the wake-up is a day ahead |
| `LivenessRuns.OneTombstonePerRegistration` | crates/server/src/executors.rs:427-515 | on every run the records of an executor are registered, tombstoned, forgotten in turn and never out of turn: every ended period has exactly one tombstone, written before the record is dropped |
| `LivenessRuns.StepHonours` | crates/server/src/executors.rs:349-425 | a step keeps "deadline ≥ last heard + 30 s" if and only if nobody is heard from between the pop and the deregistration |
| `LivenessRuns.TimeoutHonoured` | crates/server/src/executors.rs:270-294 | on runs without such a step the deadline promise holds throughout |
| `LivenessRuns.OnlySilentExecutorsLapse` | crates/server/src/executors.rs:349-425 | on those runs a lapse removes only executors silent for 30 s |
| `LivenessRuns.OvertakenExecutorLapses` | crates/server/src/executors.rs:392-422 | an executor heard from in that window, wherever it stands in the pass and whatever the others do, is removed when its turn comes, or gets one second |
| `LivenessRuns.OvertakingIsReachable` | crates/server/src/executors.rs:349-425 | a run from the start that opens the window |
| `PtyOutput.CutIsUnique` | crates/container-daemon/src/pty_manager.rs:79-89 | the longest suffix of all pushed chunks within 1 MiB is unique |
| `PtyOutput.AppendKeepsCut` | crates/container-daemon/src/pty_manager.rs:79-89 | evicting from the front after a push finds that suffix again |
| `PtyOutput.OutputBuffer.Push` | crates/container-daemon/src/pty_manager.rs:79-89 | after any pushes the buffer holds exactly that suffix and `total_bytes` is its exact size |
| `PtyOutput.OutputBuffer.Evict` | crates/container-daemon/src/pty_manager.rs:79-89 | the eviction loop; its empty-queue exit is unreachable |
| `PtyFanout.RunKeeps` | crates/container-daemon/src/pty_manager.rs:450-484 | the lock-level invariant of reader and subscribers holds after every interleaving |
| `PtyFanout.SeamIsGapFree` | crates/container-daemon/src/pty_manager.rs:291-304 | every subscriber, wherever it subscribed, has a gap-free ordered stretch from the start of its history to the last broadcast, with at most the one chunk in flight repeated |
| `PtyFanout.ClosedMeansComplete` | crates/container-daemon/src/pty_manager.rs:450-484 | after the reader exits every subscriber has everything |
| `PtyFanout.ReaderExitCloses` | crates/container-daemon/src/pty_manager.rs:450-484 | the reader closes the stream exactly when everything is broadcast and nobody is attaching, and the output does not change after that |
| `PtyFanout.RepeatIsReachable` | crates/container-daemon/src/pty_manager.rs:291-304 | a run in which the chunk in flight is repeated |
| `PtyWebSocket.Forwarder.OnOutput` | crates/container-daemon/src/http_server.rs:828-861 | output is forwarded when ready and otherwise held back; the connection goes on unless the send fails or the held-back bytes pass 1 MiB, which closes it with that reason |
| `PtyWebSocket.Forwarder.OnOutputClosed` | crates/container-daemon/src/http_server.rs:862-871 | when ready the exit code is sent and the connection ends; otherwise it waits |
| `PtyWebSocket.Forwarder.OnReady` | crates/container-daemon/src/http_server.rs:938-963 | READY flushes the held-back output in order; the connection goes on exactly when all of it was sent and the stream is open, and a closed one ends with the session's exit code if there is room for it |
| `PtyWebSocket.Forwarder.OnData` | crates/container-daemon/src/http_server.rs:895-924 | input is passed on exactly when the bytes of the current second stay within the limit, and else the connection closes with that reason |
| `PtyWebSocket.InputMeter.Meter` | crates/container-daemon/src/http_server.rs:895-912 | every write falls within a second of its window's start, windows succeed each other, and none takes more than the limit |
| `PtyWebSocket.Forwarder.OnOther` | crates/container-daemon/src/http_server.rs:872-1011 | which of lag, other messages, client loss, pings and cancellation ends the connection, and with which close frame |
| `PtyWebSocket.Forwarder.HandleEvents` | crates/container-daemon/src/http_server.rs:785-1031 | for every event sequence: nothing is sent before READY; after it the client has exactly history plus all live output received, or a prefix only if the socket failed; the exit code comes last, after all output, and is sent whenever READY and the end of output were seen unless the socket failed; input reaches the terminal in order |
| `PtyWebSocket.ClientSeesOutput` | crates/container-daemon/src/http_server.rs:785-1031 | subscription and forwarding composed: the client has a prefix of one stretch of output with at most one repeated chunk |
| `PtyWebSocket.ExitMeansComplete` | crates/container-daemon/src/http_server.rs:862-871 | a client that got the exit code and emptied its receiver has the output to its very end |
| `S3Transfer.PartsTile` | crates/blob-store/src/s3.rs:121-141 | consecutive part ranges tile the object |
| `S3Transfer.DownloadIsObject` | crates/blob-store/src/s3.rs:80-187 | the expected parts concatenate to the object, for every size |
| `S3Transfer.PartAt` | crates/blob-store/src/s3.rs:142-166 | the k-th item is an error exactly when its request fails, and else the k-th 8 MiB of the object |
| `S3Transfer.FuturesOrdered.Next` | crates/blob-store/src/s3.rs:124-170 | completions in any order are delivered in push order |
| `S3Transfer.MakeRoom` | crates/blob-store/src/s3.rs:124-140 | the counter stays equal to the number of queued requests, ends below 24, and the results forwarded are the front of the queue |
| `S3Transfer.ForwardRest` | crates/blob-store/src/s3.rs:173-183 | everything still queued is forwarded in order, unless the receiver goes away |
| `S3Transfer.GetStreamConcurrent` | crates/blob-store/src/s3.rs:80-187 | under any completion schedule the stream yields a prefix of the expected parts, in order and without overflow, and all of them unless the receiver goes away first; never more than 24 requests are queued |
| `S3Transfer.PartCount` | crates/blob-store/src/s3.rs:80-187 | the number of parts is the rounded-up quotient |
| `S3Transfer.FlushFull` | crates/blob-store/src/s3.rs:262-289 | a buffer of at least one part size is uploaded under the next number |
| `S3Transfer.FinishUpload` | crates/blob-store/src/s3.rs:291-312 | the remainder is the last part, and an empty stream becomes one empty part |
| `S3Transfer.PutParts` | crates/blob-store/src/s3.rs:240-332 | for every chunk stream and every failing part: parts concatenate to the stream, numbers are 1..n with n ≥ 1, all but the last are full, the size is exact; it succeeds when nothing fails and only when no chunk, part or completion failed |
| `S3Transfer.UploadThenDownload` | crates/blob-store/src/s3.rs:80-332 | the upload loop followed by the download loop gives back the uploaded stream, for every completion order, when the upload succeeded and the receiver stays |
| `BlobChunks.PlanReadChunks` | crates/dataplane/src/blob_ops.rs:321-345 | read chunks are full but the last and sum to the size, for every size to 2^60 without overflow |
| `BlobChunks.PlanWriteChunks` | crates/dataplane/src/blob_ops.rs:364-403 | write chunks: 100 MiB for the first 100 and 1 GiB after, consecutive part numbers from 1, sizes sum to the size, the count matches the two-regime formula, no u64 or i32 overflow |
| `BlobChunks.CountFromCoverage` | crates/dataplane/src/blob_ops.rs:364-403 | coverage of n chunks determines the count formula |
| `NetworkRules.ChainName` | crates/dataplane/src/network_rules.rs:28-35 | a chain name is never DOCKER-USER |
| `NetworkRules.ChainMeansPolicy` | crates/dataplane/src/network_rules.rs:82-118 | first-match evaluation of the compiled chain drops a packet if and only if it is not established, matches no allow entry, and is denied or has no internet access |
| `NetworkPolicies.VerdictBySetting` | crates/dataplane/src/network_rules.rs:104-118 | the verdicts for internet access unset, on and off, one by one |
| `NetworkRules.Iptables.AppendAll` | crates/dataplane/src/network_rules.rs:95-108 | one append per destination up to the first rejected one |
| `NetworkRules.Iptables.OpenChain` | crates/dataplane/src/network_rules.rs:60-70 | create or flush the chain and put the jump in front, whichever commands fail |
| `NetworkRules.Iptables.FillChain` | crates/dataplane/src/network_rules.rs:72-118 | the chain is the first n rules of the compiled policy, and n is where iptables first rejects one |
| `NetworkRules.Iptables.ApplyRules` | crates/dataplane/src/network_rules.rs:46-120 | whichever commands fail, Ok means the policy is compiled in full behind the first jump; the chain is never anything but a prefix of it; without faults the table and the result are exactly `Apply` |
| `NetworkRules.Iptables.RemoveRules` | crates/dataplane/src/network_rules.rs:130-170 | whichever commands fail, only the container's chain and jumps change; without faults the table is exactly `Remove` |
| `NetworkPolicies.PolicyInForce` | crates/dataplane/src/network_rules.rs:46-120 | with the policy in place the container's packet is dropped when forbidden and otherwise goes on in DOCKER-USER |
| `NetworkPolicies.LastPolicyWins` | crates/dataplane/src/network_rules.rs:63-70 | applying two policies gives the same table and result as applying the second |
| `NetworkPolicies.RemoveUndoesApply` | crates/dataplane/src/network_rules.rs:130-170 | apply, however far it got, then remove restores the table if and only if it had no such jump and no such chain (or an empty one that something else refers to) |
| `NetworkPolicies.ApplySucceeds` | crates/dataplane/src/network_rules.rs:46-120 | apply succeeds if and only if DOCKER-USER exists and the address and every allow and deny entry parse |
| `NetworkPolicies.PartialChainVerdict` | crates/dataplane/src/network_rules.rs:95-118 | an unfinished chain drops a packet if and only if it is not established, under no installed allow, and under an installed deny |
| `NetworkPolicies.PartialChainAgrees` | crates/dataplane/src/network_rules.rs:95-118 | an unfinished chain treats a packet as the policy says if and only if the policy does not forbid it or an installed deny covers it |
| `NetworkPolicies.RejectedAllowLosesDeny` | crates/dataplane/src/network_rules.rs:95-108 | a policy with one rejected allow entry, and a packet it forbids that passes |
| `NetworkPolicies.OthersUnaffected` | crates/dataplane/src/network_rules.rs:46-170 | whatever an apply or remove did, complete or not, packets from other sources meet the same verdict in every chain |
| `NetworkPolicies.ChainNamesCollide` | crates/dataplane/src/network_rules.rs:28-35 | two containers share a chain if and only if their ids agree in the first 12 characters |
| `NetworkPolicies.ChainNameExamples` | crates/dataplane/src/network_rules.rs:191-195 | the names of a long and two short ids |
| `NetworkPolicies.TwoContainers` | crates/dataplane/src/network_rules.rs:28-70 | after two applies the first container obeys its own policy exactly when the names differ, and otherwise the second container's |
| `NetworkFleet.TableIsOverlay` | crates/dataplane/src/network_rules.rs:46-170 | after any sequence of applies and removes over distinct containers the table is exactly the original one overlaid with the active policies |
| `NetworkFleet.FleetVerdict` | crates/dataplane/src/network_rules.rs:46-170 | after any such sequence each container's packets are ruled by its own last policy, and then by the rules DOCKER-USER began with |
| `NetworkFleet.FleetEnforced` | crates/dataplane/src/network_rules.rs:46-170 | those rules give the verdict of the original table, in which jumps do not lead back to DOCKER-USER |
| `NetworkFleet.FleetLeavesNoTrace` | crates/dataplane/src/network_rules.rs:130-170 | once every container is removed the table is the original |
| `LogGuarantees.RunKeeps` | crates/otel-logs-sdk/src/processor.rs:225-293 | the processor's invariant holds after every run |
| `LogGuarantees.RecordsExportedInOrder` | crates/otel-logs-sdk/src/processor.rs:154-293 | on every run exported batches, buffer and channel concatenate to the enqueued records; control messages are answered in order |
| `LogGuarantees.ReplyMeansHanded` | crates/otel-logs-sdk/src/processor.rs:160-178 | for every run: once a flush or shutdown request is answered, the records enqueued before it was made are a prefix of those handed to the exporter |
| `LogGuarantees.BatchesBounded` | crates/otel-logs-sdk/src/processor.rs:242-263 | batches are never empty; full ones have exactly max(1, max_batch_size) records, timer ones fewer |
| `LogGuarantees.ReceiveExactly` | crates/otel-logs-sdk/src/processor.rs:242-249 | a received record goes to the end of the buffer, which is handed over exactly when that fills it |
| `LogGuarantees.TimerHandsOver` | crates/otel-logs-sdk/src/processor.rs:258-263 | after a timer tick everything outside the channel has been handed over |
| `LogGuarantees.EmitExactly` | crates/otel-logs-sdk/src/processor.rs:150-158 | an emit is accepted exactly when a handle is left, the worker lives and there is room |
| `LogGuarantees.ChannelBounded` | crates/otel-logs-sdk/src/processor.rs:130-131 | the channel never holds more than max_queue_size records |
| `LogGuarantees.RepliesReportFailures` | crates/otel-logs-sdk/src/processor.rs:273-285 | a flush reply is a success if and only if nothing was held or the export succeeded; a shutdown also needs the exporter to shut down |
| `LogGuarantees.ExitsExactly` | crates/otel-logs-sdk/src/processor.rs:250-290 | exactly when the worker exits |
| `LogGuarantees.ExitLossExact` | crates/otel-logs-sdk/src/processor.rs:250-290 | the worker's exit hands over everything if and only if it is not a shutdown with records in the channel or a closed control channel with records in hand |
| `LogGuarantees.ShutdownLeavesOnlyLateRecords` | crates/otel-logs-sdk/src/processor.rs:276-287 | a shutdown leaves exactly the records emitted after its drain loop ended |
| `LogGuarantees.StoppedForGood` | crates/otel-logs-sdk/src/processor.rs:225-293 | nothing is exported, accepted or answered after the exit |
| `LogGuarantees.DroppedHandlesLoseRecord` | crates/otel-logs-sdk/src/processor.rs:288-288 | a run in which dropping the handles loses an accepted record |
| `LogGuarantees.ShutdownLosesLateRecord` | crates/otel-logs-sdk/src/processor.rs:276-287 | a run in which a shutdown reports success and loses a record accepted during its export |
| `LogGuarantees.DrainCompletes` | crates/otel-logs-sdk/src/processor.rs:268-275 | with no new records a control message is served after one turn per queued record, in one batch holding everything |
| `LogGuarantees.FlushBatchExceeds` | crates/otel-logs-sdk/src/processor.rs:268-287 | a flush or shutdown batch exceeds the limit if and only if buffer and channel together do |
| `LogGuarantees.FlushExceedsReachable` | crates/otel-logs-sdk/src/processor.rs:268-275 | a run that exports two records with a limit of one |
| `LogWorker.BatchWorker.ExportBatch` | crates/otel-logs-sdk/src/processor.rs:184-223 | an empty buffer is not exported; otherwise it is handed over and cleared even on error |
| `LogWorker.BatchWorker.Serve` | crates/otel-logs-sdk/src/processor.rs:268-287 | drain, export and reply for a control message |
| `LogWorker.BatchWorker.SelectOther` | crates/otel-logs-sdk/src/processor.rs:242-263 | the record, timer and closed-channel branches |
| `LogWorker.BatchWorker.WorkerLoop` | crates/otel-logs-sdk/src/processor.rs:225-293 | for every script of emits, requests and select choices the loop ends in the state of the step machine |

## Left out

- Heartbeat transport: deadlines, gRPC status codes, TLS and metrics; a request is undelivered, loses its reply, fails at ingestion or is answered.
- Report contents and what ingestion does with them: ingestion is the set of positions the server took. The unbounded log-entry drainer behaves like the bounded one once an item is received.
- Waiting: the `notify` wake-ups and the 5 s heartbeat interval only decide when the next step happens. The cancellation token ends the heartbeat script.
- `usize` overflow of size sums and of counters; the 64-bit cursors, the S3 offsets and the chunk plans are modelled with their widths.
- CommandGuarantees.CommandsExactlyOnce: speaks about runs without the restarts named above, each of which has a run that breaks it; what the poll loop promises on its own, against any server, is CommandReplies.HandledExactlyOnce.
- CommandPolling.PollCursor.ApplyResponse: takes `handle_command` as a verdict per command; reconciliation of containers and allocations is not modelled. A malformed command is applied or retried like any other, its metrics are left out.
- CommandLimits.PollDelivers: speaks about one poll without interference; the long-poll timeout and the wake-up of a held poll are left out.
- Server restart: rebuilding connections and outboxes from the store, and the removal of oversized commands at the head of a rebuilt outbox.
- ResultDispatch.AllocationResultDispatcher.HandleResponse: the cursor is unbounded there; its saturation is shown on the command cursor, which has the same arithmetic. Producing results on the server is left out.
- Executor deregistration is one step that writes a tombstone, drops the runtime record and the connection; two deregistrations of one executor at the same time, and reaping of executors at server start, are left out.
- The clock is a natural number that a run advances.
- PtyFanout.SeamIsGapFree: assumes the receiver does not lag; a lagging receiver is closed by the forwarder with its own reason.
- PtyWebSocket.Forwarder.OnData: a failing write to the terminal, resizing, tokens and inactivity monitoring are left out.
- S3Transfer.GetStreamConcurrent: the semaphore of 8 permits is left out, since it delays requests but does not order them; the channel bound shows as arbitrary waiting.
- S3Transfer.PutParts: the SHA-256 digest, and aborting the upload after a failure.
- BlobChunks: presigning, the chunk URIs and the S3 client cache.
- Iptables: host names that resolve to several addresses, IPv6, rules with several conditions, and the counters of rules. Container ids are ASCII, as Docker ids are; a slice of 12 bytes is a slice of 12 characters. A rule whose address cannot be parsed is never in the table.
- NetworkFleet.FleetEnforced: applies to containers with distinct addresses and names whose policies parse, and to tables without dangling jumps and loops, which iptables refuses; the other cases are the ones above.
- LogProcessor: an export is one step except at shutdown, where records can arrive between the export and the exit; elsewhere such arrivals commute with it. The retry policy of exporters, metrics and the first timer tick are left out.
- Scheduling, the state store, the HTTP API, image building and the user SDK would add breadth and no protocol as stateful as these.
