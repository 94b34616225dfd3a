# Verification of the microsandbox guest agent's transport and release planning

This project models, in Dafny 4.11, the parts of microsandbox whose correctness is hardest to see
from one function at a time, and proves what they promise over every run:

- **The bulk output scheduler** (`Bulk*.dfy`, `RelaySlots.dfy`). A deficit-round-robin writer over one
  queue per (client incarnation, correlation), with park, resume, restore and drop commands landing
  between any two records. `BulkModel` is the scheduler as a transition system with a log of what
  happened; `BulkControl` is the control flow the writer owes: which event is due where, and which
  acknowledgements a run earns; `BulkWriter` is the writer itself, mutable state and nested loops,
  proved to take exactly those steps for every arrival schedule.
- **The checkpoint cut** (`Checkpoint*.dfy`). Freeze, thaw and restore across two input lanes, with
  pending, retried, abandoned and restored attempts; the workload latch; the client generations; and
  exit reports that arrive after their client departed or was set aside.
- **The two-lane receive path** (`Transfer*.dfy`). Raw records on one lane, their finish on the other,
  a finish that waits for its data, a coalescing write worker, partial vectored writes, and the credit
  that lets the host send on.
- **Admission from the dedicated lane** (`Admission*.dfy`). Transport credit, ownership leases, the
  shared byte budget and the queue of deferred records, with stdin and inline messages charged to the
  same lane.
- **Output windows and exit frames** (`ExecOutput.dfy`, `ExecExits.dfy`), the **heartbeat gate**
  (`HeartbeatGate.dfy`), the **rotating stdin poll** (`StdinTurns.dfy`) and **record writes**
  (`RecordWrite.dfy`).
- **Mount selection** (`Mounts.dfy`, `MountPaths.dfy`, `ByteOrder.dfy`), the **crate publication
  planner** (`Publication*.dfy`) and the **OpenAPI reference closure** (`SchemaRefs.dfy`).

## How the model is built

Code that updates state step by step is a class (or a method with loops) whose contracts equate the
new state with a pure function of the old one; the theorems are about that function and about every
sequence of its steps. Channels, the clock, the operating system and the other threads are
parameters: schedules of arrivals, answers of the kernel, booleans for a freezer write that may fail.
A schedule says what has arrived by each look at the channels; it is finite but arbitrary, so a theorem
about all schedules covers every prefix of every execution. Where a step of the source can end the agent
or a worker with an error, the model's function returns `None` (or a phase that says so) and runs go only
through steps that succeed.

The scheduler's quantum, burst maximum, flow capacity and number of flows are parameters: its theorems
hold for every choice with a positive quantum within the burst, and so for the agent's constants.

Each `Bulk`, `Checkpoint`, `Transfer` and `Admission` group has the same layout: a `…Model` module with
the functions, modules that prove properties of all runs, and a module with the imperative code. The
`…Intake`, `…Exits`, `…Replies` and `…Integrity` modules tie the results of a run to its events: to what was
handed over, read, reported or sent, rather than to the functions that process it.

## What turned out not to hold as stated, and exactly when it does

- **An acknowledged drop does not always cut.** A restore in the same command batch, after the drop,
  forgets the owners and correlations being retired. A record of the dropped owner is then queued if
  it carries the generation that restore starts. `BulkCuts.DropIncarnationCut` and `BulkCuts.DropFlowCut`
  give the exact condition, that no record of the poll slips past in this way, and
  `BulkCuts.RestoreAfterDropReopensOwner` is the smallest poll that does. It needs a record of a
  generation that has not begun. Restores start newer generations and producers stamp the generation
  they began in, so for every poll the agent can produce both drops and restores cut, whatever their
  order (`BulkCuts.HonestDropsCut`, and at any point of any run `BulkCuts.AcknowledgedDropsCut`).
- **The retired bitmap is not a set of ids.** It records the place of an id inside its slot, so two ids at
  the same place of two slots share an answer under one owner (`RelaySlots.BitmapAliasesAcrossSlots`);
  for ids of one slot it is a set (`RelaySlots.BitmapIsASet`), and in general it answers by place
  (`RelaySlots.BitmapAnswersByPlace`).
- **A freeze can be undone by the release of the previous thaw.** A freeze that is captured while that
  release is outstanding is unparked by it (`CheckpointCut.EagerFreezeBreaksTheCut`, reachable by
  `CheckpointCut.EagerFreezeIsPossible`). The cut survives if and only if no release is outstanding
  (`CheckpointCut.CutSurvivesLoopTopIff`), which holds in every run whose host sends a freeze only after
  it has received every Thawed it is owed; under that discipline the cut is proved for all runs.
- **A held heartbeat gate can reopen without a resume.** Freezing again with the same attempt pauses the
  gate again, and a pause whose removal of the temporary file fails lets writers in
  (`HeartbeatGate.FailedRetryReopens`, from every held gate). The first step after a successful pause that
  admits a write is exactly a resume or such a failed removal (`HeartbeatGate.HeldGateReopensIff`); until
  one of them nothing is written (`HeartbeatGate.NoWriteWhileHeld`).
- **An inherited exit can end the wrong execution.** Exits of an earlier generation are matched by
  generation and correlation, not by owner. If a range was recycled before its old execution had
  reported, and a restore follows, the late report removes the newcomer's entry. It can happen exactly
  when a correlation is reused while an execution of the same generation under it has yet to report
  (`CheckpointExits.NewcomerIsDisplacedIff`, reached by `CheckpointExits.RecycledRangeExposes`);
  without such reuse every exit ends its own execution and no other (`CheckpointExits.ExitsEndTheirOwn`).
  Exits of the present generation are matched by owner too, so there ranges may be recycled at once. What
  can still go wrong is a client that reuses its own correlation early, or one that returns under its old
  incarnation, and `CheckpointRecycling.ExitsStaySafeIff` gives the exact condition, event by event.

## Model

| member | source | states |
|---|---|---|
| `RelaySlots.SlotIsTheOwningRange` | crates/protocol/lib/transport.rs:191-208 | an id has slot s exactly when it lies in the canonical range of s, so ranges are disjoint and gaps belong to nobody |
| `RelaySlots.ValidRangesAreCanonical` | crates/protocol/lib/transport.rs:211-214 | two bounds name a slot exactly when they are that slot's canonical range |
| `RelaySlots.RetireAddsOneId` | crates/agentd/lib/agent.rs:2301-2339 | retiring an id changes the answer for exactly the ids at its place in a slot, under its owner |
| `RelaySlots.BitmapAnswersByPlace` | crates/agentd/lib/agent.rs:2301-2339 | after any sequence of retirements an id answers retired iff some retired id has its place |
| `RelaySlots.BitmapIsASet` | crates/agentd/lib/agent.rs:2301-2339 | for ids of one slot the bitmap answers exactly like the set of retired ids |
| `RelaySlots.BitmapAliasesAcrossSlots` | crates/agentd/lib/agent.rs:2301-2339 | counterexample: an id of another slot that was never retired answers retired |
| `RelaySlots.LeaseIsExact` | crates/agentd/lib/agent.rs:2383-2406 | a lease is granted iff the range is a slot's own and that slot is free or already the client's; then the ids of the range, and no others, belong to the client |
| `RelaySlots.UnleaseIsExact` | crates/agentd/lib/agent.rs:2408-2434 | a departure is refused iff it names no slot's range, or a leased one without its client; it frees the ids of the range iff its own client leaves |
| `BulkShape.NextKeepsShape` | crates/agentd/lib/agent.rs:1285-1481 | every event keeps: no duplicate active key, active keys have nonempty flows, queued bytes are the sum of payloads within capacity, deficits and owners bounded, envelopes of the current generation under their own key; only a visited key may be off the list |
| `BulkShape.RunKeepsShape` | crates/agentd/lib/agent.rs:1285-1481 | that invariant holds in every reachable state |
| `BulkShape.PollKeepsShape` | crates/agentd/lib/agent.rs:1503-1659 | a poll of both channels, any commands and any envelopes, keeps the invariant |
| `BulkHistory.RunKeepsHistory` | crates/agentd/lib/agent.rs:1285-1481 | in every run each flow's queue is the FIFO of its logged history and every park reported the bytes written so far |
| `BulkHistory.NothingLostOrReordered` | crates/agentd/lib/agent.rs:1285-1481 | for every run, key and stretch without a flush of that key: queued before ++ accepted = written ++ queued after |
| `BulkHistory.FifoConserves` | crates/agentd/lib/agent.rs:1590-1659 | the same law for every FIFO history, from any point of it |
| `BulkHistory.ParkCutsBetweenRecords` | crates/agentd/lib/agent.rs:1387-1443 | a park reports the wire size of all complete records before it, and none is written until the next resume, even when it lands inside a burst |
| `BulkIntake.AcceptedIsHanded` | crates/agentd/lib/agent.rs:1590-1659 | in every run the records accepted for a key are exactly, in order, the records handed over for it that were of the generation current at their poll and whose key was not tombstoned then |
| `BulkIntake.IntakeIsExact` | crates/agentd/lib/agent.rs:1590-1659 | a poll's records are added to the queues exactly: every key gains its wanted records in order and their bytes, new keys open once at the back of the list, nothing else moves |
| `BulkIntake.IntakeFailsIff` | crates/agentd/lib/agent.rs:1590-1659 | a poll's records end the writer iff one of the current generation has no owner, is not bulk, has id zero, is empty or above the burst maximum, would exceed its flow's capacity, or opens one flow too many for its owner, with the queues it meets counted from the records before it |
| `BulkIntake.PollFailsIff` | crates/agentd/lib/agent.rs:1312-1333 | a poll ends the writer iff a dropped id belongs to no slot or a record is refused in that way |
| `BulkIntake.HandedIsWrittenOrQueued` | crates/agentd/lib/agent.rs:1285-1481 | in every run whose commands spare a key, what was handed over for it is what was written followed by what is queued |
| `BulkIntake.CommandsAreObeyed` | crates/agentd/lib/agent.rs:1503-1559 | in every run the writer is parked, and in a generation, exactly as the last command about it says |
| `BulkIntake.VisitsAreGreedy` | crates/agentd/lib/agent.rs:1354-1369 | in every run a visit ends only when the writer is parked, or the flow is gone or empty, or its head exceeds what is left of the deficit or of the burst |
| `BulkIntake.SendIff` | crates/agentd/lib/agent.rs:1354-1394 | and a record is written iff a visit is under way, the writer is not parked, the head is not held back so, and the byte counter does not overflow |
| `BulkIntake.QuantumFollowsTheRound` | crates/agentd/lib/agent.rs:1335-1345 | in every run a flow alone in its round is credited the whole burst, and flows that share one the quantum |
| `BulkControl.AcknowledgedParksAreTheCuts` | crates/agentd/lib/agent.rs:1562-1588 | in every run the byte counts acknowledged to parks are, in order, exactly the cuts of the log |
| `BulkCuts.TombstonesAfter` | crates/agentd/lib/agent.rs:1503-1559 | after a batch of commands a key is blocked iff the batch shields it, or an older tombstone survives because nothing restored |
| `BulkCuts.DropIncarnationCut` | crates/agentd/lib/agent.rs:1546-1588 | an acknowledged owner drop leaves nothing of the owner queued iff no record of the poll slips past: unshielded after the last restore of the batch and of the generation then current |
| `BulkCuts.DropFlowCut` | crates/agentd/lib/agent.rs:1535-1545 | the same iff for one correlation, with the tombstones that share its bit |
| `BulkCuts.DroppedKeyQueuedIff` | crates/agentd/lib/agent.rs:1503-1659 | a batch that drops a key leaves it queued iff some record of the poll slips past, for any other commands around the drop |
| `BulkCuts.HonestDropsCut` | crates/agentd/lib/agent.rs:2605-2605 | with restores to newer generations and records of generations that have begun, every acknowledged drop cuts, also before a restore |
| `BulkCuts.RestoreAfterDropReopensOwner` | crates/agentd/lib/agent.rs:1503-1588 | counterexample: drop then restore in one batch lets in a record of the dropped owner that carries the generation the restore starts |
| `BulkCuts.RestoreCut` | crates/agentd/lib/agent.rs:1524-1534 | once a restore to a newer generation is acknowledged nothing at all is queued, for every batch of commands and records of generations that have begun |
| `BulkCuts.NoOwnerRetiringBetweenEvents` | crates/agentd/lib/agent.rs:1562-1588 | in every run acknowledgements leave no owner marked as retiring |
| `BulkCuts.DroppedOwnersAreForgotten` | crates/agentd/lib/agent.rs:1562-1588 | at any point of any run an acknowledged owner drop leaves no tombstone of that owner behind |
| `BulkCuts.AcknowledgedDropsCut` | crates/agentd/lib/session.rs:521-542 | at any point of any run, once a poll the agent can produce is acknowledged, nothing its commands drop or restore away is queued, restores in the batch or not |
| `BulkCuts.TombstoneBlocks` | crates/agentd/lib/agent.rs:1535-1624 | for every continuation a dropped correlation is never opened, accepted or written until its owner is retired or a restore |
| `BulkFairness.RunKeepsFair` | crates/agentd/lib/agent.rs:1335-1451 | in every run each flow's deficit covers its unserved visits, others overtake it at most once per turn, and the burst is counted |
| `BulkFairness.NoStarvation` | crates/agentd/lib/agent.rs:1335-1451 | for every quantum and burst maximum: a backlogged flow has gone unserved for fewer visits than the ceiling of burst over quantum, which is twelve at the agent's constants |
| `BulkFairness.OneTurnEach` | crates/agentd/lib/agent.rs:1335-1352 | between two visits to a live flow every other key is visited at most once |
| `BulkFairness.BurstBounded` | crates/agentd/lib/agent.rs:1354-1369 | no visit writes more than the burst maximum |
| `BulkShare.BoundedShare` | crates/agentd/lib/agent.rs:1335-1451 | from any point of any run a key writes at most its carried deficit plus the quanta of its visits, n shared visits at most n quanta more |
| `BulkWriter.Writer.ApplyCommand` | crates/agentd/lib/agent.rs:1503-1559 | the command's effect on all scheduler state and the acknowledgement it earns |
| `BulkWriter.Writer.Enqueue` | crates/agentd/lib/agent.rs:1590-1659 | queues, ignores or fails exactly as the model's offer, whose effect and errors `BulkIntake.IntakeIsExact` and `BulkIntake.IntakeFailsIff` state outright |
| `BulkWriter.Writer.CompleteCleanups` | crates/agentd/lib/agent.rs:1562-1588 | the loop forgets exactly the acknowledged owners and acknowledges in order |
| `BulkWriter.Writer.DrainCommands` | crates/agentd/lib/agent.rs:1312-1322 | the loop applies the whole command channel in order and collects each command's acknowledgement |
| `BulkWriter.Writer.DrainOutput` | crates/agentd/lib/agent.rs:1323-1332 | the loop offers the whole output channel in order, or fails at the first refused envelope |
| `BulkWriter.Writer.Drain` | crates/agentd/lib/agent.rs:1312-1333 | commands, then output, then acknowledgements: one event of the run, with exact acknowledgement values |
| `BulkWriter.Writer.WriteHead` | crates/agentd/lib/agent.rs:1371-1394 | takes the head off its flow and writes it as one complete record, charging deficit, queue and byte counter; it fails without an owner, before the write, or on counter overflow, after it |
| `BulkWriter.Writer.ReturnFlow` | crates/agentd/lib/agent.rs:1446-1450 | an empty flow disappears, a live one goes to the back of the list once |
| `BulkWriter.Writer.Visit` | crates/agentd/lib/agent.rs:1346-1450 | one turn is exactly one visit of the model: it begins with the visit of the head, alternates records and polls, and ends with leaving the flow or where the schedule ends; it fails only at a record or at the poll after one, on everything that had arrived |
| `BulkWriter.Writer.Round` | crates/agentd/lib/agent.rs:1335-1451 | one round makes as many visits as flows were active at its start, fewer only if parked or idle, and ends where the control flow is due to poll; an error is that of the event then due |
| `BulkWriter.Writer.TakeOne` | crates/agentd/lib/agent.rs:1300-1309 | an idle writer woken by output takes exactly one envelope by itself before it drains the channels; an error is the refusal of that envelope |
| `BulkWriter.Writer.Wake` | crates/agentd/lib/agent.rs:1286-1333 | waking takes what arrived and leaves the writer where the control flow starts a round or waits; an error is that of the poll then due |
| `BulkWriter.Writer.Rounds` | crates/agentd/lib/agent.rs:1335-1477 | rounds and polls alternate until nothing is left to write or the writer is parked; an error is that of the event then due |
| `BulkWriter.Writer.Task` | crates/agentd/lib/agent.rs:1285-1481 | the whole writer loop, for every schedule: its trace is a run of the model that follows the control flow, took every command and a prefix of the records in arrival order with the rest still queued, and acknowledged exactly what the run earns; it stops early only if the event due at its control point, made of exactly the messages that had arrived, fails in the model |
| `CheckpointCut.CutIsExactAndStable` | crates/agentd/lib/agent.rs:2667-2810 | in every disciplined run each Frozen reply names exactly the bytes and frames received on either lane up to it, and retries until the release name the same cut and bulk target |
| `CheckpointCut.NothingCrossesTheCut` | crates/agentd/lib/agent.rs:598-643 | in every disciplined run, from the capture to the thaw, neither the input position nor the bulk output moves |
| `CheckpointCut.RunKeepsCut` | crates/agentd/lib/agent.rs:598-634 | the invariant behind both: latch, parked flags, recorded cut and outstanding release agree in every disciplined run |
| `CheckpointReplies.CountersCountInput` | crates/agentd/lib/serial.rs:110-135 | in every run each of the four counters is the bytes, or the number, of the frames received on its own lane, and the bulk target the bytes the bulk writer wrote |
| `CheckpointReplies.FrozenNamesWhatWasReceived` | crates/agentd/lib/agent.rs:2667-2810 | in every run each Frozen report was made at an event of the run and names the bytes and frames received on either lane up to it, and the bulk bytes written |
| `CheckpointReplies.CapturesIff` | crates/agentd/lib/agent.rs:2667-2810 | a freeze captures iff no other cut is pending, the declared cut is what was received, the attempt is well formed, and the workload runs and can be frozen or is frozen by the same attempt at the same cut |
| `CheckpointReplies.FreezeWaitsIff` | crates/agentd/lib/agent.rs:2704-2725 | a freeze is left pending iff nothing conflicts, the control lane is exactly at the cut and the bulk lane has not passed it but has not reached it |
| `CheckpointReplies.FreezeIsAnsweredOrWaits` | crates/agentd/lib/agent.rs:2667-2810 | a freeze is answered exactly once, by Frozen or an error for its attempt, or waits short of its cut without an answer |
| `CheckpointReplies.AbandonedFreezeIsAnswered` | crates/agentd/lib/agent.rs:2828-2870 | a freeze given up while it waits is answered with an error before the Thawed that gives it up |
| `CheckpointReplies.ThawedReplyIff` | crates/agentd/lib/agent.rs:2811-2908 | a thaw is answered Thawed iff no other attempt's cut is pending and: it gives up its own cut that never completed, or it is the last attempt thawed, or the owner whose release succeeds |
| `CheckpointReplies.ThawIsRepeatable` | crates/agentd/lib/workload.rs:181-214 | after a successful thaw in any run, and any events without a new freeze, the same thaw is answered Thawed again |
| `CheckpointReplies.WorkloadStaysOwned` | crates/agentd/lib/workload.rs:129-214 | from any state in which an attempt owns the workload, frozen or to be recovered, it stays the owner over any events but its own successful thaw or its own retry that is undone |
| `CheckpointReplies.FreezeLatch` | crates/agentd/lib/workload.rs:129-162 | a freeze that reaches a running workload leaves it frozen, running again for that attempt, or to be recovered by it, as freezer, heartbeat and release succeed |
| `CheckpointReplies.ThawedWritersGo` | crates/agentd/lib/agent.rs:602-612 | after a successful thaw and any events up to the loop top, the loop top flushes the replies and lets both writers, input and executions go, unless it captures again |
| `CheckpointReplies.PendingFreezeIsRetried` | crates/agentd/lib/agent.rs:613-634 | a pending freeze survives a loop top exactly as long as bulk input is missing |
| `CheckpointReplies.PendingFreezeIsCaptured` | crates/agentd/lib/agent.rs:613-634 | and is captured there, with a report of its cut, iff the input stopped at the cut and the capture works |
| `CheckpointCut.FrozenReplyIff` | crates/agentd/lib/agent.rs:2667-2810 | Frozen is replied iff the declared cut equals the position and latch and heartbeat gate both hold |
| `CheckpointCut.OthersAreRefused` | crates/agentd/lib/agent.rs:2673-2703 | another attempt or another cut is answered with an error and changes nothing else |
| `CheckpointCut.RetryReportsTheSame` | crates/agentd/lib/agent.rs:2726-2805 | the owner's retry reports the recorded cut and bulk target again and moves nothing |
| `CheckpointCut.EagerFreezeBreaksTheCut` | crates/agentd/lib/agent.rs:602-612 | counterexample family: a capture before the outstanding release is unparked by it and input moves past the cut |
| `CheckpointCut.EagerFreezeIsPossible` | crates/agentd/lib/agent.rs:2811-2908 | such a state is reached by freeze, flush, thaw |
| `CheckpointCut.CutSurvivesLoopTopIff` | crates/agentd/lib/agent.rs:602-612 | a capture stays parked over the loop top iff no release is outstanding |
| `CheckpointRestore.RestoredAtMostOnce` | crates/agentd/lib/agent.rs:2871-2881 | in every run each fresh freeze is followed by at most one detachment of clients |
| `CheckpointRestore.RestoreDetachesIff` | crates/agentd/lib/agent.rs:2871-2881 | and in every run a restore by the owner of the freeze detaches the clients iff none did since that freeze and no other attempt's cut is pending, also when the attempt's name was used before |
| `CheckpointRestore.DetachOverwritesNothing` | crates/agentd/lib/agent.rs:2464-2484 | in every run a detachment keeps all sessions detached before and loses no live one |
| `CheckpointRestore.RetriesSpareClients` | crates/agentd/lib/agent.rs:2871-2881 | after a restore and any events until a fresh capture, a retry leaves the clients it meets, their sessions and everything set aside untouched, and the generation has advanced once |
| `CheckpointRestore.ThawOfUncutRefusesRestore` | crates/agentd/lib/agent.rs:2815-2870 | restoring a cut that never completed is refused and changes only the reply; a plain thaw gives it up |
| `CheckpointRestore.AbandonedIsNeverRestored` | crates/agentd/lib/agent.rs:2828-2881 | an abandoned attempt never detaches clients, whatever other attempts do, until it freezes again |
| `CheckpointExits.ExitsEndTheirOwn` | crates/agentd/lib/agent.rs:2512-2569 | in every run that reuses no correlation early, an exit report, however late and across departures, recycled ranges and restores, ends its own execution and leaves every other entry unchanged |
| `CheckpointExits.RunKeeps` | crates/agentd/lib/agent.rs:2408-2569 | the invariant behind it: every entry carries its execution's stamp, and the pending report of an execution finds its own entry or none |
| `CheckpointExits.OldExitsSpareCurrentSessions` | crates/agentd/lib/agent.rs:2512-2526 | any number of inherited exits, from any state, removes exactly the detached entries they name and touches no current session or lease |
| `CheckpointExits.NewcomerIsDisplacedIff` | crates/agentd/lib/agent.rs:2512-2526 | in every run a spawned and then inherited execution can lose its entry to another's report iff its correlation was not fresh when it was spawned |
| `CheckpointExits.RecycledRangeExposes` | crates/agentd/lib/agent.rs:2383-2434 | such a spawn is reached by a client that spawns and departs and a second client on its range |
| `CheckpointRecycling.RecycledRangesAreSafe` | crates/agentd/lib/agent.rs:2512-2550 | in every run without a clash, whatever ranges were recycled to new owners while executions of the old ones still ran: the exit of an execution of the present generation ends its own session, or keeps it while output is unread, and changes nothing else |
| `CheckpointRecycling.ExitsStaySafeIff` | crates/agentd/lib/agent.rs:1129-1139 | exactly when: after such a run one more event leaves every exit of the generation safe iff it spawns no correlation that a live report names and brings no client back to one in use by another |
| `CheckpointRecycling.StampsRememberSpawns` | crates/agentd/lib/session.rs:471-484 | in every run each execution carries the generation and the owner of the moment it was spawned |
| `CheckpointRecycling.DepartedOwnersExitsAreIgnored` | crates/agentd/lib/agent.rs:1129-1139 | in every run the exit of an execution whose owner has since lost its range touches no table |
| `CheckpointRecycling.WaitingExitLeavesOnAck` | crates/agentd/lib/agent.rs:2552-2569 | in every run without a clash a session whose exit waits is ended by the acknowledgement of everything sent and by no earlier one |
| `CheckpointRecycling.RunningSessionsStay` | crates/agentd/lib/agent.rs:2408-2569 | the session of a running execution is ended or replaced only by a live exit under its correlation, the departure of its owner, a new spawn of the correlation or a restore; an acknowledgement never ends it |
| `CheckpointActor.WorkloadLatch.Freeze` | crates/agentd/lib/workload.rs:129-162 | idempotent for the owner, refused to others, ownership kept when the freezer write fails |
| `CheckpointActor.WorkloadLatch.Thaw` | crates/agentd/lib/workload.rs:181-214 | repeatable for the last attempt, otherwise only the owner's; a failed release stays owned |
| `CheckpointActor.KeepLive` | crates/agentd/lib/agent.rs:2469-2483 | the loop keeps exactly the sessions still running, keyed by the generation that ends |
| `CheckpointActor.ClientTable.RestoreClientState` | crates/agentd/lib/agent.rs:2464-2509 | sessions move to the detached table, leases are cleared, the generation advances |
| `CheckpointActor.ClientTable.Exited` | crates/agentd/lib/agent.rs:2512-2550 | an inherited exit touches only the detached table, one of a departed owner nothing, and a current one ends its session or retains it while output is unread |
| `CheckpointActor.ClientTable.Acknowledged` | crates/agentd/lib/agent.rs:2552-2569 | an acknowledgement ends a retained session iff its exit was reported and everything is read |
| `CheckpointActor.ClientTable.Connected` | crates/agentd/lib/agent.rs:2383-2406 | a lease is taken iff the range is canonical, the incarnation nonzero and the slot free or already its own |
| `CheckpointActor.ClientTable.Departed` | crates/agentd/lib/agent.rs:2408-2434 | a departure of the current owner removes its lease and the sessions of its range, a stale one nothing, and a bound range without incarnation is refused |
| `CheckpointActor.KeepOutside` | crates/agentd/lib/agent.rs:2436-2445 | the loop keeps exactly the sessions outside the range |
| `CheckpointActor.Actor.ReceiveFrame` | crates/agentd/lib/agent.rs:1010-1022 | ordinary input advances its own lane's counters, which by `CheckpointReplies.CountersCountInput` count what was received; it is refused, which ends the agent, once parked or beyond the credit |
| `CheckpointActor.Actor.HandleFreeze` | crates/agentd/lib/agent.rs:2667-2810 | the freeze arm, branch by branch, is the model's freeze |
| `CheckpointActor.Actor.HandleThaw` | crates/agentd/lib/agent.rs:2811-2908 | the thaw arm, branch by branch, is the model's thaw |
| `CheckpointActor.Actor.FinishBatch` | crates/agentd/lib/agent.rs:1096-1108 | the replies of a batch are flushed, and after a thaw nothing more is decoded before the loop top |
| `CheckpointActor.Actor.OuterLoopTop` | crates/agentd/lib/agent.rs:602-634 | release of a flushed thaw and retry of a pending freeze are the model's loop top |
| `TransferRun.RunKeeps` | crates/agentd/lib/agent.rs:1916-2183 | in every interleaving: stored ++ waiting is what the host delivered, the finish is in one place, and only a failing disk breaks the transfer |
| `TransferRun.FinishIsLastAndOnce` | crates/agentd/lib/agent.rs:1929-2054 | the destination always holds a prefix of the data; a finish appears once, last, and only after every byte |
| `TransferProgress.EveryQuietRunIsComplete` | crates/agentd/lib/fs.rs:485-503 | confluence, for every receiver the agent builds: every run in which no healthy step changes anything handed over all records, stored exactly their bytes in order and then finished |
| `TransferProgress.QuietRunsCompleteOrStall` | crates/agentd/lib/agent.rs:1916-2183 | for any receiver at all such a run is complete or waits for credit |
| `TransferProgress.EveryQuietSendableRunIsComplete` | crates/agentd/lib/agent.rs:1916-2183 | the same for any receiver and records of at most half its window and one byte |
| `TransferProgress.QuietIffStalled` | crates/protocol/lib/bulk.rs:553-606 | a transfer under way has no step left iff its worker is idle and the next record exceeds the credit granted |
| `TransferProgress.SendableNeverStalls` | crates/protocol/lib/bulk.rs:582-606 | records of at most half a window and one byte always fit the credit the worker grants |
| `TransferProgress.CanStallIff` | crates/protocol/lib/bulk.rs:516-606 | a fresh receiver that granted its window can come to rest before completion iff its record limit exceeds half the window and one byte, which 3 MiB records never do in the 8 MiB window the agent grants |
| `TransferProgress.BusyStepsBounded` | crates/agentd/lib/agent.rs:1916-2054 | no schedule takes more than 2n + 4 effective steps for n records |
| `TransferIntegrity.OutstandingWithinWindow` | crates/protocol/lib/bulk.rs:582-606 | in every open run the credit limit is at most the bytes stored plus the window, it is the initial grant or a whole window past an earlier batch, and the bytes handed over and not yet stored never exceed the window |
| `TransferIntegrity.CreditMovesLazily` | crates/protocol/lib/bulk.rs:582-606 | a stored batch moves the limit iff at most half a window is left of it, and then to a whole window past the batch |
| `TransferIntegrity.BatchIsAdmittedIff` | crates/protocol/lib/bulk.rs:553-579 | a batch is admitted iff its records are nonempty, within the record limit and follow one another from the position on, and end within the credit, the agreed length and the counter; it then moves the position by its bytes |
| `TransferIntegrity.NothingIsMisplaced` | crates/protocol/lib/bulk.rs:553-579 | whatever a host sends, in any order and with any offsets: every stored byte was sent for the place it is stored at, none lies beyond the credit granted or the length agreed on, and a finish is last, once, after a flush, and over exactly the announced and expected bytes |
| `TransferIntegrity.RecordIsQueuedIff` | crates/agentd/lib/agent.rs:2076-2150 | a record is queued iff the transfer is open, its queue has a place and its end can be counted; an end beyond the counter ends the agent |
| `TransferIntegrity.FinishWaitsOrPassesIff` | crates/agentd/lib/agent.rs:3146-3171 | a finish cancels an open transfer iff its data is missing and another finish waits, or its data is there and another was passed on; otherwise it waits or is passed on accordingly |
| `TransferRun.AcceptsStretch` | crates/protocol/lib/bulk.rs:553-579 | the receiver admits every in-order stretch within credit and ends at its last byte |
| `TransferRun.ConsumeKeeps` | crates/protocol/lib/bulk.rs:582-606 | consuming sets the limit a whole window past the batch iff at most half a window was left, and otherwise leaves it; it never lowers it nor loses the position, and it stays within a window of what is stored |
| `TransferWorker.JoinedFills` | crates/agentd/lib/agent.rs:1991-2009 | a coalesced batch stays within the limit and the next visible record would not have fitted |
| `TransferWorker.Coalesce` | crates/agentd/lib/agent.rs:1980-2009 | the loop splits the queue into batch, held record and rest without losing or reordering any |
| `TransferWorker.Admit` | crates/agentd/lib/fs.rs:626-656 | the loop admits a batch record by record, or refuses it at the first bad one |
| `TransferWorker.Advance` | crates/agentd/lib/fs.rs:718-731 | the cursor loop moves by exactly the bytes written, over whole records first |
| `TransferWorker.WriteVectored` | crates/agentd/lib/fs.rs:688-734 | for every sequence of kernel answers the file receives exactly the bytes the kernel took of the concatenated payloads, and succeeds iff it took all |
| `TransferWorker.WillingKernelCompletes` | crates/agentd/lib/fs.rs:688-734 | a kernel that always takes something completes every write |
| `TransferWorker.ServeIsExact` | crates/agentd/lib/fs.rs:688-734 | in closed form: a write succeeds once the kernel's answers add up to it, and otherwise stores what it took before the first error or zero |
| `TransferWorker.FsWrite.HandleRecord` | crates/agentd/lib/agent.rs:2076-2150 | queueing a record, releasing a finish that waited for it, and every error path |
| `TransferWorker.FsWrite.HandleFinish` | crates/agentd/lib/agent.rs:3146-3171 | a finish ahead of its data waits, a duplicate cancels, otherwise it goes to the worker |
| `TransferWorker.FsWrite.DispatchFinish` | crates/agentd/lib/agent.rs:2154-2183 | the finish takes the dedicated slot and the receive state is cleared |
| `TransferWorker.FsWrite.StoreBatch` | crates/agentd/lib/agent.rs:2011-2054 | admit, write, consume and a due finish, with how far a failing disk got |
| `TransferWorker.FsWrite.Complete` | crates/agentd/lib/fs.rs:737-771 | the finish is accepted only at the exact offset and announced length, and if the flush succeeds |
| `TransferWorker.FsWrite.Turn` | crates/agentd/lib/agent.rs:1929-2054 | one iteration of the worker's loop, for any visible part of its queues |
| `AdmissionOrder.EveryRecordHasOneFate` | crates/agentd/lib/agent.rs:799-877 | in every run each decoded record is delivered, dropped as stale or deferred: exactly one of these, once |
| `AdmissionOrder.DeliveryIsInOrder` | crates/agentd/lib/agent.rs:723-877 | in every run records reach destinations in decoding order and everything deferred comes after them |
| `AdmissionOrder.OnlyOwnersDeliver` | crates/agentd/lib/agent.rs:2342-2360 | in every run a record is delivered iff its incarnation owned its slot at the check, and dropped otherwise |
| `AdmissionOrder.GrantAlwaysDelivers` | crates/agentd/lib/agent.rs:644-656 | after the retain at the loop top a granted permit always delivers the first deferred record |
| `AdmissionOrder.BudgetAndCreditAreConserved` | crates/agentd/lib/serial.rs:93-180 | in every run free budget plus live records is the capacity, and credit granted is the initial grant plus everything no longer held, never behind the position |
| `AdmissionOrder.HeldWithinGrant` | crates/agentd/lib/serial.rs:93-180 | so the agent never holds more frames or wire bytes than the initial grant, records and other charged messages together, until a counter overflows |
| `AdmissionOrder.QueuesNeverOverflow` | crates/agentd/lib/agent.rs:1872-1892 | in every run the records of one transfer held by the agent are fewer than its queue has places, so a full queue never cancels it |
| `AdmissionOrder.RestoreCutsInput` | crates/agentd/lib/agent.rs:2464-2486 | after a restore, from any state and for any events until a client connects again, no record is delivered |
| `AdmissionIntake.FramesAreWhatWasRead` | crates/agentd/lib/agent.rs:824-877 | in every run every frame delivered, dropped, deferred or live has the id, incarnation and length of the record read at its place, and the owners are those the connects and disconnects leave |
| `AdmissionIntake.FatesFollowTheLeases` | crates/agentd/lib/agent.rs:2342-2360 | in every run each record settled by an event is delivered iff its sender then held the lease on its slot |
| `AdmissionIntake.ReadTurnIsExact` | crates/agentd/lib/agent.rs:824-877 | a read turn is fatal iff some record exceeds the credit left by the records before it or names another client's slot for a live client; otherwise stale ones are dropped, those up to the first that exceeds the budget delivered, the rest deferred, and credit and budget move by exactly these |
| `Admission.InputWindow.Admit` | crates/agentd/lib/serial.rs:93-141 | a frame is charged iff both counters stay within credit; a refusal moves nothing |
| `Admission.InputWindow.Release` | crates/agentd/lib/serial.rs:150-180 | dropping a charge extends the credit, or stops the lane on overflow |
| `Admission.BulkInput.Establish` | crates/agentd/lib/agent.rs:2383-2406 | a lease is taken iff the range is canonical, the incarnation nonzero and the slot free or already its own |
| `Admission.BulkInput.Leave` | crates/agentd/lib/agent.rs:2409-2425 | a stale disconnect is ignored, a bound range without incarnation is refused |
| `Admission.BulkInput.DetachAll` | crates/agentd/lib/agent.rs:2486-2486 | a restore ends every lease and touches nothing else |
| `Admission.BulkInput.RetainPending` | crates/agentd/lib/agent.rs:644-649 | the loop keeps exactly the deferred records whose owner is current, in order |
| `Admission.BulkInput.Receive` | crates/agentd/lib/agent.rs:828-877 | charge, spoof check, stale drop, deferral behind an earlier deferral, delivery, of exactly the record read (`AdmissionIntake.ReadTurnIsExact`) |
| `Admission.BulkInput.ReadAll` | crates/agentd/lib/agent.rs:824-877 | the turn's loop is the model's turn, or ends at the first fatal record |
| `Admission.BulkInput.AcceptPermit` | crates/agentd/lib/agent.rs:723-762 | the permit branch checks ownership again before delivering |
| `Admission.BulkInput.ReceiveOther` | crates/agentd/lib/agent.rs:1010-1022 | a stdin or inline message is charged to the lane iff both counters stay within credit |
| `ExecOutput.WindowIsConserved` | crates/agentd/lib/exec_output.rs:59-104 | for every interleaving of reader and agent: available + held permits + (sent - consumed) is the configured window |
| `ExecOutput.AcknowledgementsCannotBeForged` | crates/agentd/lib/exec_output.rs:78-91 | forged and backward acknowledgements change nothing, replays return nothing, capacity never exceeds the window |
| `ExecOutput.AcknowledgementsAccumulate` | crates/agentd/lib/exec_output.rs:78-91 | two acknowledgements return together what the larger one covers, in either order |
| `ExecOutput.DetachedIsNeverCharged` | crates/agentd/lib/exec_output.rs:94-98 | after a restore detached the window no permit is granted in any run, and what is free only grows |
| `ExecOutput.AtMostOneExitFrame` | crates/agentd/lib/agent.rs:2533-2569 | in every run an execution emits at most one exit frame, a windowed one only when drained; `ExecExits.ReportedExitsArrive` says when it does |
| `ExecOutput.NoExitIsStranded` | crates/agentd/lib/session.rs:745-760 | in every run an exit is retained only while unacknowledged output remains to trigger it |
| `ExecOutput.DrainEmitsTheExit` | crates/agentd/lib/agent.rs:3026-3039 | acknowledging everything sent emits the retained exit at once |
| `ExecOutput.WindowFollowsItsSteps` | crates/agentd/lib/exec_output.rs:59-91 | in every interleaving what was permitted is held or sent, and what counts as consumed is an offset the host acknowledged |
| `ExecOutput.WindowIsUsableIff` | crates/agentd/lib/exec_output.rs:40-56 | a window is accepted iff some output would fit it |
| `ExecOutput.ReadWindowAdmits` | crates/agentd/lib/exec_output.rs:59-66 | in every interleaving an open window with nothing held and everything sent acknowledged admits exactly the chunks that fit it at all |
| `ExecExits.ReportedExitsArrive` | crates/agentd/lib/agent.rs:2533-2569 | in every run an execution that was spawned and not removed has, once it reported, exactly one exit frame with a code it reported, or is kept with its last code and unread output; before that it has no frame |
| `ExecExits.ReadOutputAnnouncesAtOnce` | crates/agentd/lib/session.rs:745-760 | the report of an execution without a window, or with all output read, is followed at once by its frame with that code |
| `ExecExits.LastAckAnnounces` | crates/agentd/lib/agent.rs:3026-3039 | a retained exit is announced, with its code, by the acknowledgement of everything sent |
| `ExecOutput.OutputWindow.Acquire` | crates/agentd/lib/exec_output.rs:59-66 | a permit is granted iff the window is open and holds the charge; a closed window refuses, and a detached one lets the reader go on without a charge |
| `ExecOutput.OutputWindow.Publish` | crates/agentd/lib/exec_output.rs:67-75 | committing counts the charge as sent, or returns the permit when the offset would overflow |
| `ExecOutput.OutputWindow.Accept` | crates/agentd/lib/exec_output.rs:78-91 | an acknowledgement between consumed and sent returns exactly the difference, any other is refused |
| `HeartbeatGate.NoWriteWhileHeld` | crates/agentd/lib/heartbeat.rs:46-96 | after any history, from a successful pause until a resume or a failed removal, however often the agent pauses again, no write is in progress or starts and the temporary file is absent |
| `HeartbeatGate.HeldGateReopensIff` | crates/agentd/lib/heartbeat.rs:46-83 | the first step after a successful pause that lets the next write in is exactly a resume or a removal that fails |
| `HeartbeatGate.FailedRetryReopens` | crates/agentd/lib/heartbeat.rs:57-66 | from every held gate a repeated pause whose removal fails ends with a write under way and no resume |
| `HeartbeatGate.PauseHoldsOrReopens` | crates/agentd/lib/heartbeat.rs:46-66 | a pause ends holding a clean gate or with writers admitted again |
| `HeartbeatGate.WaitIsBounded` | crates/agentd/lib/heartbeat.rs:46-54 | while the agent waits the writer can only finish, each move closer |
| `HeartbeatGate.HeartbeatControl.PauseWrites` | crates/agentd/lib/heartbeat.rs:46-66 | the wait loop ends for any answers of the file system; the steps taken are the pause, exactly what those answers make the writer do, and the removal, and the result is that of the removal |
| `HeartbeatGate.HeartbeatControl.BeginWrite` | crates/agentd/lib/heartbeat.rs:76-83 | a write is entered iff the gate is open |
| `HeartbeatGate.HeartbeatControl.WriterMove` | crates/agentd/lib/heartbeat.rs:107-114 | one step of the writer, create, rename or leave, exactly as the file system's answer dictates |
| `Mounts.ResolveMountpoints` | crates/agentd/lib/mount_checkpoint.rs:76-143 | succeeds iff selectors, every line and every mountpoint that matters are readable and nothing is missing; the result is sorted, duplicate-free and exactly the requested paths plus the first mountpoint of each requested tag; the absence error names exactly what is missing |
| `Mounts.ParseSelectors` | crates/agentd/lib/mount_checkpoint.rs:77-91 | splits selectors into tags and paths, refusing a relative path, a NUL or a dot component |
| `MountPaths.DecodeMountpoint` | crates/agentd/lib/mount_checkpoint.rs:145-170 | the loop decodes octal escapes with all three error cases |
| `MountPaths.DecodeUndoesEncode` | crates/agentd/lib/mount_checkpoint.rs:145-170 | decoding undoes escaping of every byte string, for every set of escaped bytes that includes the backslash |
| `MountPaths.UnescapedBackslashIsMisread` | crates/agentd/lib/mount_checkpoint.rs:145-170 | and for every set that does not, some string is not recovered |
| `ByteOrder.Insert` | crates/agentd/lib/mount_checkpoint.rs:92-122 | inserting into the ordered set keeps it strictly sorted and adds exactly the element |
| `Publication.PublicationClosure` | scripts/ci/publish-crates.py:59-107 | the selection is exactly what is reachable from the roots; it fails iff a root is unknown or a reachable crate is private |
| `Publication.Collect` | scripts/ci/publish-crates.py:91-101 | the worklist ends and finds every reachable crate, or a reachable private one |
| `PublicationWaves.DependencyWaves` | scripts/ci/publish-crates.py:110-125 | the waves exhaust the crates; in a closed graph the error is raised iff there is a cycle, and names crates with endless chains |
| `PublicationWaves.WaveIsLongestChain` | scripts/ci/publish-crates.py:110-125 | a crate is in wave k iff its longest dependency chain has k steps |
| `PublicationWaves.EachCrateInOneWave` | scripts/ci/publish-crates.py:110-125 | the waves partition the crates |
| `PublicationWaves.WavesAreEarliest` | scripts/ci/publish-crates.py:110-125 | dependencies are in earlier waves, and no valid layering places a crate earlier |
| `PublicationWaves.BlockedMeansCycle` | scripts/ci/publish-crates.py:118-121 | crates that all wait for one another contain a cycle (pigeonhole) |
| `PublicationOrder.Publish` | scripts/ci/publish-crates.py:254-285 | nothing is packaged or uploaded before all its dependencies are visible, wherever the release stops; it succeeds iff no crate differs and no wave that uploads is indexed late; then every crate was packaged once, and uploaded once iff it was missing; otherwise all waves before the first hindered one are published, that one is packaged and uploaded up to its first differing crate or wholly, and nothing beyond it was touched |
| `PublicationOrder.UploadWave` | scripts/ci/publish-crates.py:268-282 | succeeds iff no crate of the wave differs, uploading exactly the missing ones once; otherwise it stops at the first that differs, with exactly the missing ones before it uploaded |
| `PublicationOrder.PublishWave` | scripts/ci/publish-crates.py:254-285 | one wave after the earlier ones: packaged, uploaded and visible, or stopped exactly at its first differing crate or at late indexing, with what was done until then |
| `SchemaRefs.CollectRefs` | scripts/sync-docs-openapi.py:360-369 | adds exactly the schemas referred to at some position at or below the node |
| `SchemaRefs.Close` | scripts/sync-docs-openapi.py:441-453 | the loop ends with the least set that covers the paths and is closed under schema references |
| `SchemaRefs.Select` | scripts/sync-docs-openapi.py:441-484 | fails iff the closure names an absent schema, naming them; otherwise publishes exactly the closure, each schema as given but for the rewritten image, and every reference names a published component |
| `SchemaRefs.RewriteKeepsClosed` | scripts/sync-docs-openapi.py:462-468 | pointing the sandbox image at the injected schema keeps the published set closed |
| `SchemaRefs.RewriteChangesOnlyTheImage` | scripts/sync-docs-openapi.py:462-468 | the rewrite points the image property at the injected schema and leaves every other member and property alone |
| `StdinTurns.Poller.Poll` | crates/agentd/lib/agent.rs:3560-3592 | the two passes serve the first ready session going round from the cursor, none only if none is ready |
| `StdinTurns.PassedOverAtMostDistance` | crates/agentd/lib/agent.rs:3560-3592 | a session that stays ready is passed over at most its cyclic distance from the cursor |
| `StdinTurns.ServedWithinOneRound` | crates/agentd/lib/agent.rs:3560-3592 | among n successful polls of n sessions one that stays ready is served |
| `RecordWrite.WriteParts` | crates/agentd/lib/agent.rs:4275-4312 | for every sequence of answers the descriptor receives exactly the bytes the answers took of header ++ payload, with the outcome a single stream would have |
| `RecordWrite.PositiveAnswersComplete` | crates/agentd/lib/agent.rs:4275-4312 | enough positive answers complete the write |
| `RecordWrite.CursorsFollow` | crates/agentd/lib/agent.rs:4303-4309 | the two cursors always say how much of header and payload was received |
| `RecordWrite.ServeIsExact` | crates/agentd/lib/agent.rs:4275-4312 | in closed form: a write completes once the answers add up to it, and otherwise stops at the first refusal or zero, or at the last answer, with the bytes taken before it |

## Left out

- Encodings: CBOR messages, frame headers and sockets appear only as lengths, ids, offsets and payloads.
- Operating-system calls: descriptors, polling, processes, signals, cgroup and file-system calls are
  parameters that succeed or fail.
- Wall-clock behaviour: timeouts, credit deadlines and publish intervals; activity and heartbeat counters.
- The combined single-port mode of the agent, where bulk frames share the primary lane.
- TCP destinations: the receive path is modelled for filesystem writes; a TCP session queues records and
  finish in one channel.
- Flow kind and direction checks of a record, and messages for correlations that were never opened.
- A worker entry that is still registered between its completion and the agent's handling of it: the model
  unregisters it at once, which only changes how a late duplicate is refused.
- The seek before each coalesced write and the saturating file offset: the destination is an append-only log.
- Credit messages sent to the host: the model keeps the granted limits, not the batching of their announcements.
- Mount table text: lines are given already split at the separator and white space; the wording of errors.
- The order of component names in the published OpenAPI document, operation filtering, summaries and tags.
- Reading manifests: dependency edges are given, already restricted to workspace crates and retained dev dependencies.
- Registry checksums, retries and sleeps of the publisher, beyond whether content exists, differs or is indexed in time.
- The SDKs, the command line tool, the filesystem and network crates, and the host side of the relay.
- BulkWriter.Writer.Task: writes to the port succeed; what a failing one has stored is the subject of
  `RecordWrite`.
- CheckpointActor.ClientTable.RestoreClientState: does not model the read, write and TCP tables it also
  clears, nor the timeout of the bulk writer's barrier.
- CheckpointActor.ClientTable.Exited: whether unread output remains is a parameter; the windows that decide
  it are the subject of `ExecOutput`.
- CheckpointActor.Actor.ReceiveFrame: whether the transport credit covers the frame is a parameter; the
  ledger that decides it is the subject of `Admission`.
- CheckpointExits.ExitsEndTheirOwn: the limit on concurrent executions is not modelled; a refused spawn is no event.
- Admission.BulkInput.Leave: does not model the sessions of the range, which
  `CheckpointActor.ClientTable.Departed` cleans up, nor the drop sent to the bulk scheduler, whose effect is
  the subject of `BulkCuts`.
- SchemaRefs.Select: requires that the injected image schema has no references, as the constant in the script has none.
