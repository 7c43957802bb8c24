# buzz-acp, modelled and proved in Dafny

This project models the agent harness `buzz-acp`: the loop that talks to one agent over
JSON-RPC while the user may steer it mid-turn, the main loop that owns a pool of agents and
their restarts, the observer pipeline that publishes telemetry to a relay, and the rules that
decide which events reach an agent. Two small codecs of the same repository are included: the
RESP client of the relay load test and the audio worklet of the desktop app.

Verify everything with `dafny verify dfyconfig.toml`.

## How the model is built

* Code that computes is functions on values. Code that changes state is a class or a method with
  a loop, proved equal to a function of the old state; what the program promises is then proved
  about that function, for all inputs and over all runs.
* Time is a natural number in milliseconds (seconds where the source counts seconds). Clock
  readings, lines read, writes that succeed or fail, and timers that fire are inputs: a run is a
  sequence of such inputs, and every lemma about runs holds for all sequences.
* `select!` is modelled by its documented bias; a `?` return, a dropped future and a panic are
  separate outcomes. A dropped oneshot is an outcome of its own (`Dropped`).
* Text that is measured in bytes is a sequence of bytes, with well-formedness after RFC 3629.

## Modules

| file | component |
|---|---|
| ReadLoop, ReadLoopDeadlines, ReadLoopSteers, ReadLoopAnswers, Session, SessionReports, PlainRequests, Permissions, AcpClient | the read loop of one agent, its deadlines, steers and answers, prompts, other requests, cancellation and permission requests |
| EventQueue, SteerSystem, SteerOutcomes | withheld events, the ack arm, and the whole steering protocol of a channel |
| SlotCircuit, CircuitLaws, AgentSlots, AgentFates, SlotHarness | circuit breaker, slot ownership, the fate of each agent, respawn guard and channel |
| ObserverBus, ObserverLoss, Coalescer, CoalescerProperties, CoalescerKeys, Pacer, Trimmer, TrimmerProperties, Publisher, OversizedChunk | the observer pipeline, stage by stage and composed |
| Json, JsonStrings, ObserverEvent, Utf8, Utf8Encoding, Decimal | serialized length of JSON and events, UTF-8 and its cuts, decimal numerals |
| Membership | membership notifications |
| PoolLifecycle | starting the pool lazily |
| ConfigMerge, ConfigSources | the merge of `CODEX_CONFIG` objects and which source each value comes from |
| Rules, Subscriptions, RuleMatch | rules, the subscriptions made from them, and matching |
| Resp, RespReplies | Redis protocol |
| Worklet | audio framing |

## Where the code and its comments disagree

The model follows the code in each case.

* A steer that is in flight is not acked on every return path. The two `?` returns at
  `crates/buzz-acp/src/acp.rs:1668` and `crates/buzz-acp/src/acp.rs:1682` drop its oneshot;
  `ReadLoopSteers.UnackedExits` says exactly when. The main loop turns the drop into a release, so
  nothing is lost (`SteerSystem.NothingStaysWithheld`).
* The comments at `crates/buzz-acp/src/lib.rs:644-647` and `crates/buzz-acp/src/lib.rs:671-673` say
  that an elided leaf is never elided again and that the loop is bounded by the number of leaves.
  A marker whose count has three digits is itself longer than the marker that replaces it.
  `TrimmerProperties.ElidedAgainExactly` gives the exact condition and
  `TrimmerProperties.PlainLeafElidedTwice` the common case, every plain leaf of 6100 bytes or more.
  The loop still ends, because the serialized length falls (`Trimmer.ShrinkShortens`).
* The comment at `crates/buzz-acp/src/lib.rs:419-422` says that no event is lost because the
  subscription precedes the snapshot. With several emitters there are two ways to lose one.
  An event numbered before the snapshot's highest but buffered after the snapshot is skipped
  (`ObserverBus.LateBufferIsLost`). So is one that was buffered in time, pushed out of the replay
  buffer by a thousand others before the snapshot, and broadcast late (`ObserverLoss.LateSendIsLost`).
  `ObserverBus.FedExactly` says which events are fed in any run. If numbering and buffering were one
  step, only the second way would be left, with the exact bound of `ObserverLoss.AtomicLossExactly`;
  if moreover every event is broadcast before a thousand others are buffered after it, nothing
  broadcast after the snapshot is lost (`ObserverLoss.NothingLateIsLost`).
* The comment at `crates/buzz-acp/src/lib.rs:537-542` keeps the coalescer's limit below the plaintext
  cap, but the limit counts raw bytes and the cap serialized ones. A chunk under the limit can be
  over the cap and is then published with its middle elided (`OversizedChunk.QuotesAreElided`).

One more place where two parts of the code read the same value differently, though no comment says
otherwise:

* For an empty kinds override, matching reads the list as a wildcard and the subscription as no kind
  at all (`Subscriptions.OtherModesSoundExactly`). The command line does not produce an empty list;
  a hand-built `Config` can.

## Model

| member | source | states |
|---|---|---|
| ReadLoopDeadlines.IterationDeadlines | crates/buzz-acp/src/acp.rs:1307-1345 | idle deadline is always last activity plus idle timeout; only a parsed line moves it; the hard deadline never moves back and moves only on an in-place steer success |
| ReadLoopDeadlines.TimeoutsAreDue | crates/buzz-acp/src/acp.rs:1450-1466 | a timeout is reported only at or after its own deadline, which was the earlier one |
| ReadLoopDeadlines.IterationSuccesses | crates/buzz-acp/src/acp.rs:1534-1651 | the number of recorded successes grows by one exactly when a delivering answer to the steer in flight is read |
| ReadLoopDeadlines.HardDeadlineBound | crates/buzz-acp/src/acp.rs:1578-1606 | over any run with N successes the hard deadline is at least the first one and at most N budgets plus pick-up slack later |
| ReadLoopDeadlines.NeverSilentAgentIsStopped | crates/buzz-acp/src/acp.rs:1307-1345 | whatever the agent streams, the loop has stopped by the first check at or after the initial hard deadline plus one budget per request held or offered |
| ReadLoopDeadlines.StoppedStaysStopped | crates/buzz-acp/src/acp.rs:1278-1345 | nothing changes after the loop has returned |
| ReadLoopSteers.RunHolds | crates/buzz-acp/src/acp.rs:1365-1447 | over any run, in flight plus queued plus settled requests are, as a multiset, those held at the start plus those taken |
| ReadLoopSteers.EveryRequestSettledOnce | crates/buzz-acp/src/acp.rs:1288-1691 | when a turn is over, however it ended, the settled requests are exactly those it was given, each as often as given |
| ReadLoopSteers.UnackedExits | crates/buzz-acp/src/acp.rs:1655-1690 | a stopping iteration settles the steer in flight by dropping it exactly on the two `?` returns and by a neutral ack otherwise |
| ReadLoopSteers.SteersAreSound | crates/buzz-acp/src/acp.rs:1365-1447 | in every run steer ids are fresh, increasing and above the awaited id, one steer is answered before the next is written, the extension method is written only if advertised, and every success is backed by its own answer |
| ReadLoopSteers.SuccessMeansDelivered | crates/buzz-acp/src/acp.rs:1534-1651 | a success is reported only for a request that was written and whose own answer, read later, is positive and on the extension transport `injected` or `startedNewTurn` |
| Session.PromptLifecycle | crates/buzz-acp/src/acp.rs:747-808 | after a prompt its id is remembered, with a deadline no earlier than its own, exactly when it timed out or its future was dropped; otherwise both are cleared |
| Session.TurnSettlesEveryRequest | crates/buzz-acp/src/acp.rs:880-903 | a turn and the clearing of its receiver together settle every request exactly once, also when the prompt could not be written |
| Session.CancelConsumesPrompt | crates/buzz-acp/src/acp.rs:977-1025 | cancelling clears the remembered prompt; without one it fails and neither writes nor changes anything |
| Session.CleanupGetsItsGrace | crates/buzz-acp/src/acp.rs:917-952 | plain cleanup reports no timeout before thirty seconds have passed, however late the turn already is |
| Session.GraceNeverHardTimeout | crates/buzz-acp/src/acp.rs:961-975 | the grace variant never reports a hard timeout, and no timeout at all inside its grace |
| Permissions.NeverAnsweredTwice | crates/buzz-acp/src/acp.rs:1865-1940 | over any sequence of prompts, other requests and cancellations a stored permission id means not yet answered, and at no point of the record have more answers been completed for an id than requests with it were read |
| ReadLoopAnswers.UnknownRequestsAreRefused | crates/buzz-acp/src/acp.rs:1669-1682 | over every run of the loop, per id, the requests with an unknown method read and the method-not-found errors written grow alike; only the last message read can be unanswered, when writing its refusal failed and ended the loop |
| ReadLoopAnswers.PlainReaderRefuses | crates/buzz-acp/src/acp.rs:1226-1241 | the same for the plain reader |
| ReadLoopAnswers.ChoiceSelects | crates/buzz-acp/src/acp.rs:1888-1917 | the first allow_once option is selected whatever else is offered; the first reject_once, by its id or as `reject`, exactly when there is no allow_once; nothing without either, or for an allow_once without an id |
| ReadLoopAnswers.PermissionRequestsAreAnswered | crates/buzz-acp/src/acp.rs:1865-1940 | every permission request the loop reads is answered under its own id with the selected option and is then no longer pending; with no option to select, or a failed write, nothing is written, the loop ends and the request stays pending |
| ReadLoopAnswers.PlainReaderAnswers | crates/buzz-acp/src/acp.rs:1223-1225 | the same for the plain reader |
| ReadLoopAnswers.ResponseEndsTheLoop | crates/buzz-acp/src/acp.rs:1635-1651 | the awaited response ends the loop, as the agent's failure with its code, -32000 without one, exactly when it carries an error |
| ReadLoopAnswers.PlainResponseEnds | crates/buzz-acp/src/acp.rs:1202-1212 | the same for the plain reader, and no other message ends it as answered or failed |
| ReadLoopAnswers.RequestIsWritten | crates/buzz-acp/src/acp.rs:1059-1090 | a request is the first thing written, under the next number, which is then used up; if it cannot be written nothing is recorded |
| ReadLoopAnswers.SteerReplySettles | crates/buzz-acp/src/acp.rs:1534-1634 | the reply to the steer in flight settles it, by its error code, as delivered or as an unexpected outcome, and only what lands in the awaited turn renews the budget |
| ReadLoopAnswers.MessagesRestartTheClock | crates/buzz-acp/src/acp.rs:1523-1527 | every parsed message restarts the idle clock at its reading, and a tool call once more after it was handled |
| ReadLoopAnswers.TimeoutsFire | crates/buzz-acp/src/acp.rs:1315-1466 | the loop times out exactly when the earlier deadline is found passed, before the wait or during one with nothing to read or steer, and says which deadline it was and how long the agent was silent |
| SessionReports.SteerArmExactly | crates/buzz-acp/src/acp.rs:1365-1447 | a queued request is written by goose with the known run, else by the extension if advertised, under the next id, and is then in flight; a failed write or no transport settles it at once |
| SessionReports.SteersFollowTheReports | crates/buzz-acp/src/acp.rs:1707-1815 | over any session the run id is the one the agent last reported, and every steer written carries the run reported before it, by goose, or went by the advertised extension when none was |
| SessionReports.PromptIsWritten | crates/buzz-acp/src/acp.rs:747-808 | a prompt is the first thing written, under the next number; a failed write records nothing |
| SessionReports.CancelWrites | crates/buzz-acp/src/acp.rs:977-1025 | a cancellation writes the cancelled answer to an unanswered permission request, then the notice, before it drains; whichever write fails ends it |
| SessionReports.CleanupInheritsTheDeadline | crates/buzz-acp/src/acp.rs:917-952 | cleanup reports no hard timeout before both the stored deadline and thirty seconds have passed |
| SessionReports.LoopsKeepTheirTerms | crates/buzz-acp/src/acp.rs:747-1025 | throughout, a prompt's loop awaits the prompt's own number and renews by the whole budget; a cancellation's loop awaits the remembered prompt's, is patient for thirty seconds and renews by what was left when it began |
| SessionReports.TurnsEndInTime | crates/buzz-acp/src/acp.rs:747-1025 | whatever the agent streams, a turn is over one budget after the call, plus one per request it holds or is offered, and a cancellation at its deadline, plus what was left of it per request |
| AcpClients.AcpClient.HandlePermissionRequest | crates/buzz-acp/src/acp.rs:1865-1940 | the new client state and error of answering a permission request, with the option selected as stated |
| AcpClients.AcpClient.HandleSessionUpdate | crates/buzz-acp/src/acp.rs:1707-1815 | the run id after an update, and whether it counts as activity |
| AcpClients.AcpClient.SteerArm | crates/buzz-acp/src/acp.rs:1365-1447 | a taken request is written under a new id on the transport the state calls for, or acked at once with the reason it was not |
| AcpClients.AcpClient.JudgeSteer | crates/buzz-acp/src/acp.rs:1554-1612 | the ack for a steer reply and the renewed deadline |
| AcpClients.AcpClient.ProcessMessage | crates/buzz-acp/src/acp.rs:1525-1690 | a parsed message is a steer reply, the awaited response or something to dispatch, with the state, acks and stop of each |
| AcpClients.AcpClient.IterateOnce | crates/buzz-acp/src/acp.rs:1318-1524 | one turn of the loop refines the model's iteration, running variables included |
| AcpClients.AcpClient.ReadUntilResponse | crates/buzz-acp/src/acp.rs:1278-1691 | the whole loop refines the model's run, and every unknown request it read is refused but a last one whose refusal could not be written |
| AcpClients.AcpClient.ProcessPlainMessage | crates/buzz-acp/src/acp.rs:1202-1246 | what the plain reader does with one message, permission requests included |
| AcpClients.AcpClient.ReadPlainResponse | crates/buzz-acp/src/acp.rs:1154-1249 | the plain reader refines the model's, unknown requests refused likewise |
| AcpClients.AcpClient.SendRequest | crates/buzz-acp/src/acp.rs:1059-1090 | a request other than a prompt, written and read until answered or timed out, refines the model's |
| AcpClients.AcpClient.SessionPrompt | crates/buzz-acp/src/acp.rs:747-808 | a prompt with its loop refines the model's turn |
| AcpClients.AcpClient.CancelPendingPermission | crates/buzz-acp/src/acp.rs:988-1003 | a pending permission request is answered with cancelled unless it already was |
| AcpClients.AcpClient.CancelWithCleanup | crates/buzz-acp/src/acp.rs:917-952 | plain cleanup refines the model's |
| AcpClients.AcpClient.CancelWithCleanupGrace | crates/buzz-acp/src/acp.rs:961-975 | the grace variant refines the model's |
| AcpClients.AcpClient.InstallSteerRx | crates/buzz-acp/src/acp.rs:880-893 | the installed receiver with its content |
| AcpClients.AcpClient.ClearSteerRx | crates/buzz-acp/src/acp.rs:895-902 | dropping the receiver drops every queued request |
| EventQueues.EventQueue.Push | crates/buzz-acp/src/queue.rs:230-255 | an event is appended, the oldest leaving a full queue, or refused while its channel is in flight in drop mode; other channels are untouched |
| EventQueues.EventQueue.MarkNativeSteerPending | crates/buzz-acp/src/queue.rs:673-697 | the event moves from the queue to the side table; other channels are untouched |
| EventQueues.EventQueue.ReleaseNativeSteer | crates/buzz-acp/src/queue.rs:703-735 | the event moves back to the front, the newest leaving an overfull queue |
| EventQueues.EventQueue.RemoveEvent | crates/buzz-acp/src/queue.rs:738-751 | the event leaves both queue and side table |
| EventQueues.EventQueue.RecoverWithheld | crates/buzz-acp/src/queue.rs:766-790 | everything withheld returns to the front in its order, capped |
| EventQueues.EventQueue.DrainChannel | crates/buzz-acp/src/queue.rs:625-643 | queue and side table of the channel are emptied and the queued ids returned in order |
| EventQueues.WithholdMoves | crates/buzz-acp/src/queue.rs:673-697 | withholding keeps the multiset of events of queue and side table |
| EventQueues.ReleaseReturns | crates/buzz-acp/src/queue.rs:703-735 | a released event is the head of the queue and only a full queue's newest event makes room for it |
| EventQueues.WithholdRelease | crates/buzz-acp/src/lib.rs:2539-2543 | withholding a newly queued event and releasing it again only moves it to the front, also when a full queue made room for it |
| EventQueues.PushesKeepTheNewest | crates/buzz-acp/src/queue.rs:230-255 | after any run of pushes the queue is the newest five hundred of what it held and was given, in order of arrival |
| EventQueues.WithheldInOrder | crates/buzz-acp/src/queue.rs:673-697 | withholding takes the first event with the id out, closes the gap and appends it to the withheld ones; without one it changes nothing |
| EventQueues.ReleasedToTheHead | crates/buzz-acp/src/queue.rs:703-735 | a release takes the first withheld event with the id to the head of the queue, whose newest end gives way; without one it changes nothing |
| EventQueues.RecoveredInOrder | crates/buzz-acp/src/queue.rs:766-790 | recovery puts all withheld events in their order before the queue, whose newest end gives way, and withholds nothing |
| EventQueues.RemovedInOrder | crates/buzz-acp/src/queue.rs:738-751 | removal works event by event in both stores: an event with the id goes, every other keeps its place among the others |
| SteerSystem.EveryRunKeepsBooks | crates/buzz-acp/src/lib.rs:2824-2906 | in every reachable state of queue, turns, mail and ack arm, issued requests are exactly those live, in the mail or handled, and every withheld event awaits a request of its own |
| SteerSystem.ExactlyOnePlace | crates/buzz-acp/src/lib.rs:2861-2895 | every issued request is in exactly one place exactly once, so it is handled at most once |
| SteerSystem.NothingStaysWithheld | crates/buzz-acp/src/lib.rs:2495-2545 | when no turn runs and the mail is handled, nothing is withheld and every request was handled exactly once |
| SteerSystem.DropsAreDelivered | crates/buzz-acp/src/lib.rs:2495-2512 | an event is dropped as delivered only on the evidence of its own request's positive answer in the record of its turn |
| SteerSystem.WithheldFate | crates/buzz-acp/src/lib.rs:2804-2895 | in one step a withheld event stays withheld, returns to the queue, is dropped on a success of its id, or its channel is left; only a recovery of more events than the queue holds may push some out |
| SteerSystem.HeldEventsLeaveForCause | crates/buzz-acp/src/lib.rs:2495-2545 | over any run, an event held at some point and neither queued nor withheld at the end left at a step in between that dropped it on the delivery evidence of its own request, left the channel, took it from the queue as ordinary work, or overflowed the queue |
| SteerSystem.DecisionIsSound | crates/buzz-acp/src/lib.rs:2495-2520 | each outcome either drops or releases the event, a success alone drops, and the cancel-and-merge signal goes out exactly for a steer that is known not to have landed while its turn may still run |
| SteerOutcomes.HandlingDecides | crates/buzz-acp/src/lib.rs:2531-2545 | a success takes the event out of queue and side table and no event with another id; any other outcome takes it to the head of the queue, or changes nothing if it is no longer withheld |
| SteerOutcomes.DeliveredStaysGone | crates/buzz-acp/src/lib.rs:2495-2545 | over any run, once a success is handled the event is neither queued nor withheld until one with its id arrives or is requeued |
| SteerOutcomes.ArrivalIsOffered | crates/buzz-acp/src/lib.rs:2824-2906 | an arriving event is withheld, with a request of its own in the receiver, exactly when the turn runs and its receiver has room; otherwise it is queued as the newest |
| SlotCircuits.SlotCircuit.RecordCrash | crates/buzz-acp/src/lib.rs:1053-1099 | the crash history, the open deadline, the verdict and the jittered delay after a crash |
| SlotCircuits.SlotCircuit.MarkSpawnFailed | crates/buzz-acp/src/lib.rs:1101-1103 | a failed spawn opens the circuit for the cooldown |
| SlotCircuits.SlotCircuit.CanRefill | crates/buzz-acp/src/lib.rs:1113-1132 | whether an empty slot may be refilled, and the half-open state that leaves |
| SlotCircuits.BackoffIsShort | crates/buzz-acp/src/lib.rs:1053-1099 | over any calls the base delay is one or two seconds, so with jitter between 0.8 s and 2.4 s: shift and cap never bind |
| SlotCircuits.ThreeRespawnsSpanAWindow | crates/buzz-acp/src/lib.rs:1053-1099 | any three respawn verdicts of a run span at least sixty seconds |
| SlotCircuits.ProbeMustProveItself | crates/buzz-acp/src/lib.rs:1048-1132 | a crash within sixty seconds of a half-open probe, granted by a crash or a refill, reopens the circuit |
| SlotCircuits.OpenMeansCooldown | crates/buzz-acp/src/lib.rs:1048-1132 | after the threshold or a failed spawn nothing is granted for three hundred seconds |
| CircuitLaws.OpenExactlyWhileCooling | crates/buzz-acp/src/lib.rs:1053-1132 | the circuit refuses exactly within the cooldown of an opening: the third crash in a minute or a failed spawn |
| CircuitLaws.RefillExactly | crates/buzz-acp/src/lib.rs:1113-1132 | a refill is allowed exactly when no opening is still cooling down |
| CircuitLaws.CrashAfterCooldown | crates/buzz-acp/src/lib.rs:1058-1075 | while it cools down an opened circuit refuses crashes, and the first crash afterwards gets a probe |
| CircuitLaws.QuietSlotIsGranted | crates/buzz-acp/src/lib.rs:1053-1132 | after five minutes without a call anything is granted, a crash with the shortest delay or as a probe |
| CircuitLaws.CrashCountsDecide | crates/buzz-acp/src/lib.rs:1077-1098 | until something opens the circuit, a crash is the first, second or third of its minute and gets one second, two seconds or the open circuit |
| AgentSlots.OwnershipHolds | crates/buzz-acp/src/lib.rs:1170-1223 | in every reachable state each slot has at most one owner and its flag is set exactly while one respawn task runs or one result waits for it |
| AgentSlots.ExactlyOneStatus | crates/buzz-acp/src/lib.rs:1750-1808 | each slot is in exactly one of idle, checked out, respawning, empty |
| AgentSlots.RespawnsFit | crates/buzz-acp/src/lib.rs:1189-1192 | respawn tasks and waiting results together never exceed the channel's capacity |
| AgentSlots.TrySendNeverFails | crates/buzz-acp/src/lib.rs:1188-1223 | the guard's send never finds the channel full; each task leaves exactly its own result, a failure if it panicked or was aborted |
| AgentSlots.NoLiveAgentOverwritten | crates/buzz-acp/src/lib.rs:1785-1801 | an agent returns only to a slot with nothing idle, no task and no respawn |
| AgentSlots.OneEntryRetired | crates/buzz-acp/src/lib.rs:3068-3072 | handling a result removes exactly one entry from the map of prompt tasks although it filters by agent index |
| AgentSlots.AllDeadMeansAllEmpty | crates/buzz-acp/src/lib.rs:1136-1138 | no live agent and no respawn in flight holds exactly when every slot is empty |
| AgentFates.DeadAgentsAreReplaced | crates/buzz-acp/src/lib.rs:3260-3518 | a dead agent, or one whose task panicked, is not put back and its task is gone; exactly one respawn of it starts with the flag set, or the circuit is open; with a closed circuit and fewer than two recent crashes it is the respawn; no other slot is touched |
| AgentFates.IdleForAReason | crates/buzz-acp/src/lib.rs:3250-3294 | in every run an idle slot has been idle since it was filled at the start, since a healthy finish of it, or since a successful respawn was collected |
| AgentFates.OnlyRestoringFills | crates/buzz-acp/src/lib.rs:1783-1808 | a slot becomes idle exactly at a healthy finish of it or a successful collect |
| AgentFates.ClaimChecksOut | crates/buzz-acp/src/pool.rs:580-596 | claiming takes the agent out of its slot into one task and touches no other slot |
| AgentFates.MaintenanceRefills | crates/buzz-acp/src/lib.rs:1750-1773 | an empty slot with nothing in flight is refilled exactly when its circuit is not open, a circuit after its cooldown then being closed with two crashes on record; any other slot is left alone |
| AgentFates.CollectionSettles | crates/buzz-acp/src/lib.rs:1783-1808 | collecting clears the slot's flag; a success fills the slot, a failure leaves it empty with its circuit open for a whole cooldown |
| SlotHarnesses.RespawnGuard.Send | crates/buzz-acp/src/lib.rs:1188-1207 | the channel after a send and the destructor that follows it |
| SlotHarnesses.RespawnGuard.Destroy | crates/buzz-acp/src/lib.rs:1209-1223 | a guard that never sent leaves a failure if there is room |
| SlotHarnesses.SlotHarness.TryClaim | crates/buzz-acp/src/pool.rs:580-597 | an idle agent is claimed if there is one, one with a session for the channel if any idle agent has one |
| SlotHarnesses.SlotHarness.SpawnRespawnTask | crates/buzz-acp/src/lib.rs:3672-3721 | a crash is recorded and a respawn task started unless the circuit is open |
| SlotHarnesses.SlotHarness.HandlePromptResult | crates/buzz-acp/src/lib.rs:3055-3420 | the slot tables after a prompt task's result, agent alive or dead |
| SlotHarnesses.SlotHarness.RecoverPanickedAgent | crates/buzz-acp/src/lib.rs:3423-3518 | the slot tables after a prompt task panicked |
| SlotHarnesses.SlotHarness.MaintainSlot | crates/buzz-acp/src/lib.rs:1750-1773 | an empty slot without a respawn in flight is refilled when its circuit allows |
| SlotHarnesses.SlotHarness.RespawnTaskEnds | crates/buzz-acp/src/lib.rs:3672-3721 | a finished respawn task is gone and the channel holds what its guard left |
| SlotHarnesses.SlotHarness.CollectRespawn | crates/buzz-acp/src/lib.rs:1785-1808 | a collected result clears the flag and fills the slot or reopens its circuit |
| Utf8.CutIsValid | crates/buzz-acp/src/lib.rs:776-788 | cutting UTF-8 text at a boundary leaves two UTF-8 texts |
| Utf8.FloorCharBoundary | crates/buzz-acp/src/lib.rs:776-781 | the last boundary at or before an offset |
| Utf8.CeilCharBoundary | crates/buzz-acp/src/lib.rs:783-788 | the first boundary at or after an offset |
| Utf8Encoding.ValidExactly | crates/buzz-acp/src/lib.rs:776-788 | text is well formed exactly when it encodes some sequence of Unicode scalar values |
| Jsons.LenIsSkeletonPlusLeaves | crates/buzz-acp/src/lib.rs:689-691 | serialized length splits into that of the tree without its strings plus the escaped length of every string leaf |
| Jsons.SkeletonAndLeavesDetermine | crates/buzz-acp/src/lib.rs:689-691 | a value is determined by its tree and its string leaves |
| Jsons.PrintLength | crates/buzz-acp/src/lib.rs:689-691 | the length the trimmer computes is the length of the compact printed form, escapes, keys and commas included |
| ObserverEvents.SerializedLength | crates/buzz-acp/src/observer.rs:56-78 | the measured length of an event is that of its printed form with all field names |
| JsonStrings.StringsReadBack | crates/buzz-acp/src/lib.rs:689-691 | every string reads back from its printed form |
| Trimmer.ShrinkElidesTheLargest | crates/buzz-acp/src/lib.rs:698-735 | a turn finds no leaf exactly when none shrinks; otherwise it elides the first of the longest shrinkable leaves and changes nothing else |
| Trimmer.ElideShrinksEscaped | crates/buzz-acp/src/lib.rs:739-761 | an elision that shortens the raw leaf also shortens its escaped form |
| Trimmer.ShrinkShortens | crates/buzz-acp/src/lib.rs:674-679 | every turn strictly shortens the serialized payload, so the loop ends |
| Trimmer.FitEventToBudget | crates/buzz-acp/src/lib.rs:659-687 | the loop computes the fitted event of the model |
| TrimmerProperties.FittedResult | crates/buzz-acp/src/lib.rs:659-687 | for every event the envelope is untouched, an event under the cap is untouched, and otherwise it fits with tree, leaf ends and UTF-8 kept, or is the stub after a payload with no shrinkable leaf still did not fit |
| TrimmerProperties.FitsUnlessEnvelopeTooLong | crates/buzz-acp/src/lib.rs:681-686 | anything but the stub fits the cap, and the stub fits exactly when the other fields leave room for its exact length |
| TrimmerProperties.ElidesNoMoreThanNeeded | crates/buzz-acp/src/lib.rs:671-687 | a frame over the cap goes through single elisions of the largest leaf, each while it still does not fit, and the first payload that fits is published, or the stub once nothing is left to elide |
| TrimmerProperties.EndsSurvive | crates/buzz-acp/src/lib.rs:750-774 | the head and the tail that a leaf's first elision kept survive every further one without overlapping |
| TrimmerProperties.ElideIsValid | crates/buzz-acp/src/lib.rs:770-774 | eliding UTF-8 text gives UTF-8 text |
| TrimmerProperties.FirstMarkerIsExact | crates/buzz-acp/src/lib.rs:750-765 | the count in a first marker is the number of original bytes that are gone |
| TrimmerProperties.ElidedAgainExactly | crates/buzz-acp/src/lib.rs:644-647 | a leaf just elided is shrinkable again exactly when its count has at least three digits, three more for each end cut short by a four-byte character |
| TrimmerProperties.PlainLeafElidedTwice | crates/buzz-acp/src/lib.rs:671-673 | every plain leaf of at least 6100 bytes can be elided twice, and the second count is the length of the first marker |
| Coalescer.WithTextRead | crates/buzz-acp/src/lib.rs:583-626 | the text written into a chunk is read back under the same key |
| Coalescer.ChunkCoalescer.Flush | crates/buzz-acp/src/lib.rs:572-580 | every pending chunk is emitted with its text, in order, and nothing stays pending |
| Coalescer.ChunkCoalescer.Ingest | crates/buzz-acp/src/lib.rs:547-570 | a chunk is buffered, appended or flushed before, anything else is emitted after a flush; keys stay distinct |
| CoalescerProperties.TextIsConserved | crates/buzz-acp/src/lib.rs:546-581 | for every run and key, emitted texts in order followed by the pending one are the ingested texts |
| CoalescerProperties.NonChunksPass | crates/buzz-acp/src/lib.rs:547-552 | events that are no chunks all pass unchanged and in order |
| CoalescerProperties.NonChunkComesLast | crates/buzz-acp/src/lib.rs:547-552 | such an event is emitted after all text that came before it, with nothing left pending |
| CoalescerProperties.EmittedAreSized | crates/buzz-acp/src/lib.rs:537-569 | every emitted text is under 60000 bytes or is one chunk exactly as ingested |
| CoalescerProperties.BatchesAreInOrder | crates/buzz-acp/src/lib.rs:554-581 | with increasing numbers, everything one flush emits precedes everything emitted later |
| CoalescerProperties.PendingAreStamped | crates/buzz-acp/src/lib.rs:562-565 | a merged chunk carries the number and timestamp of the last chunk merged into it |
| CoalescerKeys.KeysAreMessages | crates/buzz-acp/src/lib.rs:583-612 | an event is coalesced exactly when it is a chunk, with its text, and two chunks have equal keys exactly when update type, message id, channel, session, turn and agent agree |
| CoalescerKeys.MessageTextIsConserved | crates/buzz-acp/src/lib.rs:547-626 | over every run, the text emitted for a message, in order, and then what is buffered for it are what was ingested for it |
| CoalescerKeys.ChunksJoinTheirMessage | crates/buzz-acp/src/lib.rs:547-571 | a chunk joins the buffered text of its own message while both stay under the limit; at the limit everything buffered leaves and it starts afresh; a chunk of no buffered message is buffered beside the others |
| CoalescerKeys.TwoChunks | crates/buzz-acp/src/lib.rs:547-582 | two chunks of one message under the limit leave as one event with both texts, two of different messages as two |
| CoalescerKeys.WithTextTouchesOnlyText | crates/buzz-acp/src/lib.rs:614-626 | writing the merged text changes no other field of the payload or of the event |
| Pacer.PublishPacer.Wait | crates/buzz-acp/src/lib.rs:381-408 | it returns at a time both limits allow, at most the environment's drift after the due time, sleeps at most once, and keeps both limits over the whole history |
| Pacer.WakesWhenDue | crates/buzz-acp/src/lib.rs:385-401 | from the pruned deque the code computes exactly max(now, last + 167 ms, ninetieth last + 60 s) |
| Pacer.RecordKeepsLimits | crates/buzz-acp/src/lib.rs:403-406 | a publication at or after the due time keeps gaps of 167 ms, at most ninety per minute, and at most ninety entries |
| ObserverBus.ObserverHub.Emit | crates/buzz-acp/src/observer.rs:101-136 | the event gets the next number, is retained with the oldest leaving a full buffer, and is broadcast |
| ObserverBus.NothingFedTwice | crates/buzz-acp/src/lib.rs:424-478 | under every interleaving of emitters' steps no event is fed twice |
| ObserverBus.FedExactly | crates/buzz-acp/src/lib.rs:424-478 | in every run, exactly which broadcast events are fed: not those pushed out of the replay buffer before the snapshot that were sent before the subscription or lie below the snapshot's highest number, and not those unbuffered at the snapshot that lie below it |
| ObserverBus.LostExactly | crates/buzz-acp/src/lib.rs:466-470 | the same for any reachable state; for events after the subscription, lost exactly when below the highest number and unbuffered or pushed out |
| ObserverBus.LateBufferIsLost | crates/buzz-acp/src/observer.rs:108-136 | a run of two emitters in which an event buffered late is never fed |
| ObserverLoss.AtomicIsPlay | crates/buzz-acp/src/observer.rs:108-136 | runs that number and buffer in one step are runs of the bus |
| ObserverLoss.AtomicLossExactly | crates/buzz-acp/src/lib.rs:419-422 | when numbering and buffering are one step, a broadcast event is lost exactly when a thousand events were buffered after it and before the snapshot |
| ObserverLoss.NothingLateIsLost | crates/buzz-acp/src/lib.rs:419-422 | when moreover fewer than a thousand events are buffered between an event and its broadcast, everything broadcast after the snapshot is fed |
| ObserverLoss.LateSendIsLost | crates/buzz-acp/src/observer.rs:122-136 | a run that numbers and buffers in one step and still loses the event of a late sender |
| ObserverBus.SerialFeedIsComplete | crates/buzz-acp/src/lib.rs:419-478 | with one emitter at a time the feed is everything retained at the snapshot and everything later, once and in order |
| Publisher.RelayPublisher.PublishBatch | crates/buzz-acp/src/lib.rs:790-803 | each event of a batch is paced, fitted and handed on in order |
| Publisher.RelayPublisher.Run | crates/buzz-acp/src/lib.rs:439-515 | the loop over snapshot and deliveries feeds the coalescer exactly the model's inputs, and its frames are the fitted emissions, one paced publication each |
| Publisher.PublisherLosesNothing | crates/buzz-acp/src/lib.rs:411-515 | without lag and once closed, the text handed to the trimmer per key is the text of everything retained and later, and all other events are handed on in order; every frame is its event when under the cap and otherwise fits with tree and text ends kept or is the stub; so if all are under the cap, the published texts and other events are exactly those |
| Publisher.NothingWaitsPastAFlush | crates/buzz-acp/src/lib.rs:470-535 | after a tick, a lag or the close nothing is left waiting in the coalescer |
| OversizedChunk.UnchangedExactly | crates/buzz-acp/src/lib.rs:659-687 | a frame is its event unchanged exactly when the event is under the cap, or its payload is already the stub it would get and even that does not fit |
| OversizedChunk.QuotesAreElided | crates/buzz-acp/src/lib.rs:537-544 | every chunk of 32768 to 59999 quotation marks passes the coalescer's limit, is over the cap, and is published with a shorter, elided text |
| Membership.MembershipTracker.Handle | crates/buzz-acp/src/lib.rs:1932-1997 | verdict and new state for a notification: both generations, watermark, removed set |
| Membership.GenerationsAreBounded | crates/buzz-acp/src/lib.rs:1942-1947 | the current generation stays under a thousand ids and the previous one at most that |
| Membership.ForgottenOnlyAfterAThousand | crates/buzz-acp/src/lib.rs:1932-1947 | an id passes duplicate detection twice only with at least a thousand insertions in between |
| Membership.AcceptedNeverDecrease | crates/buzz-acp/src/lib.rs:1948-1960 | accepted timestamps of a channel never decrease |
| Membership.Converges | crates/buzz-acp/src/lib.rs:1932-1997 | for every order and multiplicity, forgotten replays included, the channel ends as its newest notifications say if they agree |
| Membership.SameNoticesSameState | crates/buzz-acp/src/lib.rs:1649-1657 | two deliveries of the same notifications agree on every such channel |
| Membership.TiesDiverge | crates/buzz-acp/src/lib.rs:1652-1657 | if two newest notifications of a channel disagree, their order of arrival decides the outcome |
| PoolLifecycles.DelayDoublesToTheCap | crates/buzz-acp/src/pool_lifecycle.rs:123-132 | for every attempt the delay is min(300, 5 * 2^(n-1)) despite shift and saturation |
| PoolLifecycles.PoolLifecycle.StartWakeIfDue | crates/buzz-acp/src/pool_lifecycle.rs:37-58 | a wake starts when work is pending and the lifecycle is fresh or its retry is due, with the next attempt number |
| PoolLifecycles.PoolLifecycle.TakeReady | crates/buzz-acp/src/pool_lifecycle.rs:60-68 | a ready pool is handed out once; any other state is kept |
| PoolLifecycles.PoolLifecycle.CompleteWake | crates/buzz-acp/src/pool_lifecycle.rs:99-119 | only the current attempt's result changes the state |
| PoolLifecycles.PoolLifecycle.CancelWake | crates/buzz-acp/src/pool_lifecycle.rs:91-93 | cancelling the current attempt fails it |
| PoolLifecycles.EveryRunWakesOnceAtATime | crates/buzz-acp/src/lib.rs:1712-1741 | in every run at most one wake owes an outcome, exactly while the lifecycle is waking, and at most one pool is installed |
| PoolLifecycles.AttemptsCountWakes | crates/buzz-acp/src/pool_lifecycle.rs:46-57 | the attempt a new wake carries is the number of wakes so far plus one, capped at 32 bits |
| PoolLifecycles.QueuedResultIsCurrent | crates/buzz-acp/src/lib.rs:2557-2565 | a queued result is the only outcome due and carries the current attempt, so none is ever stale |
| PoolLifecycles.FiredTimerWakes | crates/buzz-acp/src/lib.rs:1849-1860 | when the retry timer has fired and work is pending, the next pass starts a new wake |
| PoolLifecycles.WakeStartsExactly | crates/buzz-acp/src/pool_lifecycle.rs:37-58 | a pass of the loop starts a wake exactly when there is work, no pool yet, and the lifecycle is fresh or its retry time has come; the first attempt is number one |
| PoolLifecycles.ResultDecides | crates/buzz-acp/src/lib.rs:2557-2597 | the pool of a successful wake is the one installed; an error is kept with the time of the next attempt |
| PoolLifecycles.PanicFails | crates/buzz-acp/src/lib.rs:1861-1880 | a wake that panicked leaves the lifecycle failed with its message and the time of the next attempt |
| ConfigMerge.DeepMerge | crates/buzz-acp/src/acp.rs:219-239 | the loop over the overlay's keys, in any order, computes the merge |
| ConfigMerge.MergeAt | crates/buzz-acp/src/acp.rs:219-239 | the merge at every path: the overlay's value merged into the base's if both are there, else the base's unless cut off by the overlay |
| ConfigMerge.CutsOffMeans | crates/buzz-acp/src/acp.rs:219-239 | a path is cut off exactly when a proper prefix holds a value that is no object |
| ConfigMerge.OverlayWins | crates/buzz-acp/src/acp.rs:233-236 | every overlay value that is no object ends up at its path |
| ConfigMerge.MergeTwice | crates/buzz-acp/src/acp.rs:219-239 | merging the same overlay again changes nothing |
| ConfigSources.EntriesInOrder | crates/buzz-acp/src/acp.rs:278-283 | exactly the entries under `CODEX_CONFIG` are taken, in their order |
| ConfigSources.MergedComesFrom | crates/buzz-acp/src/acp.rs:313-323 | at every path the merge has the last source's value that is no object, an object when some source has one that no later one replaces or cuts off, and nothing else |
| ConfigSources.BuildCodexConfigEnv | crates/buzz-acp/src/acp.rs:268-356 | nothing without a generated entry; else the error of the first source that is no JSON object; else network access is true and at every other path each entry wins over the ones before it and the parent over all, or the sandbox value that blocks the flag is the error |
| ConfigSources.FailsExactly | crates/buzz-acp/src/acp.rs:292-333 | some source is the first bad one exactly when not all sources are JSON objects |
| ConfigSources.ForcedChangesOnlyTheFlag | crates/buzz-acp/src/acp.rs:335-354 | network access is true and every path not through or toward it is as merged |
| Rules.TextMatchParses | crates/buzz-acp/src/filter.rs:67-72 | a rule that matches a channel by text also applies to it by parsed UUID |
| Rules.OtherSpellingOnlySubscribes | crates/buzz-acp/src/config.rs:1415-1424 | a rule with another spelling of a UUID subscribes the channel and never matches on it |
| Subscriptions.MergedMerges | crates/buzz-acp/src/config.rs:1286-1311 | merged kinds are the duplicate-free union of the channel's rules or a wildcard if one is, and a mention is required only if all require it |
| Subscriptions.MergeRules | crates/buzz-acp/src/config.rs:1375-1399 | the loop computes the merge |
| Subscriptions.ResolveDynamicChannelFilter | crates/buzz-acp/src/config.rs:1335-1413 | the filter of one channel in each of the three modes |
| Subscriptions.ResolveChannelFilters | crates/buzz-acp/src/config.rs:1233-1326 | the batch holds, for exactly the discovered channels in scope, what the one-channel resolver gives, in all three modes |
| Subscriptions.ConfigModeIsSound | crates/buzz-acp/src/config.rs:1286-1320 | the subscription accepts every event that passes some rule's channel, kind and mention checks |
| Subscriptions.ConfigModeAcceptsExactly | crates/buzz-acp/src/config.rs:1286-1320 | it accepts exactly when some rule of the channel passes the kind and some rule, maybe another, the mention |
| Subscriptions.OtherModesSoundExactly | crates/buzz-acp/src/lib.rs:1437-1467 | in the other modes it is sound for all events exactly when the kinds override is not the empty list |
| Subscriptions.MentionsModeAccepts | crates/buzz-acp/src/config.rs:1348-1369 | mentions mode subscribes a channel unless a list of channels lacks it, and lets through exactly the asked-for kinds, by default three, that mention the agent unless that is switched off |
| Subscriptions.AllModeAccepts | crates/buzz-acp/src/config.rs:1370-1373 | all mode asks for no mention, and for kinds only when they are overridden |
| Subscriptions.ConfigModeSubscribes | crates/buzz-acp/src/config.rs:1374-1411 | config mode subscribes a channel exactly when a rule applies to it, whatever the overrides say |
| Subscriptions.OtherModesMatchWhatTheySubscribe | crates/buzz-acp/src/lib.rs:1437-1467 | in mentions and all mode the harness matches exactly the events of a subscribed channel that the subscription lets through, unless the kinds override is the empty list |
| RuleMatch.RuleMatcher.MatchEvent | crates/buzz-acp/src/filter.rs:368-460 | the winning rule, its tag and the counters after a call |
| RuleMatch.FirstMatchWins | crates/buzz-acp/src/filter.rs:368-460 | a rule wins exactly when it passes all its checks and every earlier reached rule has a filter that evaluated to false |
| RuleMatch.BrokenFilterNeverWidens | crates/buzz-acp/src/filter.rs:425-449 | turning any filter's outcome into an error gives the same winner or none |
| RuleMatch.CountersAfterCall | crates/buzz-acp/src/filter.rs:414-449 | a call changes exactly the counters of the rules it evaluates: an answer resets, a timeout adds one, another error leaves them |
| RuleMatch.CountersAreCapped | crates/buzz-acp/src/filter.rs:400-436 | over serial calls no timeout counter passes five |
| RuleMatch.DisabledRejectsForever | crates/buzz-acp/src/filter.rs:400-412 | a counter at five stays there and no later rule ever gets an event that reaches the rule |
| Resp.EncodeCommand | perf/relay_bus_scaling.py:110-117 | the frame of a command |
| Resp.Stream.ReadCrlfLine | perf/relay_bus_scaling.py:120-126 | a line and what is left of the stream, or the error |
| Resp.Stream.ReadReply | perf/relay_bus_scaling.py:129-153 | reading consumes exactly what the grammar's function does and gives its value or error |
| Resp.CommandRoundTrip | perf/relay_bus_scaling.py:110-153 | a command reads back as its arguments, line ends inside them included, and exactly its bytes are consumed |
| Resp.CommandsRoundTrip | perf/relay_bus_scaling.py:110-153 | concatenated commands read back one after the other |
| Resp.IntegerAndNilReplies | perf/relay_bus_scaling.py:137-152 | integer replies of either sign read back, and the length -1 is nil for bulks and arrays |
| Resp.ReadExtends | perf/relay_bus_scaling.py:129-153 | later bytes never change what earlier ones say |
| Resp.TruncatedCommandFails | perf/relay_bus_scaling.py:120-153 | a command cut short anywhere is an error, never a reply |
| RespReplies.RepliesReadBack | perf/relay_bus_scaling.py:129-153 | every reply reads back from its bytes, nested arrays included, and exactly its bytes are consumed |
| RespReplies.StatusAndErrorLines | perf/relay_bus_scaling.py:133-136 | a status line is its text and an error line an error with its text, unless the bytes are no text |
| RespReplies.BulkIsChecked | perf/relay_bus_scaling.py:139-147 | a bulk is refused exactly when its bytes or the line end after them are missing, or they are no text |
| RespReplies.BrokenHeads | perf/relay_bus_scaling.py:120-153 | a reply needs a known prefix and a complete first line |
| RespReplies.BrokenItem | perf/relay_bus_scaling.py:148-153 | the first item of an array that fails is the array's failure |
| RespReplies.NumbersMayBeSpaced | perf/relay_bus_scaling.py:137-149 | spaces around a number are ignored, and a line without digits is no number |
| Worklet.SttTapProcessor.Process | desktop/public/worklet.js:34-63 | buffer, gate and posted frames after a call, and whether it threw |
| Worklet.PostsAreWhatWasHeard | desktop/public/worklet.js:27-63 | for inputs of at most 960 samples and any toggling, posts are the stretches between muted calls cut into whole frames, and the buffer holds the rest of the last stretch |
| Worklet.FramesAndRest | desktop/public/worklet.js:45-59 | cutting into frames keeps every sample in order |
| Worklet.StretchIsFramed | desktop/public/worklet.js:45-60 | for inputs of any size that do not throw, the posts of a stretch and the full frame that may still wait are the stretch cut into whole frames, and the buffer holds the rest |
| Worklet.NothingThrows | desktop/public/worklet.js:34-63 | with such inputs no call throws and every posted frame has 960 samples |

## Left out

- Worklet.PostsAreWhatWasHeard: with push-to-talk toggles, only inputs of at most 960 samples (Web Audio delivers 128); for larger ones Worklet.StretchIsFramed covers the calls between two muted ones.
- Publisher.PublisherLosesNothing: does not say which of two keys an over-cap chunk is published under when its message id itself is elided.
- EventQueues.EventQueue.DrainChannel: the retry throttles, retry counts and cancelled batches that it also clears.
- SlotHarnesses.SlotHarness.RecoverPanickedAgent: requeueing the batch, marking it complete and cleaning up its channel.
- ObserverBus.SerialFeedIsComplete: assumes a receiver that does not lag; after a lag the broadcast channel has overwritten events and only the flush is modelled (in Publisher).
- Membership.Converges: assumes that an event id names one event, as a hash does.
- Resp.Stream.ReadReply: does not say how much of the stream an error consumed, because the connection is not used afterwards; Python's limits on nesting and on the number of digits are not modelled.
- Pacer.PublishPacer.Wait: waking late is bounded by the drift of the clock model, not by any real scheduler.
- AcpClients.AcpClient.ReadUntilResponse: a write either completes or fails; a future dropped in the middle of a write is not modelled, nor are the 64-bit limit of ids, stop-reason parsing, usage tracking and the text of steer prompts.
- SlotHarnesses.SlotHarness.HandlePromptResult: session affinity and requeueing are reduced to whether the agent lives; circuits are held as values in the slot table.
- SteerSystem.WithheldFate: flushing, retries, cancelled batches and fairness of the queue are one arbitrary change of its content; an in-flight entry may expire at any time, although a delivered steer extends it.
- Membership.MembershipTracker.Handle: the subscribing, unsubscribing, draining and reaction clean-up that follow an accepted notification.
- ConfigMerge.DeepMerge: the base is a value that is returned rather than a map changed in place.
- RuleMatch.RuleMatcher.MatchEvent: evaluating a filter expression is an input (true, false, timeout, error); concurrent callers are not modelled.
- Trimmer.FitEventToBudget: leaves are rewritten by rebuilding the tree; object keys keep the order of the map, numbers are the length they print to.
- JSON and UUID text parsing, TOML and command-line parsing, evalexpr, cryptography and signing, the relay connection, HTTP, process spawning and shutdown draining, logging and notices.
- The event numbers' 64-bit limit and a poisoned buffer lock on the observer bus.
- The desktop and mobile user interfaces, the relay, the database and the release scripts.
