# Verification of the ESP-NOW benchmark harness

This project models the parts of the two-node ESP-NOW benchmark that its published numbers depend on, and
proves what those numbers mean. `dafny verify dfyconfig.toml` checks all of it.

* **Sequence windows and loss** (`Bitmap`, `SequenceWindow`, `Loss`). The firmware's sliding 64-bit window and
  the host's set-based tracker are classes, both specified by the history of sequence numbers observed; their
  exact divergence follows. On top of that stands what the host's reported loss means.
* **Transmit window and drain fence** (`TxFence` and the modules `FrameTracking`, `SlotWindow`, `DrainFence`,
  `TxAccounting`, `TxSafety`, `TxCounts`, `ResizeSafety`, `TxScenarios`, `ControlLoops`). One node's counting semaphore,
  event queue, generator, echo path, send callback and control task are an interleaved transition system, one step
  for each take, give, send, post, dequeue, notification and counter update. The results hold on every run from boot. `ControlLoops` has
  the control task's loops as the firmware writes them, each iteration a step of that system with any steps of
  the other tasks in between.
* **Generator** (`Schedule`, `Generator`, `GeneratorRun`). The pacing loops are methods over an environment that
  decides how long everything takes and how each send turns out; what a run did is recorded in a ghost trace.
* **Whole run** (`NodeControl`, `TwoNodeRun`, `RunSafety`, `RunHistory`, `RunRoles`, `CompletedRun`). Two nodes, the host's
  command order, serial lines, and a network that may lose, repeat and reorder frames.
* **Metrics and codec** (`Moments`, `Distribution`, `Reservoir`, `Metrics`, `Receiver`, `Codec`). Reservoir,
  percentiles, jitter, signal strength, receive totals, the receiver's classification of events, and the
  28-byte header.

`Words` holds the fixed-width number types, `Harness` the shared limits and `Arithmetic` the division lemmas.

## Assumptions

* An accepted `esp_now_send` leads to at most one send callback, a refused one to none; queues are first-in
  first-out; a timed wait fails only when what it waits for is not there.
* A send attempt and a tick delay each take at least a microsecond, a busy wait at least as long as asked.
  Readings of the 64-bit signed timer are not negative.
* The receiver task outranks the control task (priority 12 to 11) on a single core, so its check of run id and state and
  the counting that follows are one step as far as commands are concerned. Otherwise tasks interleave in any order.
* In the two-node system neither node reboots, no other host talks to them, no generator is alive when the run
  begins, and no frame with this run's id is around before it.

## Where the code falls short, exactly

* *A drain can be answered by an older flush.* A flush that timed out leaves its barrier queued. `DrainIsFence`
  grades what a successful drain still promises by the number of barriers and notifications outstanding when it
  began, and `Thresholds` shows the grades to be exact: one outstanding flush can lose an echo's completion, a second
  that of a submitted frame, a third even an event queued before the drain, each by a run from boot.
* *A resize can lose slots.* `ResizeMayLoseExactlyWhenSomebodyMayTake` tells it from the state in which a configure
  begins: some course of events loses slots if and only if the window has at least two, none is lost yet, and a generator
  is alive, the new role echoes, or an echo is already waiting for its slot. A resize nobody disturbs from the instant it
  held the whole window is exact (`UndisturbedResizeIsExact`). `AbortedResize` gives the early exit of `radio_configure` and
  what it loses, `LostSlotsStopEveryDrain` that no drain or resize succeeds after it. `ResizeCanLoseASlot` and
  `ResizeCanLoseASlotAfterADrain` are such runs, the second after a drain that succeeded.
* *Late repeats.* The repository's README.md:166 promises submitted frames minus unique received frames. The code
  subtracts only the repeats the window recognises, so a repeat 64 or more behind hides one lost frame. The model
  follows the code: `LossMeaning` gives the exact value and when it equals the promised one, `LateRepeatHidesLoss`
  a run where it does not.
* *Completions carry no run id.* `DrainedCounts` states the counts with the frames carried over the last metrics
  reset as an explicit term; they are exact when there were none. `CompletionOutlivesReset` is a run in which the new
  measurement reports a completed frame and none submitted.
* *A generator that outlives a failed stop* can turn CONFIGURED into FINISHED: `LateGeneratorOverwritesConfigured` is
  such a run from boot. `ConfigureIsSafeOnlyWithoutLiveGenerator` gives the exact condition, which can be checked before
  the configure: it can be overwritten if and only if a generator short of its last write is alive. The ERROR of a
  configure that failed at the radio can be overwritten too (`LateGeneratorOverwritesError`), and the old run's counts then
  stand under the new run id; `ReceiverTask.Valid` carries that one exception.
* *Repeated echoes* hide probe losses: `ProbeLossMeaning` gives the exact value.
* *The strongest signal* is reported as -127 when every reading is -128: `MaximumExactUnlessAllAtFloor`.

## Model

| member | source | states |
|---|---|---|
| SequenceWindow.StreamMetric.Observe | firmware/main/metrics.c:90-120 | Whatever is observed, every field stays determined by the history: bit i of the word is set exactly when `highest - i` was ever observed, and the counters count arrivals by how they stand to the past. |
| SequenceWindow.ObservedDescribes | firmware/main/metrics.c:99-119 | One observation takes a description of a history to one of the longer history; the guard on the decrement of `gaps` never holds it back. |
| SequenceWindow.HoleMeansGap | firmware/main/metrics.c:112-119 | A number at or below the highest that never arrived means there is a gap left to close. |
| Bitmap.Slide | firmware/main/metrics.c:103 | Bit i of the shifted word with its new low bit is bit i - d of the old one, cut off at 64 bits. |
| Bitmap.Mark | firmware/main/metrics.c:112-117 | Setting a bit by mask changes that bit and no other. |
| Bitmap.TestMask | firmware/main/metrics.c:112-113 | The mask test is non-zero exactly when the bit is set. |
| SequenceWindow.SequenceTracker.Observe | host/src/protocol.rs:132-145 | The host's tracker keeps the whole set and counts every repeat and every first arrival below the running highest. |
| SequenceWindow.SequenceTracker.EstimatedMissing | host/src/protocol.rs:147-153 | It is the number of sequence numbers up to the highest that never arrived. |
| SequenceWindow.Divergence | firmware/main/metrics.c:107-119 | Against the host's tracker on every history: duplicates plus out-of-order agree, out-of-order exceeds the host's by the late repeats, gaps exceed the missing numbers by the late first arrivals. |
| SequenceWindow.AgreeExactlyWithoutLateArrivals | host/src/protocol.rs:130-153 | All three figures agree if and only if the corresponding late arrivals are absent; in particular when everything arrives within 63 of the running highest. |
| Loss.Balance | host/src/output.rs:133-146 | Frames never processed plus arrivals not reported as duplicates equal submissions plus late repeats, whatever the network lost, repeated or reordered. |
| Loss.LossMeaning | host/src/output.rs:145-146 | The reported loss is the frames never processed less the late repeats, never more than the frames never processed, and equal to them if and only if there was no late repeat or nothing was lost. |
| Loss.MissingMeaning | firmware/main/metrics.c:211-213 | The receiver's missing over all streams plus trailing loss exceeds the frames never processed by exactly the late first arrivals. |
| Loss.LossEqualsMissing | README.md:48 | Host loss and receiver missing plus trailing loss coincide if and only if no first arrival was late and late repeats hid nothing. |
| Loss.LateRepeatHidesLoss | README.md:166 | Three arrivals on one stream for which 64 frames are missing and 63 are reported. |
| Loss.ProbeLossMeaning | host/src/output.rs:160-170 | On a single probe stream the reported probe loss is the probes without an echo less the repeated echoes, and exact if and only if no echo was repeated or none is missing. |
| TxSafety.EveryRunIsSound | firmware/main/radio.c:17-155 | The invariant of frames, queue, slots, fence and counters holds in every state any interleaving reaches from boot. |
| SlotWindow.SlotsStep | firmware/main/radio.c:115-154 | Every single take, give, send, callback and resize step conserves the slots. |
| TxSafety.SlotsOnEveryRun | firmware/main/radio.c:17-24 | Free slots, slots held by each actor, frames in flight and lost slots add up to the window on every run, so frames in flight never exceed it. |
| TxSafety.QueueOnEveryRun | firmware/main/receiver.c:12-43 | On every run the queue holds at most 64 events, every completion in it is that of one accepted frame, and no frame gives its slot back before its completion was posted or dropped. |
| TxSafety.NoGiveIsRefused | firmware/main/radio.c:122-133 | No give of any actor ever meets a full semaphore. |
| ResizeSafety.ResizeMayLoseExactlyWhenSomebodyMayTake | firmware/main/radio.c:76-86 | Of every reachable node about to configure: some course of events up to the next configure loses slots if and only if the window has at least two, none is lost yet, and a generator is alive, the new role echoes, or an echo already waits for its slot. |
| ResizeSafety.UndisturbedResizeIsExact | firmware/main/radio.c:78-86 | From the instant the idle wait holds the whole window, as long as no sender acquires a slot, none is lost. |
| TxSafety.AbortedResize | firmware/main/radio.c:82-84 | In the second pass the early exit is taken exactly when the other slots are all with somebody else, and loses exactly the slots taken until then. |
| TxSafety.CompletedResize | firmware/main/radio.c:80-86 | A resize that goes through held every slot: nothing was in flight or lost, and the new window is whole. |
| TxSafety.LostSlotsStopEveryDrain | firmware/main/radio.c:139-154 | From any reachable node that lost a slot, whatever drains it completed before, no drain and no resize ever succeeds again, whatever the tasks do. |
| ControlLoops.ControlTask.WaitIdle | firmware/main/radio.c:139-154 | In every interleaving the loops leave the window and its losses as they were; they fail exactly when a take gives up on an empty semaphore, never succeed once a slot is lost, and succeed with every slot free and nobody interfering. |
| ControlLoops.ControlTask.Resize | firmware/main/radio.c:76-86 | Success means the new window with no slot missing; failure keeps the old window and loses exactly the slots the second pass had taken. It fails exactly when a take, in the idle wait or in the second pass, finds no slot free, and with every slot free and nobody interfering the new window is whole and free. |
| ControlLoops.ControlTask.Interleave | firmware/main/radio.c:17-24 | Whatever steps the other tasks take, the window, the lost slots and the control task's own progress are as before. |
| TxScenarios.ResizeCanLoseASlot | firmware/main/radio.c:78-86 | A run from boot in which an echo overtakes a resize and a slot is lost. |
| TxScenarios.ResizeCanLoseASlotAfterADrain | firmware/main/radio.c:78-86 | The same after a drain that succeeded. |
| DrainFence.AllTakenMeansIdle | firmware/main/radio.c:139-154 | Holding the whole window means no slot is lost or elsewhere, no frame is in flight, and every frame's completion event was posted before. |
| DrainFence.FencedStep | firmware/main/receiver.c:53-69 | Each step keeps the relation between barriers placed, notifications consumed, slots held and events processed. |
| TxSafety.DrainIsFence | firmware/main/control.c:309-315 | A drain that returns true with nothing outstanding before it means every event queued before it is processed and every frame submitted before it, or echoed because of such an event, is counted or dropped; one outstanding flush costs the echoes, two the frames. |
| ControlLoops.ControlTask.Flush | firmware/main/receiver.c:53-59 | It fails exactly when its post finds the queue full or its wait no notification, and the third flush of a drain succeeds only when the fence's promise holds at its return. |
| ControlLoops.ControlTask.Drain | firmware/main/control.c:309-315 | Whatever the other tasks do meanwhile, true means the promise holds on return and no slot was lost, false that exactly one post, wait or take gave up, and the window is unchanged either way. |
| TxSafety.StaleOnlyAfterTimeout | firmware/main/receiver.c:53-59 | A drain finds nothing outstanding unless an earlier flush timed out while waiting. |
| TxScenarios.OneStaleFlushBreaksTheFence | firmware/main/receiver.c:56-58 | A run from boot in which one earlier timed-out flush lets a drain succeed before an echo's completion is processed. |
| TxScenarios.TwoStaleFlushesLoseAFrame | firmware/main/receiver.c:56-58 | A run in which two let a drain succeed before the completion of a frame submitted earlier is processed. |
| TxScenarios.ThreeStaleFlushesLoseAnEvent | firmware/main/receiver.c:56-58 | A run in which three let a drain succeed before an event queued earlier is even dequeued. |
| TxScenarios.Thresholds | firmware/main/control.c:309-315 | Over all drains with at most k outstanding at their start, the promises about echoes, frames and events hold if and only if k is 0, at most 1 and at most 2. |
| FrameTracking.StaysConsistent | firmware/main/receiver.c:37-43 | Each accepted frame's completion is pending, at exactly one place in the queue, counted or dropped, and no other event claims it. |
| TxAccounting.BalancedStep | firmware/main/metrics.c:48-88 | Each step of any actor keeps the request, submission and completion balances; which counter an event goes to is `TxCounts.EachCounterCountsItsEvents`. |
| TxSafety.RequestsAccounted | firmware/main/generator.c:29-68 | On every run requested equals submitted plus refused plus timed out plus sends in progress, at most one per sender, with those in progress at the last reset carried over; each term by itself is `TxCounts.EachCounterCountsItsEvents`. |
| TxCounts.EachCounterCountsItsEvents | firmware/main/metrics.c:48-81 | On every run, of the generator and the echo path alike, each counter is the number of its own events since the last reset: requests made, slot waits timed out, accepted and refused submissions recorded, completions handled by the outcome they carry, and events that found 64 queued. |
| TxCounts.RefusalsAndAcceptances | firmware/main/radio.c:115-133 | On every run the API failures counted and still to be recorded are the submissions the radio refused since the last reset and those left unrecorded then; likewise for the accepted ones. |
| TxCounts.OutcomesAreReported | firmware/main/receiver.c:37-43 | The outcome a queued completion carries is the one the radio reported for that frame. |
| TxCounts.OnlyRespondersEcho | firmware/main/receiver.c:95-109 | On every run on which the node was never configured to echo, it makes no echo: all its frames are its generator's. |
| TxSafety.CompletionsAccounted | firmware/main/receiver.c:71-78 | On every run of any node, completions counted, dropped and still to come equal submissions plus what was outstanding at the last reset. |
| TxSafety.DrainedCounts | firmware/main/receiver.c:71-78 | After a drain on a node that made no echo since the reset, whatever its roles before, callbacks counted plus events dropped equal submissions plus what was outstanding at the reset, hence submitted less drops bounds the callbacks from below and submitted from above when nothing was. |
| TxScenarios.CompletionOutlivesReset | firmware/main/control.c:370 | A run from boot in which the metrics are reset with a completion queued and the drained counters show one success and no submission. |
| Schedule.NoDrift | firmware/main/generator.c:112 | Deadline k is never later than the exact instant and less than a microsecond early, for every k and rate. |
| Schedule.Spacing | firmware/main/generator.c:112 | Consecutive deadlines are in order and at most the rounded-up period apart. |
| Schedule.ExactUnlessWrapped | firmware/main/generator.c:112 | The 64-bit computation gives the exact deadline if and only if the product of index and 10^6 fits 64 bits. |
| Schedule.IndexBound | firmware/main/generator.c:111-121 | A deadline inside the measurement interval has an index below the rounded-up number of periods in it. |
| Schedule.NoWrap | firmware/main/generator.c:112 | While duration times rate plus 10^6 is at most 2^64, no product for such an index, or the next one, wraps. |
| Generator.WaitDeadline | firmware/main/generator.c:14-27 | It returns, and not before the deadline, although tick delays may end early; it never asks to sleep past the deadline, and not at all once it has passed. |
| Generator.TxMetrics.SendOne | firmware/main/generator.c:29-68 | One request, one outcome, the counters, bytes and dispatch window of that outcome, and the clamped lateness as a sample of the reservoir exactly when scheduled; encoding fails only on sizes outside the frame limits. |
| Generator.SendNext | firmware/main/generator.c:116-119 | Sequence numbers follow the accepted sends of the stream, modulo 2^32, whatever the outcome. |
| Generator.RateLoop | firmware/main/generator.c:109-121 | Every iteration inside the interval requests the next stream in turn at its deadline, the counters are those of the requests made, and the loop ends only at the end of the interval or when the state is no longer RUNNING. |
| Generator.LatencyLoop | firmware/main/generator.c:79-107 | Every iteration requests whichever schedule is due first, probes on ties, at that deadline, the counters are those of the requests made, and the loop ends only at the end of the interval or when the state is no longer RUNNING. |
| Generator.GeneratorTask | firmware/main/generator.c:70-122 | Any run of the task, on metrics just reset, leaves a trace of the kind its mode calls for and counters that tally it. |
| GeneratorRun.ContiguousNumbering | firmware/main/generator.c:116-119 | On each stream the accepted frames are numbered contiguously from 0 in order (modulo 2^32), as many as that stream's submission counter says; a failed send uses up no number. |
| GeneratorRun.StreamsSumToTotals | firmware/main/metrics.c:48-65 | The per-stream requested and submitted counters sum to the totals the host computes loss from. |
| GeneratorRun.RequestsAccounted | firmware/main/generator.c:29-68 | Requests are submissions plus refusals plus timeouts, no accepted configuration ever fails to encode, and in scheduled modes the lateness samples are the times past the deadline of each request in order, never negative; in saturation there are none. |
| GeneratorRun.CountersInPlainTerms | firmware/main/metrics.c:48-75 | The counters of a run are the numbers of its requests, of those accepted, refused and timed out, and of each stream's requests and acceptances. |
| GeneratorRun.BytesSent | firmware/main/metrics.c:56-65 | The bytes submitted are the configured size for every accepted frame. |
| GeneratorRun.MixedBytesSent | firmware/main/generator.c:90-100 | Under latency-under-load they are the probe size for each accepted probe and the background size for each accepted background frame. |
| GeneratorRun.InstantsSent | firmware/main/metrics.c:63-64 | The first and last dispatch instants are those of the first and last frames accepted, on a timer past 0. |
| GeneratorRun.Fairness | firmware/main/generator.c:114 | Requests of any two configured streams differ by at most one, the lower numbered ahead, and other streams get none. |
| GeneratorRun.LatencyStreams | firmware/main/generator.c:88-106 | Stream 15 carries the probes and nothing else, and background frames are spread fairly over the streams below. |
| GeneratorRun.OnePerMicrosecond | firmware/main/generator.c:84-111 | A run makes no more requests than its duration has microseconds. |
| GeneratorRun.DeadlineIsExact | firmware/main/generator.c:95-112 | With the accepted durations no deadline computation of either loop wraps, whatever the rate. |
| GeneratorRun.OnSchedule | firmware/main/generator.c:111-121 | A paced run is on the exact schedule of its total rate, waits at most a second (in fact a rounded-up period) and makes at most the rounded-up number of periods plus one requests; what that rate is for each stream is `StreamSchedule`. |
| GeneratorRun.StreamSchedule | firmware/main/generator.c:109-120 | Each stream is on its own schedule: request j * streams + k is on stream k, due (j * streams + k) * 10^6 / (rate per stream * streams) after the start, which for stream 0 is exactly j * 10^6 / rate per stream; in saturation the turns are the same without deadlines. Size is the configured one and the type ping in ping mode only. |
| GeneratorRun.Merged | firmware/main/generator.c:85-106 | The deadlines used under latency-under-load are the ordered merge of the two exact schedules, probes first on ties, none skipped. |
| GeneratorRun.MergedInPlainTerms | firmware/main/generator.c:84-107 | With p probes and b background frames requested before it, a request is the probe due p * 10^6 / probe rate after the start, on stream 15, if that is not later than b * 10^6 / background rate, and else the background frame due then, on stream b modulo the streams configured, 15 at most. |
| GeneratorRun.NeitherRunsAhead | firmware/main/generator.c:84-107 | At every loop head, after p probes and b background frames, the last probe was due no later than the next background frame and (b-1) times the probe rate is below p times the background rate. |
| GeneratorRun.MergeIsOrdered | firmware/main/generator.c:85-87 | The deadlines used never go back and no wait exceeds a second. |
| NodeControl.StateMovesForward | firmware/main/control.c:338-416 | Each step of a node whose host waits for an answered stop keeps a live generator in RUNNING or FINISHED, moves the state only forward between configures with FINISHED and ERROR final, and answers a result only in FINISHED with no generator. |
| NodeControl.OrderlyLife | firmware/main/control.c:338-416 | The same over a node's whole life from boot, through any number of configures and runs. |
| NodeControl.RunMovesForward | firmware/main/generator.c:124-126 | Whatever a node's life was before, from arm to the next configure the state only moves forward, and FINISHED and ERROR are final. |
| NodeControl.GuardedLife | firmware/main/generator.c:124-126 | While no configure is accepted with a live generator, no last write ever meets CONFIGURED or ARMED. |
| NodeControl.ConfigureIsSafeOnlyWithoutLiveGenerator | firmware/main/control.c:338-360 | Of every node reachable under any host, an accepted configure can be overwritten if and only if a generator short of its last write is alive. |
| NodeControl.LateGeneratorOverwritesConfigured | firmware/main/control.c:391-399 | A life from boot in which a stop times out, a configure succeeds and the old generator's last write overwrites CONFIGURED. |
| NodeControl.LateGeneratorOverwritesError | firmware/main/generator.c:124-126 | A life from boot in which a configure fails at the radio between the old generator's check and its last write, which turns ERROR into FINISHED. |
| NodeControl.ForeignCommandsChangeNothing | firmware/main/control.c:361-365 | Whatever commands naming another run a node is sent, in any number, executing them changes nothing but their answers, which are all false. |
| NodeControl.CommandsByState | firmware/main/control.c:338-412 | Each command is taken up in its own states and for the configured run only, with the state it leaves, and a refused one leaves its answer and nothing else. |
| TwoNodeRun.MoveInStep | firmware/main/control.c:317-418 | A node holds only requests the host program issued, answers each at most once, and never takes an ok answer back. |
| RunSafety.RunKeepsInvariant | host/src/runner.rs:62-86 | The invariant of both nodes, the air and the host program holds on every run of the two-node system. |
| RunSafety.ReceiverReadyForEveryFrame | host/src/runner.rs:62-74 | In every prefix of the program, while a frame of the run from A is on the air or queued at B, B has the run's id, is measuring, and was armed before. |
| RunSafety.NoOwnFrameIsStale | firmware/main/receiver.c:88-93 | No frame of the run is ever dropped as stale at either node. |
| RunSafety.ReportedLossMeaning | host/src/output.rs:133-146 | On every completed run the host's loss is the frames A submitted and B had not processed, less the late repeats, with the exact condition for equality, and equals missing plus trailing loss when nothing was late. |
| RunHistory.ArrivalsOnlyGrow | firmware/main/control.c:365-373 | From the moment the host asks A to start, no reset clears what B has counted: its arrivals only grow, and its report holds all of them. |
| RunHistory.ReportHoldsTheQueue | firmware/main/control.c:403-415 | A result answered once everything queued when it began is processed reports what was counted by then followed by every queued frame of the run, in order. |
| RunHistory.EveryEchoAnswersAPing | firmware/main/receiver.c:95-109 | Every echo of the run that reaches A answers a ping A put on the air in this run, with the stream, sequence number and timestamp A wrote; that there are such echoes in a ping run, and in no other, is `CompletedRun.PingRunExists` and `RunRoles.EchoesOnlyInPingRuns`. |
| RunRoles.RolesOfTheRun | host/src/runner.rs:53-64 | On every run, once its configure was answered ok, B is an echo responder if and only if it is a ping run and a sink otherwise, and A a ping initiator or a generator accordingly. |
| RunRoles.EchoesOnlyInPingRuns | host/src/runner.rs:53-64 | On every run an echo of the run is on the air or queued only in a ping run, comes from B, and finds both nodes in their roles. |
| RunRoles.EveryPingMayBeEchoed | firmware/main/receiver.c:95-109 | In every ping run B may echo each ping of the run it has before it, and the echo is then on the air. |
| RunRoles.EverybodyReadyFirst | host/src/runner.rs:60-74 | Whenever a frame of the run exists, both nodes were configured, armed and started, B before A was asked to start. |
| RunRoles.OnlyStopsMayFail | host/src/runner.rs:60-86 | A failed or unanswered request ends the program for good, so that nothing more is ever asked, unless it is one of the two stops; otherwise the next request is made. |
| CompletedRun.CompletedRunExists | host/src/runner.rs:62-86 | A completed run exists: two frames sent, one lost, a loss of one reported. |
| CompletedRun.PingRunExists | host/src/runner.rs:53-86 | A completed ping run exists: B, an echo responder, answers A's ping, the echo reaches A's inbox, and each node reports the one frame of the other. |
| Distribution.SortPrefix | firmware/main/metrics.c:188 | The retained samples become their sorted arrangement in place and the rest of the buffer is untouched. |
| Distribution.SortedIgnoresOrder | firmware/main/metrics.c:165-170 | Two series with the same samples, each as often, sort to the same series. |
| Distribution.RankIsUnique | firmware/main/metrics.c:172-179 | At most one value has a given rank: at least r samples no larger and fewer than r smaller. |
| Distribution.Ceiling | firmware/main/metrics.c:175-177 | For a proper quantile taken as an exact fraction the rank is the true ceiling and lies within 1..n, so the clamps never act. |
| Distribution.PercentileMeaning | README.md:46 | A percentile is the sample of rank ceil(q * N), however the samples were arranged. |
| Distribution.NearestRank | firmware/main/metrics.c:172-179 | On sorted samples it is the percentile, and 0 when there are none, the quantile being an exact fraction. |
| Distribution.HostPercentile | host/src/output.rs:28-35 | The host's rank rule gives the same percentile for every slice, left sorted, the quantile being an exact fraction. |
| Distribution.PercentilesAreOrdered | firmware/main/metrics.c:197-201 | A larger quantile never has a smaller percentile. |
| Reservoir.SampleDistribution.Add | firmware/main/metrics.c:23-37 | For any hash, count, sum, sum of squares, minimum and maximum stay exact over every clamped value, and the reservoir keeps some of them, each at most as often as added, all of them until it is full; a full one takes the value into slot hash modulo count if that is inside, and nothing else moves. |
| Reservoir.SampleDistribution.Retain | firmware/main/metrics.c:31-36 | The reservoir afterwards is the one before with the value at its end while there is room, then with the value in slot hash modulo count if that is inside, then unchanged. |
| Reservoir.SampleDistribution.Report | firmware/main/metrics.c:186-203 | The report gives the percentiles of what is retained and the exact mean and variance of every value added; sorting in place neither loses nor invents a sample. |
| Reservoir.WholePopulation | README.md:46 | Up to the capacity each percentile is that of every value ever added, as the host would compute it. |
| Reservoir.ReportIsOrdered | firmware/main/metrics.c:195-202 | Minimum, p50, p90, p95, p99, p999 and maximum are in order, and the ends are those of all values added. |
| Reservoir.PercentagesReported | firmware/main/metrics.c:197-201 | Of the retained samples at least 50, 90, 95, 99 and 99.9 percent are at or below p50, p90, p95, p99 and p999, and less than that strictly below; each is one of them. |
| Reservoir.ReportedMoments | firmware/main/metrics.c:189-191 | The exact mean lies between minimum and maximum and the exact variance is never negative. |
| Reservoir.ReportIsOfThePopulation | host/src/output.rs:28-35 | Up to the capacity the whole report agrees with the host's percentiles over all values. |
| Moments.VarianceIsNotNegative | firmware/main/metrics.c:190-203 | N times the sum of squares is at least the squared sum, so the clamp of the variance can only undo rounding. |
| Moments.JitterBounds | firmware/main/metrics.c:144-156 | Largest step, spread, sum of steps and count times largest step bound one another in that order. |
| Moments.JitterIsOfTheSteps | firmware/main/metrics.c:147-153 | The jitter sum is the sum of the absolute differences of successive round trips and the jitter maximum the largest of them. |
| Moments.SumsAddUp | firmware/main/metrics.c:26-28 | Sum and sum of squares add up over any split of the samples and are those of a single sample. |
| Metrics.RxMetrics.Receive | firmware/main/metrics.c:122-133 | After any frame the totals, bytes and receive window are those of all frames received and every stream's window describes its own arrivals. |
| Metrics.RxMetrics.EstimatedLoss | firmware/main/metrics.c:211-213 | The estimated loss is the gaps of all streams, as their histories determine them. |
| Metrics.StreamsSumToTotals | firmware/main/metrics.c:128-133 | The per-stream received, duplicate and out-of-order counters sum to the totals. |
| Metrics.RssiMetrics.Record | firmware/main/metrics.c:135-142 | Count, sum, extremes and every histogram bucket are those of the samples recorded. |
| Metrics.HistogramIsComplete | firmware/main/metrics.c:139-142 | The histogram sums to the number of samples. |
| Metrics.BucketMeaning | firmware/main/metrics.c:139-142 | Bucket i holds the readings of i - 127 dBm, the first also all weaker and the last all stronger ones. |
| Metrics.StrengthAddsUp | firmware/main/metrics.c:136 | The sum of the readings adds up over any split of them and is that of a single reading. |
| Receiver.HistogramCountsPackets | firmware/main/metrics.c:135-142 | The signal-strength count is the number of packets received, and the histogram array sums to it. |
| Metrics.MinimumIsExact | firmware/main/metrics.c:137 | The stored minimum is a sample and no sample is below it. |
| Metrics.MaximumExactUnlessAllAtFloor | firmware/main/metrics.c:43-138 | The stored maximum is a sample if and only if some sample is above -128. |
| Metrics.RttMetrics.Time | firmware/main/metrics.c:144-156 | Each frame is timed once, and jitter sum, count and maximum stay those of the successive differences of the round trips; what a round trip is, is `RoundTripsRecorded`. |
| Metrics.RoundTripsRecorded | firmware/main/metrics.c:144-155 | Whatever frames were received, there is one sample for each echo not earlier than its stamp, and sample k plus the timestamp of the k-th of them is the time it arrived, unless the difference needs more than 32 bits, when it is 0xFFFFFFFF. |
| Metrics.OneSamplePerEcho | firmware/main/metrics.c:144-155 | With echoes never earlier than their stamp, round-trip samples are the echoes received, repeats included. |
| Metrics.RttMetrics.JitterReport | firmware/main/metrics.c:252-256 | The reported jitter count is one below the sample count, the sum that of the absolute successive differences, and largest, spread, sum and count times largest are in order. |
| Receiver.ReceiverTask.Hear | firmware/main/receiver.c:79-98 | A frame is received, stale or invalid exactly as its header, the run id and the state say; the events handled balance; an echo is asked for exactly when a received ping meets an echo responder, and carries the same header with the type changed. |
| Receiver.ReceiverTask.Note | firmware/main/receiver.c:67-82 | Completion, drop and barrier events are counted once each and never as frames. |
| Receiver.ReceiverTask.Configure | firmware/main/control.c:338-360 | It is refused with nothing changed in ARMED, in RUNNING and for an invalid configuration; a failure at the radio leaves ERROR, which keeps frames counted under the old run id out of the new run's measurement unless a generator was between its check and its last write. |
| Receiver.ReceiverTask.GeneratorWrites | firmware/main/generator.c:124-126 | The last write leaves FINISHED whatever the state has become since the check, and run isolation holds but for the exception above. |
| Receiver.ReceiverTask.Arm | firmware/main/control.c:365-373 | It succeeds exactly in CONFIGURED, starting from empty counters and keeping the run id, and otherwise changes nothing. |
| Receiver.Dequeue | firmware/main/receiver.c:83-98 | The receive metrics change exactly when the frame is received, by that one frame, and every frame counted is of the configured run. |
| Receiver.JudgedOnce | firmware/main/receiver.c:83-94 | No frame fits two verdicts. |
| Receiver.JudgedOnTheWire | firmware/main/receiver.c:83-94 | Received means that the bytes lay out a header of one of the 16 streams and of the configured run, in ARMED, RUNNING or FINISHED; stale that only such a header is there; invalid that it is not. |
| Receiver.EchoIsTimedFromPing | firmware/main/receiver.c:95-101 | The bytes of an echoed frame, when received, give back the header of the frame that was echoed, timestamp included. |
| Codec.Put64 | firmware/main/protocol.c:4 | Two 32-bit writes are the eight big-endian bytes of the number, and nothing else changes. |
| Codec.Encode | firmware/main/protocol.c:8 | It succeeds exactly when header size <= packet length <= capacity, writes the header, and leaves all other bytes alone. |
| Codec.Decode | firmware/main/protocol.c:9 | It accepts exactly the whole frames that carry a header of one of the 16 streams, and re-encoding what it returns reproduces their first 28 bytes. |
| Codec.HostDecode | host/src/protocol.rs:39-62 | It accepts exactly the whole frames that carry a header, and gives each reason for refusing in its order. |
| Codec.OneHeader | firmware/main/protocol.c:9 | A frame carries at most one header. |
| Codec.OnTheWire | firmware/main/protocol.c:2-9 | A frame carries a header if and only if its bytes lay it out: "ESPN", version 1, type, and the other fields big-endian at offsets 6, 8, 12, 14, 16 and 20, in a frame as long as the header says. |
| Codec.RoundTrip | host/src/protocol.rs:24-62 | What was encoded is decoded unchanged by both ends; the firmware refuses it if and only if the stream is 16 or above. |
| Codec.DecodersAgree | host/src/protocol.rs:39-62 | The host accepts what the firmware accepts, with equal fields, and beyond it exactly the streams out of range. |
| Codec.EchoRewrite | firmware/main/receiver.c:96 | Rewriting byte 5 gives a frame whose only header is the same with the type changed. |

## Left out

- TxFence, NodeControl and TwoNodeRun are transition systems over values because their tasks run concurrently: every
  interleaving of the steps is covered, but not the in-place update of one structure by several tasks, nor relaxed
  memory order. `metrics_reset` is one step.
- RunHistory.ReportHoldsTheQueue: that the queue was processed is a hypothesis there; `TxSafety.DrainIsFence` gives it for
  drains with at most two flushes outstanding, in the model of one node's queue.
- NodeControl.StateMovesForward: `dispatch` is a function of the node's state up to its first slow call, not a method on
  shared variables.
- Metrics.RxMetrics.Receive: keeps the 16 windows as a sequence of values, not as records updated through a pointer;
  `StreamMetric.Observe` shows the in-place update to do the same.
- SequenceWindow.StreamMetric.Observe: 64-bit counters are natural numbers; sequence numbers past 2^32 are outside the
  tracker's design, and the two-node system sends only below it.
- GeneratorRun.OnSchedule: `start + duration` is taken not to overflow the 64-bit timer.
- Distribution.Ceiling: the quantile is an exact fraction; the code multiplies doubles, whose rounding could move a rank
  by one when the exact product is an integer.
- Distribution.NearestRank: as for the ceiling, the rounding of the product of doubles is not modelled.
- Distribution.HostPercentile: as for the ceiling, the rounding of the product of doubles is not modelled.
- Reservoir.SampleDistribution.Add: sums are unbounded and the hash of the sample count is any number, so nothing is
  claimed about uniformity.
- Codec.Encode: null pointers and the fill of the bytes after the header are not modelled.
- Reservoir.SampleDistribution.Report: mean and variance are exact numbers rather than doubles, and the square root of
  the variance is not taken.
- Rates, and the host's probe figures for several ping streams, where it reads one stream's submissions against the round
  trips of all.
- Tick arithmetic of `generator_wait_stopped`: a bounded wait that succeeds only when no generator is alive.
- String and range parsing of `parse_config` beyond the numeric ranges the generator needs, and host-side validation.
- Wi-Fi and ESP-NOW setup, rate tables, peers, country and channel calls; JSON, serial input and output, discovery, the
  command line, and output files.
- Task priorities beyond the one assumed above, and tick rates: any other interleaving and any timeout the waits allow is
  possible.
