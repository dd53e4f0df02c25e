# CNSBench, modelled and proved in Dafny

CNSBench is a Kubernetes operator that runs storage benchmarks. This project models the
parts of it that compute something: the goroutines that time its operations and how they
are stopped, the life of a Benchmark object, the replay of audit logs into durations, the
splitting of captured HTTP/2 traffic into CSI calls, the filling of workload templates, the
numbering and topping up of workload instances, and the barrier that makes pods start
together. Kubernetes, sockets, JSON and clocks are parameters.

`dafny verify dfyconfig.toml` checks everything.

## How it is laid out

| files | what they are about |
|---|---|
| `TriangleWave`, `RateMachine`, `Deliveries`, `RateStops`, `Handoff` | one rate goroutine, its timers and the channel they share in both directions, as a machine whose steps interleave freely |
| `StopProtocol`, `Fairness` | all rates and operation routines of a benchmark, the messages that stop them, and infinite fair runs |
| `Lifecycle`, `Phases` | the reconciler as a class, all runs of it, and when a benchmark moves from one phase to the next |
| `AuditLog`, `Replay`, `Matching`, `Kinds`, `Entries` | log entries, the one-pass replay, what the records it closes have to do with each other, and what each entry does to it |
| `BoundJoin`, `Reports`, `Parsers`, `Results` | the nested-loop join, elapsed times, the batch and the streaming parser, and what they report |
| `Suppression`, `Refinement` | exactly when the two parsers close and report the same |
| `Frames`, `Demux`, `Blocks` | a reference for header blocks and streams that looks at the whole frame sequence, the one-pass loop proved against it, and what a stream holds |
| `Captures` | assembling captured directions and pairing them in any order |
| `GrpcWire`, `CsiCalls`, `Tallies`, `Pairing`, `Reported` | message and path formats, reading a pair of streams, and the calls of a whole capture |
| `Template` | chained replacement against simultaneous substitution |
| `TopUp`, `Counts`, `PodInstances`, `JobInstances`, `InstanceController` | instances of a workload, their numbers and how many are kept going, interleaved with completions |
| `Barrier` | the polling script and all interleavings of the pods that run it |
| `Wrappers` | shared types |

Where the source has loops and fields there are methods and classes, and their contracts
tie them to functions or state machines; the theorems are lemmas about those. Where several
goroutines or pods interleave there is a state machine with one event per atomic step, and
theorems quantify over all sequences of events.

## What turned out

Properties that hold as one would wish are in the table. These do not, and for each there is
the condition under which they do:

- Stopping a rate can leave the rate and its timer blocked on each other for ever. This can
  happen to a rate exactly when its first timer ever ticks (`ShutdownDeadlockIff`), and to a
  given blocked stop exactly when the timer has polled with a full count (`ParkedFate`).
- A turning point cannot deadlock if a one-second sleep outlasts the few instructions
  between the receive and the stop send (`HandoffNeverDeadlocks`; `Prompt` in `RateMachine`
  is that assumption). Without it, `HandoffDeadlockIff` says exactly which rates can.
- A completed benchmark keeps its entry in the map of control channels. If another finalizer
  holds the object, its deletion stops the rates a second time with nobody listening, and
  the reconciler blocks (`BlocksIff`). With a rate of unknown kind the known ones before it
  are started and stopped again in every pass (`AttemptsOnceIff`).
- The streaming parser refuses a creation while any record of the same name is in progress,
  the batch parser does not. Both close the same records exactly when the batch parser
  closes no refused creation (`SameClosedIff`). The streaming parser tests for a resource
  called "pod" where records say "pods", so its branch for pods is dead (`PodBranchIsDead`),
  and the reports agree exactly as `StreamingAgreesIff` says.
- Identifiers of directions run addresses and ports together and can collide
  (`IdentCollides`). What is paired is independent of the order of a map exactly when
  pairing is mutual (`OrderFreeIff`), a collision makes it depend on the order
  (`CollisionBreaksPairing`), and separate identifiers make it mutual
  (`SeparateIsUnambiguous`, `UnambiguousIsReciprocal`).
- A creation that fails during the first launch of bare pods leaves a hole in the numbers
  for good (`ContiguousIff`). A pass then comes short by the numbers in its range that are
  taken (`TopsUpIff`), at most as many as were skipped (`ShortBySkipped`). Jobs are counted
  together with their pods, and a pass comes short by the jobs that have a running pod
  (`JobPassIff`).
- A sync script that asks for the size of its group while pods are missing, or gets no
  answer, can let its pod start early (`AskingTooEarlyIff`).

## Model

| member | source | states |
|---|---|---|
| TriangleWave.ClosedForm | pkg/rates/rates.go:73-87 | with min < max, the counter after t ticks is the triangle wave of period 2(max - min), and it is rising exactly in the first half of a period |
| TriangleWave.NeverTurns | pkg/rates/rates.go:73-87 | with min >= max the counter climbs for ever |
| TriangleWave.StaysInRangeIff | pkg/rates/rates.go:73-87 | the counter stays between its bounds for ever if and only if min < max |
| TriangleWave.IncDecLoop | pkg/rates/rates.go:61-95 | the loop without its channels sends the closed-form wave sampled at the ticks at which the consumer is ready |
| RateMachine.OneTimerStep | pkg/rates/rates.go:19-95 | every step of a rate and its timers, under any interleaving, keeps the wave and the rule that only the newest timer is alive; no timer ever takes another timer's tick for a stop |
| RateMachine.SentWaveStep | pkg/rates/rates.go:88-92 | every step keeps what the consumer received a subsequence of the wave |
| RateMachine.EveryRunKeepsInv | pkg/rates/rates.go:19-95 | in every run at most one timer can operate on the shared channel, outside a turn it is the increment timer exactly when the counter rises, the counter is on the wave, and the consumer received a subsequence of it |
| Deliveries.DeliversTheWave | pkg/rates/rates.go:51-57 | in every run the consumer gets, at each offer it is ready for and at no other time, 1 at a constant rate and otherwise the value of the wave after the ticks so far |
| Deliveries.TicksEveryInterval | pkg/rates/rates.go:19-35 | in every run each timer has ticked once for every `interval` seconds it slept, up to what it slept since its last tick |
| RateStops.DoomedForever | pkg/rates/rates.go:27-29 | a stop blocked against a timer that polled with a full count stays blocked in every continuation, and nothing can happen after at most one more step |
| RateStops.CleanStop | pkg/rates/rates.go:19-35 | otherwise every continuation has the stop taken after exactly as many steps as the timer is from its next poll, at most three |
| RateStops.ParkedFate | pkg/rates/rates.go:47-49 | a blocked stop can be released if and only if the timer is not past a full-count poll, and can end in mutual blocking if and only if it is |
| RateStops.PromptRunsAreCalm | pkg/rates/rates.go:73-87 | in every run under the timing assumption the timer to be stopped at a turn is in its sleep or back at its poll |
| RateStops.HandoffNeverDeadlocks | pkg/rates/rates.go:75-86 | under the timing assumption, for all intervals and bounds, the stop at a turn is taken within two steps of any continuation |
| Handoff.TopDeadlocks | pkg/rates/rates.go:75-79 | a run that deadlocks at the first turn, for every increment interval of at least 1 and min < max |
| Handoff.BottomDeadlocks | pkg/rates/rates.go:80-86 | a run that deadlocks at the second turn, for increment interval 0, decrement interval of at least 1 and max = min + 1 |
| Handoff.OthersNeverJam | pkg/rates/rates.go:61-95 | no run of any other rate deadlocks at a turn |
| Handoff.HandoffDeadlockIff | pkg/rates/rates.go:61-95 | without the timing assumption, some run deadlocks at a turn if and only if the rate is one of those |
| Handoff.TurnDeadlocksAreUnprompt | pkg/rates/rates.go:73-87 | every run that deadlocks at a turn breaks the timing assumption |
| RateStops.ShutdownDeadlock | pkg/rates/rates.go:47-49 | a run that ends with rate and timer blocked on each other, whenever the first interval is at least 0 |
| RateStops.ShutdownDeadlockIff | pkg/rates/rates.go:42-95 | shutdown can deadlock, even under the timing assumption, if and only if the first interval is at least 0 |
| StopProtocol.EveryTraceBalanced | controllers/benchmark_controller.go:102-146 | in every run messages still to send equal goroutines still listening |
| StopProtocol.MessagesTaken | controllers/benchmark_controller.go:137-146 | a listener takes exactly one message in a run that stops it and none otherwise |
| StopProtocol.StopReachesEveryone | controllers/benchmark_controller.go:137-146 | when the last message is sent each of the 2R goroutines has taken exactly one, and before that none more than one |
| StopProtocol.NextMessage | controllers/benchmark_controller.go:408-438 | unless only jammed rates are left, the next message gets through, after the operations in progress end |
| StopProtocol.CanSendIff | controllers/benchmark_controller.go:137-146 | the next message can get through if and only if somebody other than a rate jammed at a turn is still listening |
| StopProtocol.PromptTracesAreCalm | controllers/benchmark_controller.go:102-146 | under the timing assumption no rate of any run is jammed |
| StopProtocol.StopCanAlwaysFinish | controllers/benchmark_controller.go:137-146 | from every reachable state under the timing assumption there is a continuation in which all messages are sent |
| Fairness.OpsTakeTheirs | controllers/benchmark_controller.go:408-438 | in every strongly fair run that keeps to the timing assumption a routine that is still listening takes its message |
| Fairness.RateTakesIts | pkg/rates/rates.go:61-95 | and so does a rate that is still listening |
| Fairness.FairStopFinishes | controllers/benchmark_controller.go:137-146 | in every such infinite run a stop that has begun sends all its messages, and then nobody is listening any more |
| Lifecycle.BenchmarkReconciler.StartRates | controllers/benchmark_controller.go:102-127 | starts two listeners per rate up to the first of unknown kind, and succeeds if and only if all kinds are known |
| Lifecycle.BenchmarkReconciler.StopRoutines | controllers/benchmark_controller.go:137-146 | takes away two listeners per rate, and blocks if and only if there are fewer |
| Lifecycle.BenchmarkReconciler.Cleanup | controllers/benchmark_controller.go:70-84 | stops the rates and then drops the finalizer, which lets a deleted object go |
| Lifecycle.BenchmarkReconciler.AppendMissing | controllers/benchmark_controller.go:181-209 | appends each missing output once, whatever the order, and says whether any was |
| Lifecycle.BenchmarkReconciler.FixupSpec | controllers/benchmark_controller.go:233-235 | reports a change exactly when a default output was missing, and afterwards none is |
| Lifecycle.BenchmarkReconciler.ReconcileDeleted | controllers/benchmark_controller.go:254-263 | deletion stops the rates if a control channel entry is left, and does nothing otherwise |
| Lifecycle.BenchmarkReconciler.ReconcileRunning | controllers/benchmark_controller.go:267-315 | completes when the runtime is over or, without one, when all workloads are |
| Lifecycle.BenchmarkReconciler.ReconcileInitializing | controllers/benchmark_controller.go:316-349 | starts the rates once initialisation is done, and undoes a partial start |
| Lifecycle.BenchmarkReconciler.Reconcile | controllers/benchmark_controller.go:237-385 | one pass is one step of the world, and keeps the bookkeeping |
| Lifecycle.WellKeptStep | controllers/benchmark_controller.go:237-385 | every pass and every deletion keeps listeners at two per running rate while Running and not acted on as deleted, and at none otherwise |
| Phases.CompletesIff | controllers/benchmark_controller.go:267-315 | a pass over a running benchmark completes it if and only if it has a runtime that is over, or none and its workloads are done; then two listeners per running rate are stopped and the finalizer goes, otherwise nothing changes |
| Phases.RunsIff | controllers/benchmark_controller.go:316-349 | a pass over an initializing benchmark has it run, with two listeners per rate and a finalizer if there are rates, if and only if its workloads are initialized and every rate has one of the two intervals set; with an unknown rate nobody is left listening |
| Phases.InitializesIff | controllers/benchmark_controller.go:350-366 | a pass over a fresh benchmark starts it if and only if it has the three default outputs, and otherwise adds them |
| Phases.DeletesIff | controllers/benchmark_controller.go:254-266 | a pass over a deleted benchmark stops two listeners per rate if and only if there is a control channel for it, and blocks if fewer listen; a completed one is left alone |
| Phases.EveryRunMovesIff | controllers/benchmark_controller.go:254-385 | in every run a benchmark is complete if and only if some pass over it while it was running saw that it was over, and has got to running if and only if some pass over it while it was initializing found everything ready and its rates known |
| Lifecycle.EveryRunAdvances | controllers/benchmark_controller.go:237-385 | in every run the phase only advances, at most one phase per pass, so Complete is absorbing |
| Lifecycle.AtMostOnce | controllers/benchmark_controller.go:350-383 | the default outputs cost at most one requeue, and the rates start and stay started at most once |
| Lifecycle.AttemptsOnceIff | controllers/benchmark_controller.go:324-329 | in every run the rates are gone through at most once to start them, if and only if all are of a known kind |
| Lifecycle.StoppedTwice | controllers/benchmark_controller.go:254-266 | a run in which a completed benchmark is stopped again with no listeners |
| Lifecycle.BlocksIff | controllers/benchmark_controller.go:254-315 | some run blocks the reconciler if and only if there are rates, all of known kinds, and another finalizer can hold the object |
| AuditLog.FindLog | pkg/objecttiming/helpers.go:98-112 | finds the last record of an action and object, or -1 if there is none or it has ended |
| AuditLog.LastMatch | pkg/objecttiming/helpers.go:87-112 | the found record matches and no later one does |
| AuditLog.QuotedName | pkg/objecttiming/pvcpod.go:28-55 | the two-index scan returns the text between the first two quotes |
| AuditLog.QuotedFindsName | pkg/objecttiming/pvcpod.go:28-55 | the scan recovers the name from any message that quotes it first |
| Entries.QuotesNothing | pkg/objecttiming/pvcpod.go:39-53 | a message with fewer than two quotes names nothing |
| Matching.StepKeeps | pkg/objecttiming/parselogs.go:26-94 | whatever the tests for starting and ending creations and scales make of an entry, in their order, keeps the matching |
| Matching.ClosedFits | pkg/objecttiming/parselogs.go:42-76 | the record an entry closes has the action, object, times and goals that the entry calls for |
| Matching.FindIsLastMatch | pkg/objecttiming/helpers.go:98-112 | in every reachable state no record in progress has ended, so the early -1 is never taken |
| Matching.CloseKeeps | pkg/objecttiming/parselogs.go:42-51 | closing the most recently opened record of an object keeps the matching |
| Matching.SupersedeKeeps | pkg/objecttiming/parselogs.go:55-68 | ending a superseded scale and opening the next keeps the matching |
| Matching.EveryPrefixMatched | pkg/objecttiming/parselogs.go:26-94 | after every prefix of every log the closed records are a bracket matching of starts with later ends of the same action and object; at most one scale per object is open, with non-zero different goals; finished scales met their goals |
| Matching.EveryStartAccountedFor | pkg/objecttiming/parselogs.go:26-94 | an entry is the opening of some record if and only if it was accepted as a start, and the closing of one if and only if it ended something |
| Matching.StartsBalance | pkg/objecttiming/parselogs.go:26-94 | accepted starts equal open plus closed records after every prefix |
| Entries.CreationOpensIff | pkg/objecttiming/create.go:27-37 | in every run an entry opens a creation, with the name, kind, namespace and request time of the entry, if and only if it is a complete create request for a pod, volume or claim with code 201, and in streaming no record of that name is in progress |
| Entries.CreationClosesIff | pkg/objecttiming/create.go:39-64 | an entry closes a creation, with its stage time, labels and, for a claim, volume name, if and only if it is a complete patch or update with code 200 that shows the object Running or Succeeded, or Bound, and no later creation of the object is in progress |
| Entries.StoreIsLastShown | pkg/objecttiming/objinfo.go:13-48 | in every run the stored parallelism and replicas of an object are those of the last complete get or create of it with code 200 or 201 |
| Entries.UnshownIsUnknown | pkg/objecttiming/objinfo.go:21-33 | and nothing is stored of an object that no such entry has shown |
| Entries.ScaleOpensIff | pkg/objecttiming/scale.go:35-71 | an entry opens a scale, from what the last such entry said to what it says itself (parallelism of jobs, replicas of the others), if and only if it is a complete update or patch with code 200, both numbers are not zero and differ, and this scale is not in progress |
| Entries.UnshownNeverScales | pkg/objecttiming/scale.go:49-53 | no scale is opened of an object that no such entry has shown |
| Entries.ScaleFinishesIff | pkg/objecttiming/scale.go:73-115 | an entry finishes a scale if and only if it is a complete status update with code 200 and both statuses, in which every field that counts for the kind of object is at the goal, and it opens no scale itself |
| Entries.ScaleCutOffIff | pkg/objecttiming/parselogs.go:55-68 | an entry cuts a scale off, unfinished, if and only if it opens another one for the same object |
| Entries.NotesAttached | pkg/objecttiming/pvcpod.go:18-55 | an attach event puts its time and the quoted name on the last creation in progress of the pod it names, and does nothing else |
| Entries.NotesCreating | pkg/objecttiming/pvcpod.go:57-90 | a status patch in which every container waits to be created puts its time on the last creation in progress of the pod, if it ends no creation |
| Entries.OthersStay | pkg/objecttiming/parselogs.go:26-94 | every other entry leaves the records in progress as they are, but for those it closes and the one it opens |
| Entries.PanicsIff | pkg/objecttiming/pvcpod.go:57-67 | the program ends at an entry if and only if pods are parsed and it is a complete status patch of a pod without a status that ends no creation |
| BoundJoin.BoundTimes | pkg/objecttiming/pvcpod.go:92-105 | the nested loops with deletion in place compute the relational join |
| BoundJoin.JoinServes | pkg/objecttiming/pvcpod.go:92-105 | a claim is used up exactly when some pod carries its volume name; a pod is served exactly when it is the first to carry a claimed name, and gets the end time of the last such claim |
| BoundJoin.JoinKeepsTheRest | pkg/objecttiming/pvcpod.go:92-105 | the join changes nothing but volume names and bound times |
| Reports.DeltasAddUp | pkg/objecttiming/parselogs.go:124-154 | the four stage times differ from the duration by at most 3 microseconds, and never exceed it when the times are ordered |
| Results.DiffIsMicros | pkg/objecttiming/timing.go:30-32 | differences are whole microseconds rounded toward zero, of differences cut to 64 bits of nanoseconds |
| Results.BatchSays | pkg/objecttiming/parselogs.go:95-154 | a batch has one report for each finished record, in order, with its name, display name of the resource, namespace, labels, goals and duration, no left-over times, and each of the five stage times measured between its own two times exactly if pods are parsed and a volume was attached |
| Results.BatchCrashesIff | pkg/objecttiming/parselogs.go:128-141 | it crashes instead if and only if pods are parsed and an attached record lacks the bound time the join gives or its container time |
| Parsers.Replayer.ParseCreate | pkg/objecttiming/create.go:21-64 | the creation part does what the verdict on the entry says, on records, results and store |
| Parsers.Replayer.ParseScale | pkg/objecttiming/scale.go:35-128 | the scaling part does what the verdict says |
| Parsers.Replayer.ParsePVCPod | pkg/objecttiming/pvcpod.go:18-90 | the pod part notes the time on the pod record in progress, if there is one, and panics exactly on a patch of a pod's status that carries none |
| Parsers.Replayer.ParseLog | util/analysis/objecttiming/parselogs.go:28-101 | one entry is one step of the replay, the record it closes is appended to the results, and it panics exactly when the verdict says so |
| Parsers.CalculateDeltas | pkg/objecttiming/parselogs.go:124-154 | every finished record becomes its report, unless a pod was attached with a stage time missing |
| Parsers.BatchParse | pkg/objecttiming/parselogs.go:14-104 | the batch parser reports the join of the closed records of the whole log, or stops at the first line that does not decode or panics |
| Parsers.OutputFinishedActions | util/analysis/objecttiming/parselogs.go:104-151 | of the record that is finished it prints the report and deletes it, or, for resource "pod", holds it back without an attach time, reports its stage times, or panics on a missing one |
| Parsers.OutputAll | util/analysis/objecttiming/parselogs.go:104-151 | on records of supported resources deleting while ranging prints and removes exactly what is there, because that is at most one |
| Parsers.Callback | util/analysis/objecttiming/parselogs.go:153-159 | after every line the results are empty again, and what was printed is the record the line closed |
| Parsers.StreamParse | util/analysis/objecttiming/parselogs.go:14-167 | the streaming parser prints the closed records in order, up to the end of the log or the first entry that panics |
| Results.StreamingSays | util/analysis/objecttiming/parselogs.go:134-149 | streaming prints a finished record once for every time its namespace is listed, with its duration and whatever times are still on it |
| Results.PrintsInOrder | util/analysis/objecttiming/parselogs.go:153-159 | records are printed in the order in which they are closed |
| Kinds.StaysSupported | pkg/objecttiming/create.go:21-37 | over every run only records of supported resources exist |
| Suppression.StayInStep | util/analysis/objecttiming/parselogs.go:42-46 | if no refused creation is ever closed, then after every entry the streaming state is the batch state without the refused creations, but for notes on records that a refused one shadows |
| Suppression.SameClosedIff | util/analysis/objecttiming/parselogs.go:42-46 | for all flags and logs both parsers close the same records, by the same entries, if and only if the batch parser closes none of the creations that streaming refuses |
| Suppression.SamePanics | util/analysis/objecttiming/parselogs.go:84-95 | and then they panic at the same entries |
| Refinement.SameRuns | util/analysis/objecttiming/parselogs.go:42-46 | both parsers go through the same states on a log in which no creation is suppressed |
| Refinement.StreamingRefinesBatch | util/analysis/objecttiming/parselogs.go:14-167 | with creation parsing off, for every log and list of namespaces, streaming prints the batch answer restricted to the namespaces, in order |
| Refinement.StreamingRefinesBatchForCreates | util/analysis/objecttiming/parselogs.go:14-167 | with creations and without pod parsing the same holds up to left-over volume names, if no refused creation is closed |
| Refinement.StreamingAgreesIff | util/analysis/objecttiming/parselogs.go:104-151 | for all flags, if no refused creation is closed and the batch parser does not crash: the reports agree up to left-over names and times if and only if pod parsing is off or no record in a listed namespace was attached, and agree to the letter if and only if nothing is left on any such record |
| Refinement.ReportsCrashIff | pkg/objecttiming/parselogs.go:124-154 | the batch parser crashes on its closed records if and only if pod parsing is on and an attached one lacks its bound or container time |
| Refinement.PodBranchIsDead | util/analysis/objecttiming/parselogs.go:111-133 | over every run, for all flags, no closed record takes the branch for resource "pod", so nothing is held back or panics there and no report has stage times |
| Refinement.SuppressionLosesCreations | util/analysis/objecttiming/parselogs.go:42-46 | two creations of different objects of one name, and an entry that makes the second ready while the first is in progress: the batch parser reports it, the streaming parser reports nothing |
| Refinement.ResultsInOrder | pkg/objecttiming/parselogs.go:110-154 | on a chronological log records close in the order of their end times and durations are not negative |
| Demux.Demuxer.Receive | util/analysis/csi-tracing/http2.go:63-135 | one frame moves stream infos and decoder as the reference moves, and fails if and only if the block it completes does not decode |
| Demux.FramesToStreams | util/analysis/csi-tracing/http2.go:44-145 | for every interleaving each stream is the projection the reference describes: frames in order, blocks whole and decoded in completion order, time of the last accepted frame; it fails if and only if some block does not decode |
| Demux.OtherEvent | util/analysis/csi-tracing/http2.go:115-134 | stray continuations and frames of other streams change nothing of a stream |
| Demux.OnlyLastOpen | util/analysis/csi-tracing/http2.go:95-103 | only the last block of a stream can be open, so headersIndex is right |
| Demux.CompletionsAreBlocks | util/analysis/csi-tracing/http2.go:104-132 | what is fed to the decoder at an event is a block of the reference complete at that event, and the other way round |
| Blocks.StoresInOrder | util/analysis/csi-tracing/http2.go:80-115 | the headers of what a stream holds are, in order, those of its DATA, HEADERS and PUSH_PROMISE frames and no others |
| Blocks.HoldsFrame | util/analysis/csi-tracing/http2.go:81-133 | data is held as it is; a whole HEADERS or PUSH_PROMISE block, or one that a CONTINUATION with END_HEADERS ends, is decoded from its fragments after the blocks that ended before it; a pending block, or one cut off by the next, is held as its fragments so far |
| Blocks.OpenIsPending | util/analysis/csi-tracing/http2.go:95-121 | the open block of a stream is that of a frame without END_HEADERS after which no frame of the stream begins or ends a block |
| Blocks.DecodedIsCompleted | util/analysis/csi-tracing/http2.go:104-132 | the one decoder is given the blocks of all streams in the order in which they end |
| Blocks.SplitFailsIff | util/analysis/csi-tracing/http2.go:105-132 | the split fails if and only if some block does not decode after those that ended before it |
| Blocks.HasStreams | util/analysis/csi-tracing/http2.go:137-144 | the result has exactly the streams that store a frame, each with the time of the last event that stored a frame of it or added to its pending block |
| Blocks.EventsOfPackets | util/analysis/csi-tracing/http2.go:51-72 | the frames of all packets are taken in order, each with the time of its packet |
| GrpcWire.ParsePrintedMessage | util/analysis/csi-tracing/csi.go:44-60 | parsing inverts printing for every payload, and below 2^32 bytes the printed length is exact |
| GrpcWire.PrintParsedMessage | util/analysis/csi-tracing/csi.go:44-60 | an accepted frame is the printed form of its message |
| GrpcWire.ParsesIff | util/analysis/csi-tracing/csi.go:44-60 | a frame is parsed as a payload if and only if it is a zero, the length of the payload in four bytes with the highest first, and the payload |
| GrpcWire.ShiftIsShiftOr | util/analysis/csi-tracing/csi.go:46-49 | for a byte, shift-and-or on 32 bits is shift-and-add |
| GrpcWire.ParseRPCPath | util/analysis/csi-tracing/grpc.go:140-151 | the scan cuts at the last slash, and fails if and only if the path is too short or has none |
| GrpcWire.SplitJoinedPath | util/analysis/csi-tracing/grpc.go:140-151 | splitting a joined path gives back service and method for every slash-free method |
| GrpcWire.SplitsIff | util/analysis/csi-tracing/grpc.go:140-151 | a path is split into service and method if and only if from its ninth character on it is the service, a slash, and the slash-free method |
| CsiCalls.IsGRPCRequest | util/analysis/csi-tracing/grpc.go:45-73 | the loops accept exactly a header frame with the three fields followed by data only |
| CsiCalls.IsGRPCResponse | util/analysis/csi-tracing/grpc.go:76-105 | the loops accept exactly headers with both fields, data, and closing headers |
| CsiCalls.NeverBoth | util/analysis/csi-tracing/grpc.go:45-105 | no stream is both a request and a response |
| CsiCalls.ReadPairSwaps | util/analysis/csi-tracing/grpc.go:23-38 | swapping the two ends gives the same call with the same client |
| CsiCalls.ReadIff | util/analysis/csi-tracing/grpc.go:19-38 | a pair of streams is read as a call if and only if one has the frames and fields of a request and the other those of a response; the client is at the source of the request, path and authority are its first fields of those names, and each message and time comes from its own stream |
| CsiCalls.PassedOverIff | util/analysis/csi-tracing/grpc.go:30-38 | it is passed over if and only if they are no such pair, or call a method that is not known |
| Captures.ParsePackets | util/analysis/csi-tracing/pcap.go:13-35 | packets are filed under the identifier of their direction |
| Captures.AssembledPackets | util/analysis/csi-tracing/pcap.go:24-33 | when no two captured directions and opposites share an identifier, every direction holds exactly its own packets in order |
| Captures.IdentTellsPorts | util/analysis/csi-tracing/pcap.go:53-55 | between the same two addresses, with one port the same, identifiers are equal if and only if the other ports are |
| Captures.PortsFiledApart | util/analysis/csi-tracing/pcap.go:24-33 | of packets from one address to one port of another, those of each source port are filed in one direction of their own, complete and in order |
| Captures.ServedApart | util/analysis/csi-tracing/pcap.go:24-33 | between a client and a port of a server, whose addresses do not commute, every connection and way has one direction of its own with its packets in order, and is paired, with the other way of its connection, if and only if that was captured |
| Captures.SeparateIsUnambiguous | util/analysis/csi-tracing/pcap.go:53-55 | then the capture is unambiguous |
| Captures.UnambiguousIsReciprocal | util/analysis/csi-tracing/pcap.go:53-55 | in an unambiguous capture pairing is mutual |
| Captures.ReciprocalEnumerates | util/analysis/csi-tracing/http2.go:12-36 | when pairing is mutual, every order emits every two-way connection exactly once |
| Captures.OrderFreeIff | util/analysis/csi-tracing/http2.go:14-27 | the emitted pairs are the same for every order in which the map is gone through if and only if pairing is mutual |
| Captures.CollisionBreaksPairing | util/analysis/csi-tracing/http2.go:14-27 | after packets of two directions of which one collides with the opposite of the other, the pairs depend on the order, and in one order the two unrelated directions are taken for a connection |
| Captures.IdentCollides | util/analysis/csi-tracing/pcap.go:53-55 | there are such directions |
| Pairing.ParseConnection | util/analysis/csi-tracing/grpc.go:15-41 | in any order of streams, the calls of a connection are found, unless a message is malformed |
| Pairing.ParseRPCs | util/analysis/csi-tracing/grpc.go:11-43 | the calls found are those of all connections, as a multiset |
| Pairing.FrameStore.ExtractStreams | util/analysis/csi-tracing/http2.go:12-36 | on any capture it empties the map in some order, and emits what that order emits with both sides split into streams; it fails only if some pair cannot be split |
| Pairing.CallsFromEitherSide | util/analysis/csi-tracing/grpc.go:11-43 | a connection has the same calls seen from either of its directions |
| Reported.CountedPerStream | util/analysis/csi-tracing/grpc.go:15-41 | a call is reported of a connection as often as there are stream numbers at which both ways have a stream and the two are read as it |
| Reported.ReportsIff | util/analysis/csi-tracing/grpc.go:11-43 | an unambiguous capture reports a call if and only if the streams of some paired direction and its opposite are read as it |
| Reported.OneConnection | util/analysis/csi-tracing/grpc.go:11-43 | with one connection in the capture the calls are exactly those of that connection |
| Pairing.ParseCapture | util/analysis/csi-tracing/http2.go:12-36 | on an unambiguous capture the multiset of reported calls, and whether the program ends early, do not depend on any iteration order |
| Template.ReplaceIsFill | controllers/workload.go:367 | replacing a placeholder in the text of a template fills the holes of that name and touches nothing else |
| Template.NextVariable | controllers/workload.go:365-375 | one more replacement keeps what earlier ones filled in |
| Template.DefaultNameIff | controllers/workload.go:371-376 | an annotation key gives a default for a name if and only if it is the prefix cnsbench.default. followed by that name |
| Template.DefaultVariables | controllers/workload.go:371-376 | the loop over annotations finds exactly the defaults |
| Template.ReplaceVariables | controllers/workload.go:365-368 | in any order, the variables of a map are all filled |
| Template.ReplaceBuiltIns | controllers/workload.go:378-381 | the four built-in variables are filled after all others |
| Template.WarnsIff | controllers/workload.go:383-385 | double braces are left if and only if a hole is |
| Template.ReplaceVars | controllers/workload.go:364-388 | for every iteration order every hole becomes the variable of its name, or else the default among the annotations, or else, by name, the workload name, its capitals, the decimal of the instance number or of the number of instances, or else stays; and it warns if and only if one stays |
| Template.ItoaReads | controllers/workload.go:380-381 | numbers are written as the decimals that are read as them, without leading zeros |
| Template.UpperLetters | controllers/workload.go:379 | capitals are as far from A as the small letters are from a, and nothing else changes |
| Template.RendersHole | controllers/workload.go:367 | a hole is written as its name between double braces |
| Template.PlaceholderValuesDependOnOrder | controllers/workload.go:365-368 | with a value that is itself a placeholder the two orders give different results |
| TopUp.PassAddsFree | controllers/actions.go:344-348 | from any state, for pods and jobs: a pass that is not cut short adds as many instances as there are free numbers in its range |
| TopUp.TopsUpIff | controllers/actions.go:302-354 | a pass over bare pods tops up if and only if no number in its range is taken, and otherwise comes short by as many as are |
| TopUp.ShortBySkipped | controllers/actions.go:302-354 | over every run, however many creations failed: a pass comes short by at most as many as numbers were skipped, and by exactly that many if and only if its range reaches past all numbers that exist |
| PodInstances.EveryRunIsNumbered | controllers/actions.go:108-142 | over every run with at most one failed creation in the launch, the i-th instance has number i, or i + 1 from the failed number on |
| PodInstances.NoneIsCreatedTwice | controllers/actions.go:302-354 | over every run whose launch does not fail, numbers are 0, 1, 2, ..., every accepted creation makes a new instance, and never are more than Count not complete |
| PodInstances.PassTopsUp | controllers/actions.go:302-354 | after every pass that is not cut short, instances not complete plus those that succeeded meanwhile equal Count, or Count - 1 after exactly one failed creation in the launch |
| PodInstances.PassSkips | controllers/actions.go:310-320 | a pass that does nothing found exactly Count instances not complete, unless the launch failed |
| PodInstances.ContiguousIff | controllers/actions.go:130-140 | once the launch is over, the numbers in existence have no holes if and only if no creation in the launch failed, however many retries there were |
| JobInstances.EveryRunKeepsJobs | controllers/workload.go:478-504 | over every run of jobs whose launch does not fail, no more than Count are going and all numbers are below how many objects a pass counts |
| JobInstances.JobPassIff | controllers/actions.go:302-354 | over every such run a pass that creates anything comes short by exactly as many jobs as had a running pod when it began, so it tops up if and only if there was none |
| JobInstances.JobPassSkipsIff | controllers/actions.go:310-320 | a pass does nothing if and only if no more jobs are missing than have a running pod |
| JobInstances.JobPassNumbers | controllers/actions.go:344 | it numbers from how many jobs and pods there are, which is from how many jobs there are if and only if no pod exists |
| Counts.PassCounts | controllers/completion.go:39-94 | a pass counts as complete the pods that have succeeded, those of jobs included, and the jobs that are done, and as not complete the pods that run and the jobs that go on |
| Counts.LaunchStartsOver | controllers/actions.go:130-140 | in every run a failed creation has the launch start over, with the next number, and it ends once Count creations in a row were accepted |
| InstanceController.Controller.PodsComplete | controllers/completion.go:79-94 | the loop counts the pods that succeeded and the others, those of jobs included |
| InstanceController.Controller.JobsComplete | controllers/completion.go:139-156 | the loop counts the jobs that are done and the others |
| InstanceController.Controller.CountCompletions | controllers/completion.go:39-77 | pods and jobs under the labels are counted side by side |
| InstanceController.Controller.RunWorkload | controllers/actions.go:130-140 | the launch loop, with instances getting on in between, is a run of the machine, and returns an error if and only if a creation failed |
| InstanceController.Controller.ReconcileInstances | controllers/actions.go:302-354 | a pass over pods or jobs, with instances getting on in between, is a pass of the machine; it does nothing if enough are counted |
| Barrier.Ready | scripts/ready.sh:10-26 | the two polling loops take in a sequence of readings as the script automaton does |
| Barrier.ThresholdIsTotal | controllers/workload.go:584-590 | numContainers times count is the number of own init containers under the label |
| Barrier.EnoughMeansAll | scripts/ready.sh:10-15 | a reading that reaches the total means that all have completed, although finished scripts are counted too |
| Barrier.StepKeepsInv | scripts/ready.sh:10-26 | every step of every pod keeps the barrier's invariant |
| Barrier.NoScriptIsEarly | scripts/ready.sh:10-15 | over every run no script leaves its first loop before every own init container of its workload has completed |
| Barrier.InitialGroupInv | scripts/ready.sh:17-26 | the group invariant holds before any pod exists |
| Barrier.GroupIsNotEarly | scripts/ready.sh:17-26 | over every run in which scripts ask for the group's size in time, no script finishes before every init container of its group has |
| Barrier.AskingTooEarlyIff | scripts/ready.sh:18-22 | a script can finish too early after asking if and only if it heard less than the whole group has, while something was still to be done |
| Barrier.ScriptCanFinish | scripts/ready.sh:10-26 | once all it waits for has completed, a script can finish by itself in at most six steps, whatever it read before |
| Barrier.AllCanFinish | scripts/ready.sh:10-26 | from every reachable state there is a continuation in which all pods, containers and scripts finish |

## Left out

- Go maps shared by reference: records are values in sequences that a class reassigns, so aliasing between `ongoing` and `results` is not captured.
- Decoding: JSON, YAML, RFC 3339 times, the HTTP/2 framer, the connection preface, HPACK tables and protobuf are foreign code. Entries, frames and times come typed; the header decoder is a function of the blocks decoded before; whether a message decodes is a parameter.
- Panics on malformed JSON inside an entry and on times that do not parse. A pod status patch without a status and missing stage times are modelled as panics.
- RateMachine.EveryRunKeepsInv: timer counts and wave values are unbounded integers, so the wrap-around of a Go int after 2^63 seconds or ticks is not modelled.
- StopProtocol.StopReachesEveryone: control operations are taken to terminate, as one step that ends them.
- Fairness.FairStopFinishes: strong fairness is assumed of every single event; it is not derived from the Go scheduler.
- Lifecycle.EveryRunAdvances: API calls succeed, reads are fresh and the controller does not restart. A status update that fails after the rates were stopped leads to a second stop, and is not modelled. Finalizer changes are taken to persist with the status update.
- Workload and init checks of the reconciler: their answers are parameters of a pass.
- Refinement.StreamingAgreesIff: reports are compared where both parsers close the same records. Where they do not, different records could still print alike by coincidence of their times, and no condition is given for that.
- Replay of resources and verbs: they are enumerations with a rest case, and the nested store of last-known replicas is one map keyed by object.
- Pcap decoding, sorting and printing of calls, file watching, table and JSON output.
- Template.ReplaceVars: the order-free result is for templates whose text has no double braces of its own, brace-free names, and values that cannot begin a placeholder; on other inputs only the warning is stated.
- Template.UpperLetters: capitals of letters outside a to z are not modelled; Go has them for all of Unicode.
- PodInstances.NoneIsCreatedTwice: one document, a fresh counter, no rate that fires the workload again; a document with "parse" in its name and volumes are left out.
- JobInstances.JobPassIff: a job is taken to want one completion, and to be done some time after its pod has succeeded.
- InstanceController.Controller.CountCompletions: stateful sets and claims are not counted, because a document of a pod or a job makes none.
- Barrier.NoScriptIsEarly: all pods under a workload's label are the Count synced pods of one generation; an unanswered request reads as zero completed containers.
- `CreateVolume`, `CreateSnapshot`, `DeleteObj`, `ScaleObj`: mostly API calls that would add only easy members.
- Output containers and their volumes, and `scripts/countdone.sh`: container names repeat across outputs, so a claim about several outputs would be false.
