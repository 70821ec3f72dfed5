# A verified model of the cooperative scheduler library

This project models the C99 scheduler library in three layers and proves properties of each over
whole histories. Everything the hardware, the callbacks and the passing of time decide enters as a
parameter, so each theorem quantifies over every such behaviour.

**Scheduler.** `SchedulerModel` has the slot table, the statistics, the background cursor and one
scheduling cycle as functions on values. The cycle is written once for two clocks: `Wrapped` is the
program's `uint32_t` arithmetic, `Unbounded` never wraps. A callback is any sequence of actions:
time passing, registrations, statistics resets. `Scheduler` is the program's own form, arrays
updated in place by loops, each method proved equal to its step on the `Wrapped` clock. On top:

- `Ticks`: the closed-form release advance, the catch-up loop it replaces, the half-range rule;
- `CycleOrder`: the slot table in every reachable state; a cycle runs exactly what is due, in order;
- `Callbacks`: how long executions take and what they register, read off the callbacks' actions, for
  whole cycles;
- `TickRefinement`: 32-bit ticks and unbounded time make the same decisions over whole histories;
- `ReleaseAccounting`: no drift, and how executions relate to nominal releases;
- `Registration`: which slots a step fills, from the main line or from inside a callback, and the
  release grid of each task from its registration on;
- `ResponseTime`: a response-time bound and a schedulability condition;
- `BackgroundFairness`: the exact round-robin schedule of background tasks;
- `StatsFold`: statistics as folds of the execution log;
- `OverrunStatistics`: the overrun counter of a schedulable task never moves.

**Rings.** `BoundedQueue` is the abstract queue with its history; `RingBytes` is the ring over raw
bytes with its index arithmetic, proved to refine the queue; `RingBuffer` is the class over a byte
array; `TypedRing` carries encoded elements (`Codec`), with 16-bit elements it is the event queue.
One critical section is one atomic step, so a history is any interleaving of producer and consumer.

**Services.** `FsiModel` is a machine of atomic steps in which interrupts fall between any two steps
of a run; `FsiThroughput` treats uninterrupted runs, bursts and backlogs. `FsiDelivery` ties the calls of the handlers to what the interrupts were given. `MotorModel`
(the fault latch), `MotorLatency` (what a run sends, and how long a fault waits) and `UartModel`
treat their services with uninterrupted runs; `MotorHistory` and `UartHistory` account for all that
interrupts and callers put in since initialisation. `FsiService`, `MotorService` and
`UartService` are the classes, built on the rings and proved against the models.

`Arithmetic` holds the facts about quotients and remainders by a variable divisor.

## Where code and documentation differ

- `src/scheduler.c:63` promises the first release strictly after now for valid periodic tasks. Seen
  through the scheduler's own comparison this holds exactly when the computed release is at most
  2^31 ticks away (`Ticks.AdvanceUnreachedIff`, witness `Ticks.AdvanceFailsAboveHalf`).
- `include/scheduler/scheduler.h` offers any start delay; one above 2^31 makes the first release
  count as reached at once (`Ticks.StartDelayHonouredIff`, witness `Ticks.StartDelayFailsAboveHalf`).
- Line 102 of the repository's own `README.md` says background tasks run when no periodic task is
  ready; the code runs one in every cycle, after the periodic phase (`BackgroundFairness.CyclePicks`).
- `docs/motor_supervision_service.md:16` says the command is applied each run; the code skips it
  when there is no hint and nothing queued (`MotorLatency.RunActsIffWork`, witness
  `MotorLatency.CommandNotApplied`).
- A byte refused by the UART hardware goes to the back of the queue, so order is kept exactly when
  nothing is refused or all bytes from the refused one on are equal (`UartModel.RunOrderIff`,
  witness `UartModel.RefusalReorders`).
- Resetting statistics from inside a callback clears the start stamp that the scheduler reads back,
  so the recorded duration is then wrong (`StatsFold.DurationRecordedIff`, witness
  `StatsFold.ResetInCallbackMisrecords`).

## Model

| member | source | states |
|---|---|---|
| Ticks.ReachedIsOrder | src/scheduler.c:56-58 | within half the tick range the signed comparison of 32-bit ticks is the order of the unbounded times |
| Ticks.LateReleaseSeenIff | src/scheduler.c:47-48 | outside that range: a past release is judged reached iff its lateness modulo 2^32 is below 2^31 |
| Ticks.ProductDoesNotWrap | src/scheduler.c:84-85 | for every lateness below 2^31 and every period, neither the number of releases to skip nor its product with the period reaches 2^32 |
| Ticks.AdvanceWraps | src/scheduler.c:74-86 | the 32-bit release advance is the unbounded one modulo 2^32, for every period |
| Ticks.AdvanceUnreachedIff | src/scheduler.c:60-86 | the advanced release counts as not yet reached iff it lies at most 2^31 ticks ahead; always so for periods up to 2^31 |
| Ticks.AdvanceFailsAboveHalf | src/scheduler.c:74-86 | a period above 2^31 whose advanced release is already judged reached |
| Ticks.AdvanceIsCatchUp | src/scheduler.c:60-86 | for periods up to 2^31 the closed form equals the loop "while reached, add one period", which terminates |
| Ticks.AdvanceMeansNextRelease | src/scheduler.c:60-86 | the result lies 1..period ticks after now and a whole number of periods after the old release |
| Ticks.AdvanceIsFirstAfter | src/scheduler.c:60-73 | on unbounded time the advance is strictly after now, by at most one period, and leaves a future release alone |
| Ticks.StartDelayHonouredIff | src/scheduler.c:158 | a task is not due at registration iff its start delay is in 1..2^31 |
| Ticks.StartDelayFailsAboveHalf | src/scheduler.c:158 | a start delay above 2^31 whose task is already judged due when it is registered |
| CycleOrder.FreshIsBoundary | src/scheduler.c:93-121 | initialisation frees every slot with the lowest priority, clears every statistic, puts the cursor at slot 0 and leaves nothing pending |
| CycleOrder.AddTaskIsDense | src/scheduler.c:135-174 | registration returns the next dense id and fills exactly that slot, or fails only for a null callback or a full table; the free-slot search never comes back empty |
| CycleOrder.DispatchEffect | src/scheduler.c:300-352 | one dispatch logs the slot's own callback and context, plans its next release, changes no other registered slot and judges overrun against the planned release |
| Callbacks.PerformEffect | src/scheduler.c:318 | a list of callback actions, on any valid state: the time that passes, the slots filled, the statistics left |
| Callbacks.InvokeEffect | src/scheduler.c:311-332 | one execution carries out its callback: end time, slots filled and all statistics follow from the callback's actions, resets included |
| Callbacks.DispatchCarriesOut | src/scheduler.c:300-352 | a dispatch carries out its callback: start, end and completion follow from its actions, and the slots filled are exactly its non-null requests in order, each at its own time, until the table is full |
| Callbacks.PhaseCarriesOut | src/scheduler.c:291-353 | the k-th dispatch carries out the k-th callback, each begins when the one before has completed, and the phase takes the sum of their times |
| Callbacks.BackgroundCarriesOut | src/scheduler.c:355-396 | the background step carries out its callback if a background task is registered and idles otherwise |
| Callbacks.CycleCarriesOut | src/scheduler.c:275-397 | the same for a whole cycle: every execution's times, the time it ends, and exactly the slots its callbacks filled |
| Callbacks.MainCarriesOut | src/scheduler.c:135-174 | a step of the main line takes effect at once: time, the slot filled, the statistics left |
| Callbacks.ResetInCallbackLeaves | src/scheduler.c:400-410 | a callback that resets statistics leaves one execution in its own slot, its duration counted from tick zero, and nothing in the others |
| CycleOrder.PeriodicPhaseRunsWaiting | src/scheduler.c:291-353 | the dispatch loop runs each waiting slot once, in order, and ends with nothing pending; 64 iterations always suffice |
| CycleOrder.CycleRunsExactlyDue | src/scheduler.c:275-353 | one cycle runs exactly the tasks due at its snapshot in strictly increasing (priority, slot) order and changes only their releases, whatever callbacks do |
| CycleOrder.CycleRunsEachOnce | src/scheduler.c:291-353 | no task runs twice in the periodic phase of one cycle |
| CycleOrder.BackgroundStepEffect | src/scheduler.c:355-396 | the background step logs at most one execution, of a registered background task with its own callback and context, and changes no registered slot |
| CycleOrder.ReachableAtBoundary | src/scheduler.c:93-397 | between cycles of every history: registered slots are a dense prefix, the cursor is below 64, nothing is pending |
| TickRefinement.CycleWraps | src/scheduler.c:275-397 | a cycle on 32-bit ticks is the cycle on unbounded time with releases taken modulo 2^32 |
| TickRefinement.CycleKeepsWindow | src/scheduler.c:291-353 | after a cycle each release lies between its snapshot and 2^31 ticks from now |
| TickRefinement.HistoryWraps | src/scheduler.c:47-397 | over every history that keeps the half-range rule both clocks give the same executions, times, overrun verdicts, statistics and table |
| TickRefinement.TicksRefineUnboundedTime | src/scheduler.c:47-397 | the same from initialisation on |
| ReleaseAccounting.ReleaseTimeline | src/scheduler.c:195-216 | the release is always first release plus (nominal releases up to the last snapshot) times period, and executions are the snapshots that found a new release |
| ReleaseAccounting.ExecutionsVersusReleases | src/scheduler.c:300-309 | executions never exceed nominal releases and equal them iff no snapshot found two new ones |
| ReleaseAccounting.FrequentObservationsSkipNothing | src/scheduler.c:280-283 | ascending snapshots that begin at most one period after some time before the first release, each at most one period after the last, skip no release |
| Registration.StepNewSlot | src/scheduler.c:135-174 | the slots a step fills hold the requests made in it, in order, by the main line or by an executed callback after the snapshot, each with its first release at the time of the request plus the start delay |
| Registration.NewTaskNeverDrifts | src/scheduler.c:135-216 | on 32-bit ticks, for every periodic task registered by any step of a history that keeps the half-range rule, inside callbacks included: its release is the time of its request plus delay plus (nominal releases up to the last snapshot) times period, modulo 2^32; it runs at most once per nominal release, exactly once iff none is skipped, as when the snapshots come before the second release and then at most a period apart |
| Registration.RegisteredTaskNeverDrifts | src/scheduler.c:135-174 | the same for a request of the main line, which takes the next free slot at once |
| ResponseTime.EveryExecutionInTime | src/scheduler.c:275-353 | with fixed periodic tasks and bounded callbacks each execution completes before its release plus one cycle span plus the work dispatched up to it; if that fits the period it neither overruns nor skips |
| ResponseTime.SchedulableTaskServesEveryRelease | src/scheduler.c:275-353 | a schedulable task executes each nominal release up to the last snapshot exactly once |
| ResponseTime.SchedulableTaskNeverOverrunsOnTicks | src/scheduler.c:338-352 | on 32-bit ticks no execution of a schedulable task is judged an overrun |
| OverrunStatistics.SchedulableTaskCountsNoOverrun | src/scheduler.c:338-352 | on 32-bit ticks, without resets inside callbacks, the overrun counter of a schedulable task stays what it was after the setup, or is zero once the main line has reset statistics |
| BackgroundFairness.SelectionIsNearest | src/scheduler.c:252-265 | the selected background slot is the one at least cyclic distance from the cursor, and none is selected iff there is none |
| BackgroundFairness.CyclePicks | src/scheduler.c:355-397 | every cycle executes exactly one background task if one is registered and moves the cursor just past it |
| BackgroundFairness.FirstPickIsLowest | src/scheduler.c:252-265 | the first background execution after initialisation, whenever it comes, is of the lowest background slot |
| BackgroundFairness.BackgroundRunsWithinDistance | src/scheduler.c:252-265 | also while tasks are being registered, a background task runs within as many cycles as its distance from the cursor plus one, at most 64 |
| BackgroundFairness.RoundRobin | src/scheduler.c:252-265 | while the set of background tasks stays fixed at n, whatever periodic tasks are registered, every cycle runs one and the t-th execution is task x iff t is congruent to its initial rank modulo n |
| BackgroundFairness.EveryWindowRunsEachOnce | src/scheduler.c:252-265 | any n consecutive background executions contain each of the n tasks exactly once |
| BackgroundFairness.FairShare | src/scheduler.c:252-265 | after N executions each task has run N/n times, or one more: counts differ by at most one |
| StatsFold.SummaryAppend | src/scheduler.c:321-331 | the statistics update extends the summary of a task's executions by one |
| StatsFold.StatisticsAreFolds | src/scheduler.c:311-352 | in every history without resets inside callbacks each slot sums up its task's executions since initialisation or reset: count, total and overruns modulo 2^32, maximum, last stamps |
| StatsFold.StatisticsFromInitialisation | src/scheduler.c:112-114 | the same from the cleared statistics of initialisation on |
| StatsFold.MissCountStaysZero | src/scheduler.c:202-206 | no history ever counts a miss |
| StatsFold.UndispatchedMarksAreMisses | src/scheduler.c:195-216 | a due task marked n + 1 times without a dispatch in between has its miss count raised by n |
| StatsFold.DurationRecordedIff | src/scheduler.c:374-383 | the recorded duration is right iff the callback did not reset statistics or started at tick zero |
| StatsFold.ResetInCallbackMisrecords | src/scheduler.c:374-383 | a callback of 3 ticks that resets the statistics and is recorded with 8 |
| Scheduler.Port.NowTicks | include/scheduler/port/scheduler_port.h:18-26 | a reading is the unbounded clock modulo 2^32 |
| Scheduler.Scheduler.Init | src/scheduler.c:93-121 | establishes the initial state, whatever the slots held |
| Scheduler.Scheduler.AddTask | src/scheduler.c:135-174 | new state and result are those of the model's registration |
| Scheduler.Scheduler.MarkPeriodicReady | src/scheduler.c:195-216 | marks exactly the due tasks and counts misses of those already pending |
| Scheduler.Scheduler.SelectPendingTask | src/scheduler.c:225-243 | returns the waiting slot first in (priority, slot) order, or none |
| Scheduler.Scheduler.SelectBackgroundTask | src/scheduler.c:252-265 | returns the first background slot from the cursor and moves the cursor past it |
| Scheduler.Scheduler.Execute | src/scheduler.c:311-332 | stamps, callback and statistics update of one execution |
| Scheduler.Scheduler.RunPeriodic | src/scheduler.c:291-353 | the dispatch loop is the model's periodic phase |
| Scheduler.Scheduler.Run | src/scheduler.c:275-397 | a whole cycle in place is the model's cycle on the wrapped clock, with the same log |
| Scheduler.Scheduler.ResetStats | src/scheduler.c:400-410 | clears every statistics slot and nothing else |
| BoundedQueue.EveryHistoryAccounted | src/isr_buffer.c:60-109 | over every interleaving: pushes = pops + contents + drops; drop-oldest holds the newest pushes, drop-newest passes on exactly what it accepted; order of arrival is kept |
| BoundedQueue.StartAccounted | src/isr_buffer.c:34-41 | the queue after initialisation satisfies that accounting |
| BoundedQueue.NewestKeptPush | src/isr_buffer.c:60-89 | a drop-oldest queue keeps holding the newest of what was pushed, with every push taken, queued or dropped |
| BoundedQueue.NewestKeptTake | src/isr_buffer.c:91-109 | so it does when the oldest elements are taken |
| RingBytes.WriteOneCell | src/isr_buffer.c:80-81 | copying into one cell leaves every other cell's bytes as they were |
| RingBytes.PushWritesOneCell | src/isr_buffer.c:80-81 | a push changes no byte outside the head cell |
| RingBytes.PushRefines | src/isr_buffer.c:60-89 | a byte-level push is the queue's push, status included, and keeps head = (tail + count) mod capacity |
| RingBytes.PopRefines | src/isr_buffer.c:91-109 | a byte-level pop returns the bytes pushed, oldest first |
| RingBytes.RingHistory | src/isr_buffer.c:19-109 | over every history of pushes and pops from initialisation: contents, head, tail and drops as functions of what was pushed, popped and dropped, for every capacity and element size |
| RingBuffer.RingBuffer.Init | src/isr_buffer.c:19-45 | succeeds iff storage, sizes and mode are valid, gives an empty ring, and changes nothing on failure |
| RingBuffer.RingBuffer.Reset | src/isr_buffer.c:47-58 | empties a configured ring and its counters, restarting its history |
| RingBuffer.RingBuffer.Push | src/isr_buffer.c:60-89 | in place: the byte-level push, the queue's push and its status; rejected without effect when unconfigured |
| RingBuffer.RingBuffer.Pop | src/isr_buffer.c:91-109 | in place: the byte-level pop and the queue's pop; nothing from an empty or unconfigured ring |
| RingBuffer.RingBuffer.Size | src/isr_buffer.c:111-120 | the number of elements queued |
| RingBuffer.RingBuffer.DropCount | src/isr_buffer.c:122-131 | the number of drops modulo the counter width |
| RingBuffer.RingBuffer.IsFull | src/isr_buffer.c:137-146 | full iff the queue holds its capacity |
| Codec.RecordRoundTrip | include/scheduler/services/fsi_service.h:26-32 | a record survives its byte encoding |
| Codec.FeedbackRoundTrip | include/scheduler/services/motor_supervision_service.h:26-29 | a feedback sample survives its byte encoding, signed current included |
| TypedRing.TypedRing.Push | src/isr_buffer.c:160-166 | pushing an element is the queue's push of that element |
| TypedRing.TypedRing.Pop | src/isr_buffer.c:168-174 | popping returns the element pushed, oldest first |
| FsiModel.EveryInterleavingConserves | src/services/fsi_service.c:14-161 | at every point of every interleaving: captured = consumed + in flight (at most one) + queued + dropped, in order; each handler was called with exactly the consumed records of its tag; no run exceeds its budget |
| FsiModel.InitialInv | src/services/fsi_service.c:46-67 | the initialised service is at rest, configured as told, with nothing queued or flagged, and satisfies that invariant |
| FsiModel.RunIsInterleaving | src/services/fsi_service.c:119-161 | a whole run, with any interrupts before each of its atomic steps, is exactly that interleaving of handlers and task steps up to the first rest, reached at an empty ring or with the budget used up |
| FsiModel.ReturnsEarlyIff | src/services/fsi_service.c:125-133 | a run gives up after its work check iff no event bit was set as it began and the ring is empty at the check |
| FsiModel.RunKeepsInv | src/services/fsi_service.c:119-161 | so a whole run, however interrupted, keeps that invariant |
| FsiModel.DeliverEffect | src/services/fsi_service.c:141-159 | delivery calls exactly the handler of the record's tag, with that record, if the HAL has it; no other call log changes |
| FsiDelivery.HandlersSeeInterrupts | src/services/fsi_service.c:78-117 | at every point of every interleaving each handler was called, in order, only with channel, frame index and status of interrupts of its own kind, tagged by it, errors with frame index 0; with all of them once nothing is queued, in flight or dropped |
| FsiDelivery.InterruptsReachHandlers | src/services/fsi_service.c:78-161 | interrupts that fit the ring, then enough quiet runs: each handler present is called with exactly those of its kind |
| FsiDelivery.NewestRecordsQueued | src/services/fsi_service.c:14-39 | a service that drops the oldest records holds the newest, with every record consumed, in flight, queued or dropped |
| FsiDelivery.EventBitsFromInitialisation | src/services/fsi_service.c:35-38 | the event bits tell exactly which kinds of interrupt were flagged since a run last began |
| FsiThroughput.QuietRunDrains | src/services/fsi_service.c:125-160 | an uninterrupted run consumes the oldest records up to its budget and clears the event bits |
| FsiThroughput.EventBitsAreAdvisory | src/services/fsi_service.c:125-133 | uninterrupted runs that differ in event bits end in the same state with the same calls |
| FsiThroughput.BacklogDrainsInExactly | src/services/fsi_service.c:136-139 | without arrivals n records are gone after exactly ceil(n / budget) runs |
| FsiThroughput.BurstsNeverDrop | src/services/fsi_service.c:136-160 | bursts of at most sigma + rho * m per m windows, with rho within the budget and sigma + rho within the capacity, never cause a drop; the backlog stays within sigma + rho |
| FsiThroughput.BurstsLoseNothing | src/services/fsi_service.c:14-161 | under such bursts every record captured is consumed or queued, in order |
| FsiService.FsiService.Init | src/services/fsi_service.c:46-67 | succeeds iff budget, storage, capacity and mode are valid, and starts empty |
| FsiService.FsiService.Isr | src/services/fsi_service.c:14-39 | encodes the record into the ring and sets its event bit |
| FsiService.FsiService.Drain | src/services/fsi_service.c:135-160 | the budgeted loop, with interrupts before each atomic step, is the machine's loop |
| FsiService.FsiService.Run | src/services/fsi_service.c:119-161 | a run with any interrupts between its steps is the machine's run |
| MotorModel.EveryHistoryLatched | src/services/motor_supervision_service.c:50-145 | the motor is enabled or given a speed only while the last command enables it and no fault was consumed since, with the commanded speed; each consumed fault is answered at once by a disable |
| MotorModel.InitialLatched | src/services/motor_supervision_service.c:24-29 | the initialised service satisfies that latch |
| MotorModel.FaultHoldsUntilReenabled | src/services/motor_supervision_service.c:130-145 | over every history from initialisation: from a consumed fault until the next enabling command every enable passes false and no speed is set |
| MotorLatency.FaultConsumedInTime | src/services/motor_supervision_service.c:135-145 | if fewer events than the capacity are queued behind a fault at position p, that very fault is among the events taken by one of the first ceil((p + 1) / budget) runs |
| MotorLatency.FaultDisablesInTime | src/services/motor_supervision_service.c:141-144 | and that run logs its consumption, answers it at once with a disable, and leaves the motor disabled |
| MotorLatency.RunsNeededIsCeiling | src/services/motor_supervision_service.c:136 | the number of runs in that bound is the least k with p + 1 <= k * budget |
| MotorLatency.DrainEffect | src/services/motor_supervision_service.c:135-145 | the event loop takes the oldest events up to its budget; the trace gains exactly their consumptions in order, each fault followed at once by a disable |
| MotorLatency.RunEffect | src/services/motor_supervision_service.c:113-155 | the exact trace of a run with work: the latest enable, the target speed iff enabled, then the answers to the events taken; both queues lose their oldest elements up to their budgets |
| MotorModel.FeedbackOnlyDrains | src/services/motor_supervision_service.c:147-154 | the feedback loop takes the oldest samples up to its budget and changes nothing else |
| MotorLatency.RunActsIffWork | src/services/motor_supervision_service.c:125-133 | a run sends the latest command iff there was a hint or something queued; otherwise it sends nothing; the hint is cleared either way |
| MotorLatency.CommandNotApplied | src/services/motor_supervision_service.c:125-133 | an enabled service whose next run sends nothing |
| MotorHistory.EveryHistoryAccounts | src/services/motor_supervision_service.c:50-155 | from initialisation: samples read are taken, queued or dropped, one event per interrupt is consumed, queued or dropped, the newest being queued and order kept; the commands on record are the caller's; the hint tells of an interrupt since the last run |
| MotorHistory.OnlyFaultsDisable | src/services/motor_supervision_service.c:141-144 | without a fault interrupt the motor is enabled exactly as last commanded |
| MotorHistory.FaultInterruptDisablesInTime | src/services/motor_supervision_service.c:93-155 | from initialisation: whatever came before a fault interrupt, one of the next ceil((p + 1) / budget) runs, p being the events ahead of it, consumes that very fault and disables the motor, if fewer interrupts than the event capacity follow meanwhile |
| MotorService.MotorService.Init | src/services/motor_supervision_service.c:9-41 | succeeds iff both budgets and both rings are valid, and starts disabled and empty |
| MotorService.MotorService.SetCommand | src/services/motor_supervision_service.c:50-60 | stores the command |
| MotorService.MotorService.IsrFeedback | src/services/motor_supervision_service.c:67-86 | queues the sample, if one was read, and always the event |
| MotorService.MotorService.IsrFault | src/services/motor_supervision_service.c:93-106 | queues the fault event |
| MotorService.MotorService.Run | src/services/motor_supervision_service.c:113-155 | a run in place is the model's run |
| UartModel.DrainTxSends | src/services/uart_service.c:122-132 | the send loop writes the oldest bytes up to its budget; a refused byte, and no other, goes to the back; nothing is dropped |
| UartModel.RunEffect | src/services/uart_service.c:102-142 | a run sends as the loop does, takes the oldest received bytes up to its budget and clears both hints |
| UartModel.EveryHistoryConserves | src/services/uart_service.c:89-132 | over every history accepted bytes are, with multiplicity, those written plus those queued |
| UartModel.InitialConserved | src/services/uart_service.c:24-33 | the initialised service is conserving and in order |
| UartModel.NoRefusalKeepsOrder | src/services/uart_service.c:122-132 | without refusals written followed by queued bytes is the accepted sequence |
| UartModel.RunOrderIff | src/services/uart_service.c:128-131 | a run keeps the order iff nothing was refused or all bytes from the refused one on are equal |
| UartModel.RefusalReorders | src/services/uart_service.c:128-131 | two bytes that leave in the opposite order after one refusal |
| UartModel.HintsAreAdvisory | src/services/uart_service.c:108-120 | runs that differ only in hints end in the same state with the same bytes written |
| UartHistory.SendEffect | src/services/uart_service.c:89-95 | a byte offered for sending is queued last and accepted iff the send ring has room, and counted as dropped otherwise |
| UartHistory.EveryHistoryAccounts | src/services/uart_service.c:43-142 | from initialisation: bytes received are taken, queued or dropped, the newest being queued and order kept; bytes offered for sending are accepted in order or counted as dropped; each hint tells of its interrupt since the last run |
| UartService.UartService.Init | src/services/uart_service.c:9-36 | succeeds iff both budgets and both rings are valid, and starts empty |
| UartService.UartService.QueueTx | src/services/uart_service.c:89-95 | accepts a byte iff the send ring has room |
| UartService.UartService.IsrRx | src/services/uart_service.c:43-59 | captures the byte read, if any, and sets the hint |
| UartService.UartService.SendLoop | src/services/uart_service.c:122-132 | pop, attempted write and push-back in place are the model's send loop |
| UartService.UartService.Run | src/services/uart_service.c:102-142 | a run in place is the model's run |

## Left out

- Port hooks other than the tick source, hardware access, the examples and the idle hook beyond the time it takes.
- Critical sections as code: each is one atomic step; memory ordering and nested interrupts within one handler belong to the port.
- Trace hooks, `sch_enable_task` (a no-op by design), `sch_get_task_stats`, null service and ring pointers, and the acknowledge hooks of the services.
- Callbacks that re-enter `sch_run` or `sch_init`, or write scheduler fields.
- The Ethernet, IPC and I2C services: the same drain machine as FSI with other payloads.
- Interrupts inside a motor or UART run, and producers queueing UART bytes between a pop and its push-back; the FSI machine treats interrupts at every step.
- Event-bit values are followed only as far as a run looks at them: zero or not.
- The width of `size_t` is taken as 32 bits for the drop counter; no other ring field can reach it.
- Multi-byte elements are encoded least significant byte first; any fixed encoding would do.
- Periodic tasks registered while a response-time bound is claimed: the bound is a sum over the periodic tasks.
- Statistics as folds over histories whose callbacks reset them: each such execution is described on its own.
