# Tick-driven CPU scheduling policies, modelled in Dafny

This project models the three scheduling policies of a discrete-time CPU
scheduling simulator: round robin (`rr_scheduler`), non-preemptive shortest
job first (`sjf_scheduler` with `dequeue_shortest_job`) and a three-level
feedback queue with periodic boost (`mlfq_scheduler` with its helpers).
A driver calls the policy once per tick with the clock, the ready queue and
the one-slot CPU; the policy advances the running task by one tick, may emit
a completion message and refills an empty CPU.

Each policy's tick is a pure function. Ready queues are `seq<Pcb>` (append at
the tail, remove at the head), the CPU slot is `Option<Pcb>`, and the
completion message becomes an optional `Done(pid, time)` event in the result.
The MLFQ scheduler's file-scope variables (`Q0`, `Q1`, `Q2`, `current_level`,
`current_q_used`, `last_boost_ms`) become the immutable record `Mlfq.State`,
passed in and returned by every tick.

Files:

- `process.dfy` (module `Process`): the process record `Pcb`, the `Done`
  event, the tick length `TicksMs` (10 ms), queue head removal and the
  drain loop shared by all policies.
- `round_robin.dfy` (module `RoundRobin`): the one-tick-quantum round robin.
- `sjf.dfy` (module `Sjf`): the scan-and-restore selection and the
  non-preemptive tick.
- `mlfq.dfy` (module `Mlfq`): the feedback queue.

The model follows the code where it differs from its own comments or from the textbook form of these policies:

- The MLFQ comments promise quanta of 1, 2 and 4 ticks for the three levels.
  The code uses one constant `MLFQ_QUANTUM_TICKS = 50` at every level, and so
  does `Mlfq.MlfqQuantumTicks`.
- The level is not stored per process. It is one scheduler-wide
  `current_level`, set from the queue the running task was taken from. It is
  left as it was when all three queues are empty.
- The SJF restore loop does not keep the waiting tasks in their old order.
  A task that was the shortest so far and is displaced by a shorter one goes
  back behind the tasks seen since it. For required times 5, 7, 3 the 3 is
  selected and the queue becomes 7, 5 (`Sjf.ReorderExample`).
- Round robin has a fixed quantum of one tick and no quantum counter.
- A task whose required time is 0 completes on its first tick in the CPU,
  because the test is `elapsed + TICKS_MS >= time_ms`.

## Model

| member | source | states |
|---|---|---|
| Process.Drain | scheduler_examples/mlfq.c:52-54 | Moving every task of a source queue, head first, to the tail of a destination queue yields the destination followed by the source, in order. The same loop appears at mlfq.c:63-64 and sjf.c:50-52. |
| Process.TicksLeft | scheduler_examples/rr.c:17-20 | The number of ticks a task spends in the CPU before it completes is at least one. It is exactly one iff one advance of 10 ms reaches the required time. |
| Process.TicksLeftClosedForm | scheduler_examples/rr.c:17-20 | That tick count in closed form: 1 if the required time is at most 10 ms past the elapsed time, otherwise the remaining time divided by 10 ms, rounded up. |
| Mlfq.EnqueueLevel | scheduler_examples/mlfq.c:29-37 | The task is appended to Q0 for a level at or below 0, to Q1 for level 1 and to Q2 above that. The other two queues and the scheduler variables are unchanged, and the bag of queued tasks gains exactly that task. |
| Mlfq.DequeueNextByPriority | scheduler_examples/mlfq.c:39-47 | Returns nothing, with the state unchanged, exactly when all three levels are empty. Otherwise it returns the head of a level l, every level above l was empty, l becomes the current level, and only level l loses its head. |
| Mlfq.Ingest | scheduler_examples/mlfq.c:49-55 | Q0 becomes old Q0 followed by all arrivals in order. Nothing else in the state changes. |
| Mlfq.BoostDueElapsed | scheduler_examples/mlfq.c:58 | The boost test compares the unsigned 32-bit difference of the clock and the last boost time with 100 ms. This is the plain difference without wrap-around, and the time across the wrap otherwise. |
| Mlfq.MaybeBoost | scheduler_examples/mlfq.c:57-66 | When the boost is due, Q1 and Q2 end empty, Q0 is old Q0 then Q1 then Q2, and the last boost time is the clock. Otherwise the state is unchanged. The bag of queued tasks is the same either way. |
| Mlfq.Admit | scheduler_examples/mlfq.c:70-74 | After arrivals and boost, the levels hold the old queued tasks plus all arrivals. The current level and the quantum counter are unchanged. |
| Mlfq.Demote | scheduler_examples/mlfq.c:96-101 | A preempted task is appended to the tail of level min(current level + 1, 2), or to Q0 if the current level is below 0, as `enqueue_level` does. The other levels are untouched and the quantum counter restarts at 0. |
| Mlfq.RunCpu | scheduler_examples/mlfq.c:76-104 | A Done with the task's pid and the clock is emitted iff the advanced elapsed time reaches the required time. The CPU is then freed and the counter reset. Otherwise the task is demoted iff counter + 1 reaches the quantum, whatever its level. If not, it keeps the CPU, and only its elapsed time and the counter change. Tasks are conserved. |
| Mlfq.Dispatch | scheduler_examples/mlfq.c:106-110 | A busy CPU is left alone. An empty CPU stays empty exactly when all levels are empty, and the quantum counter becomes 0 either way. Tasks are conserved. |
| Mlfq.MlfqTick | scheduler_examples/mlfq.c:68-111 | The ready queue ends empty. Completion happens iff the advanced elapsed time reaches the required time, and carries the pid and the clock. The counter ends below the quantum and is 0 on an idle CPU. |
| Mlfq.TickConserves | scheduler_examples/mlfq.c:68-111 | After a tick, the ready queue, the three levels and the CPU hold the tasks held before. The CPU task is advanced, and the completed task, if any, is missing. |
| Mlfq.TickKeepsValid | scheduler_examples/mlfq.c:79-110 | If the current level is in 0..2 and the counter is in 0..49 before a tick, both stay in those ranges after it. |
| Mlfq.InitialValid | scheduler_examples/mlfq.c:19-26 | The starting values, empty queues, level 0, counter 0 and last boost 0, are in bounds. |
| Mlfq.BoostEmptiesLowerLevels | scheduler_examples/mlfq.c:70-74 | With the boost due, arrivals and boost leave Q0 as old Q0, arrivals, Q1, Q2 in that order, Q1 and Q2 empty, and the last boost time equal to the clock. |
| Mlfq.DispatchByPriority | scheduler_examples/mlfq.c:106-110 | For a free CPU, the new CPU task is the head of Q0 if Q0 is non-empty, else of Q1, else of Q2, and the current level becomes that index. If all levels are empty the CPU stays empty and the level is unchanged. |
| Mlfq.RunsOn | scheduler_examples/mlfq.c:94-110 | From any levels, a task that neither finishes nor uses up its quantum stays in the CPU through the run and dispatch steps. Nothing is emitted and only the counter moves. |
| Mlfq.KeepsRunning | scheduler_examples/mlfq.c:94-103 | A task that neither finishes nor uses up its quantum stays in the CPU. The counter grows by one, the level stays, and the queues are those left by arrivals and boost. |
| Mlfq.QuietTick | scheduler_examples/mlfq.c:68-111 | With no arrivals, no boost due and such a task, the tick changes nothing but the task's elapsed time and the counter. |
| Mlfq.DemoteAndRedispatch | scheduler_examples/mlfq.c:95-110 | With the level and counter in bounds, no arrivals and no boost due, a task that uses up its quantum is demoted. If the levels above its new level are empty, the head of the new level takes the CPU at once. That head is the demoted task itself if the level was empty. The current level becomes the new level and the counter is 0. |
| Mlfq.CompletedTaskGone | scheduler_examples/mlfq.c:81-93 | If no other task shares the completed task's pid, no task with that pid remains in any queue or the CPU after the tick. |
| Mlfq.SoleTaskStep | scheduler_examples/mlfq.c:94-110 | A task alone in the scheduler, with no arrivals, that does not finish is in the CPU again after the tick, with its elapsed time advanced and the levels empty. |
| Mlfq.SoleTaskRunStep | scheduler_examples/mlfq.c:94-110 | For a sole unfinished task, a run of ticks continues after its first tick from empty levels with the advanced task in the CPU, and that tick emits nothing. |
| Mlfq.SoleTaskLastTick | scheduler_examples/mlfq.c:81-93 | A one-tick run of a task that finishes on that tick emits exactly its Done, stamped with that tick's clock. |
| Mlfq.SoleTaskCompletesOnTime | scheduler_examples/mlfq.c:76-93 | A task alone in the scheduler completes after exactly TicksLeft ticks, not earlier. Demotions and boosts do not delay it, and its Done is the only event. |
| Sjf.FirstMinIndex | scheduler_examples/sjf.c:30-46 | Reference for the selection: an index whose required time is no larger than any other, with every earlier task strictly longer. |
| Sjf.ScanStep | scheduler_examples/sjf.c:32-45 | One loop pass ends holding some task, and the held and parked tasks together gain exactly the dequeued task. |
| Sjf.ScanFrom | scheduler_examples/sjf.c:30-46 | The scan ends empty-handed exactly when it started empty-handed on an exhausted queue. The held and parked tasks together are the starting ones plus the rest of the queue. |
| Sjf.ScanSelects | scheduler_examples/sjf.c:30-46 | Started as the source starts it, the scan ends holding the first task of minimal required time. The parked queue has one task fewer, and its j-th entry is the j-th dequeued task, or the shortest-so-far it displaced if that task is strictly shorter. |
| Sjf.DequeueShortestJob | scheduler_examples/sjf.c:17-56 | Returns nothing and an empty queue exactly on an empty queue. Otherwise it returns the first task of minimal required time, no longer than any remaining task. The remaining queue is the old one less exactly that task. |
| Sjf.RestOrder | scheduler_examples/sjf.c:30-55 | The j-th entry of the remaining queue is the j-th dequeued task, or the shortest-so-far it displaced if that task is strictly shorter. |
| Sjf.HeadShortestKeepsOrder | scheduler_examples/sjf.c:38-52 | When the head is already a shortest task, it is selected and the rest keeps its order. |
| Sjf.ReorderScan | scheduler_examples/sjf.c:30-46 | Over required times 5, 7, 3 the scan holds the 3 at the end, parks the 7 first and the displaced 5 second. |
| Sjf.ReorderExample | scheduler_examples/sjf.c:38-52 | Required times 5, 7, 3 select 3 and leave 7 before 5, so the restore does not keep the old order. |
| Sjf.SjfTick | scheduler_examples/sjf.c:58-81 | Completion happens iff the advanced elapsed time reaches the required time, and carries pid and clock. An unfinished task keeps the CPU and the queue is untouched. A freed CPU gets the shortest job from the queue, and stays free only on an empty queue. |
| Sjf.TickConserves | scheduler_examples/sjf.c:58-81 | After a tick, the queue and the CPU hold the tasks held before. The CPU task is advanced, and the completed task, if any, is missing. |
| Sjf.DispatchIsShortest | scheduler_examples/sjf.c:77-80 | A dispatched task comes from the ready queue and is no longer than any task left waiting. |
| Sjf.CompletedTaskGone | scheduler_examples/sjf.c:63-74 | If no waiting task shares the completed task's pid, no task with that pid remains after the tick. |
| Sjf.RunStep | scheduler_examples/sjf.c:59-62 | While the running task is unfinished, a run of ticks continues after its first tick with the same queue, the advanced task in the CPU, and no event. |
| Sjf.LastTick | scheduler_examples/sjf.c:63-75 | A one-tick run of a task that finishes on that tick emits exactly its Done, stamped with that tick's clock. |
| Sjf.RunsToCompletion | scheduler_examples/sjf.c:59-75 | Whatever waits in the queue, the running task keeps the CPU for exactly TicksLeft ticks. Its Done, stamped with the last tick's clock, is the only event. |
| RoundRobin.RrTick | scheduler_examples/rr.c:14-44 | Completion happens iff the advanced elapsed time reaches the required time, and carries pid and clock. An unfinished task is appended to the tail and the head of the resulting queue is dispatched. Otherwise the head of the queue is dispatched, if any. |
| RoundRobin.TickConserves | scheduler_examples/rr.c:14-44 | After a tick, the queue and the CPU hold the tasks held before. The CPU task is advanced, and the completed task, if any, is missing. |
| RoundRobin.SoleTaskRedispatched | scheduler_examples/rr.c:33-43 | A sole unfinished task is requeued and dispatched again in the same tick, and the ready queue ends empty. |
| RoundRobin.UnfinishedTaskYields | scheduler_examples/rr.c:33-43 | With others waiting, an unfinished task gives the CPU to the queue's head and waits last. |
| RoundRobin.CompletedTaskGone | scheduler_examples/rr.c:20-31 | If no waiting task shares the completed task's pid, no task with that pid remains after the tick. |
| RoundRobin.RunStep | scheduler_examples/rr.c:33-43 | For a sole unfinished task, a run of ticks continues after its first tick with nothing waiting, the advanced task in the CPU, and no event. |
| RoundRobin.LastTick | scheduler_examples/rr.c:20-31 | A one-tick run of a sole task that finishes on that tick emits exactly its Done, stamped with that tick's clock. |
| RoundRobin.SoleTaskCompletesOnTime | scheduler_examples/rr.c:14-44 | A task running alone completes after exactly TicksLeft ticks. Its Done, stamped with the last tick's clock, is the only event. |

## Left out

- Sending the completion message: `write` to the task's socket, `perror` and `free` (mlfq.c:83-91, sjf.c:64-72, rr.c:21-30). Completion is the returned `Done` event. A failed write is not fatal in the source, and the task is removed either way, so the model does not look at it. The socket descriptor is not a field of `Pcb`.
- The implementations of `queue_t`, `enqueue_pcb` and `dequeue_pcb`, and the header that defines `TICKS_MS` and `pcb_t`, are not part of this model. Queues are sequences with tail append and head removal. `TICKS_MS` is taken as 10 ms, the value mlfq.c:14 states.
- Elapsed and required times are unbounded naturals, so a wrap-around of the elapsed-time counter is not modelled. The clock and `last_boost_ms` are unsigned 32-bit, and the boost subtraction wraps explicitly.
- The NULL-pointer guard of `dequeue_shortest_job` (sjf.c:19-21): a sequence cannot be a null pointer. An empty queue gives the same NULL result.
- The unused `blocked_q` parameter of `mlfq_scheduler`.
- The driver loop, the arrival generator and the message transport. Arrivals are the ready queue passed to a tick, and each tick takes its clock as a parameter.
- Unique pids are not enforced, because the source does not check them. The `CompletedTaskGone` lemmas take "no other task has this pid" as a hypothesis.
- Mlfq.MlfqTick: the bounds on the current level and the counter are proved in `Mlfq.TickKeepsValid`, and conservation of tasks in `Mlfq.TickConserves`, rather than in the tick's own contract. This makes the tick's contract weaker on its own, but together they state the full property.
- Sjf.SjfTick: conservation of tasks is proved in `Sjf.TickConserves` rather than in the tick's own contract.
- Sjf.DequeueShortestJob: the order of the remaining queue is proved in `Sjf.RestOrder` rather than in the function's own contract.
- RoundRobin.RrTick: conservation of tasks is proved in `RoundRobin.TickConserves` rather than in the tick's own contract.
