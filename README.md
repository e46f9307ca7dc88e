# CPU scheduling simulators

A Dafny model of the scheduling engine of a CPU-scheduling visualiser. The
engine has four deterministic simulators:

- First-Come-First-Serve (FCFS);
- non-preemptive Shortest-Job-First (SJF);
- preemptive Shortest-Remaining-Time-First (SRTF);
- Round Robin (RR), which also takes a quantum.

Each simulator takes a list of processes `{id, name, arrival, burst}` and returns:

- a Gantt chart of `{name, start, end}` bars;
- one summary record per process, with its waiting and turnaround times;
- `totalTime`, `busyTime`, and `totals` (the summed waiting and turnaround).

The repository holds two independent copies of the engine, and both are modelled.

- **`src/utlis/algorithms.js`**, the library behind the Home page. Modules `LibFCFS`, `LibSJF`, `LibRoundRobin`, `LibRoundRobinSimulator` and `LibSRTF`.
  - Idle gaps become explicit `Idle` bars, and the clock jumps straight to the next arrival.
  - SRTF merges consecutive ticks of one process into one bar.
  - RR keeps a FIFO queue of ids and an `arrivedSet`, and reads each completion back off the chart by name.
- **`src/pages/Simulation.jsx`**, the Simulator page's own copy. Modules `PageFCFS`, `PageSJF`, `PageSRTF` and `PageRR`, plus `SimulatorPage`, which holds the empty-input result and the choice of algorithm.
  - Idle time passes one tick at a time and draws nothing.
  - FCFS sorts by arrival only.
  - SRTF stretches the last bar in place.
  - RR enqueues arrivals by interval checks.

The shared vocabulary lives in three modules:

- `Scheduling`: processes, bars, records, totals, and timeline predicates.
- `Sorting`: a stable insertion sort standing in for JavaScript's stable `Array.prototype.sort`, with the three comparators the simulators use.
- `Work`: remaining-work bookkeeping, and the per-process summary built from completion ticks.

Every simulator is a `method` whose loop works on the source's own variables. The FCFS methods state their results in their own `ensures`. Each SJF, SRTF and RR method is proved to compute a ghost function, `Outcome`, which runs the same loop one pass at a time as the function `Step`, and a lemma named `Schedule` then proves what the schedule promises. Together they prove:

- every process is served, once;
- `turnaround = waiting + burst`, with waiting never negative;
- the bars tile the time from 0, or never overlap on the page;
- `busyTime` is the sum of the bursts and the total length of the busy bars;
- `totals` sum the records.

The rule that picks the next process is proved where each simulator applies it:

- FCFS: the `ensures` of `LibFCFS.SimulateFCFS` (strict (arrival, name) order) and of `PageFCFS.SimulateFCFS` (arrival order, equal arrivals in input order);
- SJF: `LibSJF.Schedule`, with the full (burst, arrival, position) tie-break, and `PageSJF.Schedule`, which leaves the order among equal bursts unstated;
- SRTF: per pass, in `LibSRTF.Shortest` and `PageSRTF.Shortest`, which each `Step` applies;
- RR: the queue order after each dispatch, in `LibRoundRobin.DispatchOrder` and `PageRR.TurnOrder`.

Process lists are values in Dafny, so the copies the source makes with `cloneProcs` and `map` need no counterpart: the caller's list cannot change.

## Model

| member | source | states |
|---|---|---|
| Scheduling.FindById | src/utlis/algorithms.js:121 | The position found holds the id and is the first such; None exactly when no process has the id. |
| Scheduling.RecordAt | src/utlis/algorithms.js:256-269 | The record of a process completing at `c` has turnaround `c - arrival` and waiting `turnaround - burst`, and keeps the process's id, name, arrival and burst. |
| Scheduling.SumsAppend | src/pages/Simulation.jsx:45-46 | Adding a record adds its waiting and turnaround to the running totals. |
| Scheduling.TurnaroundIsWaitingPlusBurst | src/utlis/algorithms.js:19-29 | Over consistent records, total turnaround = total waiting + the sum of the bursts. |
| Scheduling.Gap | src/utlis/algorithms.js:13-17 | One Idle bar `[from, to)` exactly when the clock is behind the arrival, none otherwise. |
| Scheduling.ChartAppend | src/utlis/algorithms.js:13-18 | The chart of a run-to-completion order grows by the idle gap before the next record, then that record's bar. |
| Scheduling.ChartBusy | src/utlis/algorithms.js:18-23 | The non-Idle bars of that chart add up to the sum of the bursts served. |
| Scheduling.CoveredLength | src/utlis/algorithms.js:31 | Bars that tile time from 0 have total length equal to the end of the last bar (`totalTime`). |
| Scheduling.BarsInOrder | src/pages/Simulation.jsx:19-33 | One bar per record, when each starts once the CPU is free and its process has arrived: bars in time order, never overlapping. |
| Scheduling.BarsBusy | src/pages/Simulation.jsx:28-47 | Those bars add up to the sum of the bursts. |
| Scheduling.SumBurstsPermutation | src/utlis/algorithms.js:6 | Reordering the processes keeps the sum of the bursts. |
| Scheduling.IdsCount | src/pages/Simulation.jsx:70 | With unique ids, the set of ids has as many members as there are processes, so `completed.size` reaches `processes.length`. |
| Sorting.NameLessTotal | src/utlis/algorithms.js:6 | Any two distinct names are ordered by the name comparison one way or the other. |
| Sorting.NameLessAsymmetric | src/utlis/algorithms.js:6 | The name order is asymmetric. |
| Sorting.NameLessTransitive | src/utlis/algorithms.js:6 | The name order is transitive. |
| Sorting.Sort | src/pages/Simulation.jsx:16 | The sort returns a permutation of its input that is sorted by the comparator. |
| Sorting.SortStable | src/pages/Simulation.jsx:16 | Processes the comparator calls equal keep their input order. |
| Sorting.SortUniqueNames | src/utlis/algorithms.js:6 | Sorting keeps names unique. |
| Sorting.SortUniqueIds | src/utlis/algorithms.js:6 | Sorting keeps ids unique. |
| Sorting.ArrivalNameStrict | src/utlis/algorithms.js:6 | With unique names, a list sorted by (arrival, name) is strictly ordered by that pair. |
| Work.Bursts | src/pages/Simulation.jsx:137-140 | The remaining time of every process starts at its burst. |
| Work.NextPending | src/utlis/algorithms.js:100-102 | A process with work left and the smallest arrival among those; None exactly when nothing has work left. |
| Work.FinishedUpdate | src/utlis/algorithms.js:240-243 | The count of finished processes goes up by one exactly when a remaining time reaches 0. |
| Work.LogAppend | src/pages/Simulation.jsx:176-190 | A record completing after every logged one keeps the log consistent and in completion order. |
| LibFCFS.SimulateFCFS | src/utlis/algorithms.js:5-32 | Every process is served once, in (arrival, name) order, each starting as soon as it has arrived and the previous one is done. Records are consistent, the chart tiles `[0, totalTime)` with an Idle bar only in front of a late arrival, `busyTime` is the sum of the bursts, and `totals` sum the records. |
| LibFCFS.RunInOrder | src/utlis/algorithms.js:12-31 | The loop serves the sorted list in that order, with the same timeline and sums. |
| LibFCFS.RunStep | src/utlis/algorithms.js:13-23 | One loop pass (optional Idle bar, then the process's bar, record and sums) keeps the loop invariant. |
| LibSJF.PickShortest | src/utlis/algorithms.js:47-57 | Among processes that have arrived and are not done: the one with the least burst, then earliest arrival, then earliest input position; None exactly when none is ready. |
| LibSJF.FirstArrival | src/utlis/algorithms.js:50 | Among processes not done: the earliest arrival, and the first in input order among equal arrivals; None exactly when all are done. |
| LibSJF.Step | src/utlis/algorithms.js:45-65 | A pass either serves one more process or moves the clock forward, never past the last arrival. |
| LibSJF.IdleStep | src/utlis/algorithms.js:48-54 | With nothing ready, one Idle bar up to the next arrival keeps the invariant and moves the clock forward. |
| LibSJF.PolicyStep | src/utlis/algorithms.js:56-65 | Serving the picked process keeps the policy: no process passed over was ready with a smaller (burst, arrival, position). |
| LibSJF.SimulateSJF | src/utlis/algorithms.js:34-74 | The method computes the loop's outcome. |
| LibSJF.Schedule | src/utlis/algorithms.js:45-73 | Every process served once, and records consistent. Each record starts when the CPU is free and its process has arrived, idling only when nothing is ready. No ready process with a smaller (burst, arrival, position) is passed over. The chart tiles the time from 0, ends at `totalTime`, and `busyTime` is the sum of the bursts. |
| LibRoundRobin.AdmissibleIff | src/utlis/algorithms.js:120-122 | `find` by id returns each process's own position exactly when the ids are unique (given positive bursts). |
| LibRoundRobin.ArrivalsFacts | src/utlis/algorithms.js:88-95 | `enqueueArrivals` adds distinct ids of processes that have arrived, have work left and are not yet in `arrivedSet`, and adds every such process. |
| LibRoundRobin.EnqueuedKeeps | src/utlis/algorithms.js:88-95 | After `enqueueArrivals` every arrived process with work left is queued, and the queue invariants hold. |
| LibRoundRobin.PrepareKeeps | src/utlis/algorithms.js:99-115 | The jump over an Idle gap keeps the invariant and brings the clock at least to the next pending arrival. |
| LibRoundRobin.DispatchOrder | src/utlis/algorithms.js:124-144 | A dispatch runs `min(quantum, remaining)` ticks. The queue keeps its front, then gets the newly arrived ids, then the dispatched id last if it has work left. A finished process completes at the new time and is not queued again. |
| LibRoundRobin.TurnKeeps | src/utlis/algorithms.js:120-144 | `queue.shift()` and the dispatch keep the invariant, and a non-empty queue means less work left. |
| LibRoundRobin.StepKeeps | src/utlis/algorithms.js:97-145 | A loop pass keeps the invariant: queue distinct, the chart tiling `[0, time)`, slices no longer than the quantum, busy + remaining = all bursts, `completed` counting the finished. A running pass leaves less work. |
| LibRoundRobin.RunKeeps | src/utlis/algorithms.js:97-145 | The loop ends with the invariant and not running. |
| LibRoundRobin.Finish | src/utlis/algorithms.js:97-145 | The loop from the start ends with every remaining time 0. |
| LibRoundRobin.Schedule | src/utlis/algorithms.js:76-177 | Of what `simulateRR` returns, with completions read off the chart by name: one consistent record per process in input order, each completing by `totalTime`. The chart tiles the time from 0, with every slice at most the quantum. `busyTime` is the sum of the bursts and, with no process named Idle, the busy bars' length. With unique names each process's bars add up to its burst. |
| LibRoundRobin.ByNameAgrees | src/utlis/algorithms.js:148-163 | With unique names and none named Idle, what `simulateRR` returns equals the corrected outcome, whose summary is built from the completion ticks. |
| LibRoundRobin.ByNameNeverEarly | src/utlis/algorithms.js:148-163 | The corrected outcome has the same chart, `totalTime` and `busyTime`, one consistent record per process in input order, and no completion later than the one read off the chart by name. |
| LibRoundRobin.IdleNamedProcess | src/utlis/algorithms.js:149-150 | A process named "Idle" that completes at 1 is given completion 3, the end of a later Idle gap, in what `simulateRR` returns; the corrected outcome gives 1. |
| LibRoundRobinSimulator.EnqueueArrivals | src/utlis/algorithms.js:88-95 | The loop over `procs` appends exactly the new arrivals, in input order, to the queue and to `arrivedSet`. |
| LibRoundRobinSimulator.TakeTurn | src/utlis/algorithms.js:120-144 | The shift, find and dispatch compute one turn of the specification. |
| LibRoundRobinSimulator.Advance | src/utlis/algorithms.js:97-145 | A pass keeps the invariant and the loop's final state, with less work left. |
| LibRoundRobinSimulator.SimulateRR | src/utlis/algorithms.js:76-177 | The method returns what `simulateRR` returns: the loop's chart and busy time, `totalTime` as the chart's end, and each completion read off the chart by name. |
| LibSRTF.Shortest | src/utlis/algorithms.js:197-218 | Among arrived processes with work left: the least remaining time, then earliest arrival, then earliest position; None exactly when none is available. |
| LibSRTF.Step | src/utlis/algorithms.js:195-253 | A pass either does one tick of work or jumps the clock forward, never past the last arrival. |
| LibSRTF.SwitchShape | src/utlis/algorithms.js:221-232 | On a switch the open bar of the previous process is closed at `time` and a new one opens; the same process keeps its bar. |
| LibSRTF.RunTick | src/utlis/algorithms.js:220-252 | The body computes one tick: remaining time down by 1, `completed` up by one exactly when it reaches 0. |
| LibSRTF.TickMeasured | src/utlis/algorithms.js:221-252 | A tick keeps each process's bars plus its open bar equal to the work it has done. |
| LibSRTF.TickSeparated | src/utlis/algorithms.js:221-252 | A tick keeps adjacent bars carrying different names: a bar closes only on a switch or on completion. |
| LibSRTF.Advance | src/utlis/algorithms.js:195-253 | A pass keeps the loop's final state. |
| LibSRTF.StepKeeps | src/utlis/algorithms.js:195-253 | A pass keeps the invariant: work done, the chart, the open bar, completion ticks. |
| LibSRTF.SimulateSRTF | src/utlis/algorithms.js:179-283 | The method computes the loop's outcome. |
| LibSRTF.Schedule | src/utlis/algorithms.js:179-283 | One consistent record per process in input order, each completing between arrival + burst and `totalTime`. The chart tiles the time from 0 and ends at `totalTime`; `busyTime` is the sum of the bursts and, with no process named Idle, the busy bars' length. With unique names, adjacent bars differ and each process's bars add up to its burst. |
| PageFCFS.SortedByArrival | src/pages/Simulation.jsx:16 | The arrival sort keeps every burst positive, keeps input order among equal arrivals, and keeps the sum of the bursts. |
| PageFCFS.ServedInOrder | src/pages/Simulation.jsx:16-18 | Records come out in arrival order. |
| PageFCFS.Step | src/pages/Simulation.jsx:19-48 | One `forEach` pass keeps the loop invariant. |
| PageFCFS.ServeInOrder | src/pages/Simulation.jsx:18-57 | The list is served in order, each record starting when the CPU is free and its process has arrived. One bar per record, none for the gaps, in time order; sums as in the records. |
| PageFCFS.SimulateFCFS | src/pages/Simulation.jsx:8-58 | Every process served once by arrival, equal arrivals in input order, with consistent records. Bars never overlap and the clock ends at the last bar's end. `busyTime` is the sum of the bursts and `totals` sum the records. |
| PageSJF.NewArrivalsComplete | src/pages/Simulation.jsx:71-79 | Every process that has arrived, is not completed and is not listed joins `arrived`. |
| PageSJF.Admit | src/pages/Simulation.jsx:71-79 | The `forEach` appends exactly those processes, in input order. |
| PageSJF.AlreadyListed | src/pages/Simulation.jsx:75 | The `find` over the growing list finds a process exactly when it was listed before the pass began. |
| PageSJF.SortedHead | src/pages/Simulation.jsx:86-87 | `sort(...).shift()` takes a listed process with the least burst. |
| PageSJF.Serve | src/pages/Simulation.jsx:89-109 | The bar and record of a process starting now: `[now, now + burst)`, waiting `now - arrival`. |
| PageSJF.RunShortest | src/pages/Simulation.jsx:86-115 | The body after the idle check takes the sorted head and keeps the totals as sums of the records. |
| PageSJF.Pass | src/pages/Simulation.jsx:70-116 | A loop pass computes one step of the specification and keeps the totals as sums of the records. |
| PageSJF.IdleProgress | src/pages/Simulation.jsx:81-84 | With nothing listed and work left, the one-tick advance stays short of the last arrival. |
| PageSJF.Advance | src/pages/Simulation.jsx:70-116 | A pass keeps the listing invariant, makes progress, and keeps the loop's final state. |
| PageSJF.StepKeeps | src/pages/Simulation.jsx:70-116 | A pass keeps the timing and the choice invariants. |
| PageSJF.SimulateSJF | src/pages/Simulation.jsx:60-125 | The method computes the loop's outcome. |
| PageSJF.FinalState | src/pages/Simulation.jsx:70-124 | When the loop ends, the invariant yields the schedule's properties. |
| PageSJF.Schedule | src/pages/Simulation.jsx:60-125 | Every process served once, records consistent, each starting when the CPU is free and it has arrived, idling only when nothing has arrived. A process served before another that had arrived by its start has no larger burst. Bars never overlap; `totalTime` is the last bar's end; `busyTime` is the sum of the bursts. |
| PageSRTF.Shortest | src/pages/Simulation.jsx:146-156 | Among arrived processes with work left: the least remaining time, earliest position among equals; None exactly when none is available. |
| PageSRTF.FindShortest | src/pages/Simulation.jsx:146-156 | The filter and sort compute that choice. |
| PageSRTF.RunTick | src/pages/Simulation.jsx:158-195 | The body computes one tick and keeps the totals as sums of the records. |
| PageSRTF.Pass | src/pages/Simulation.jsx:145-196 | A loop pass computes one step and keeps the totals. |
| PageSRTF.SetEndSame | src/pages/Simulation.jsx:159-161 | Closing the last bar at `currentTime` changes nothing: it already ends there. |
| PageSRTF.StretchNamed | src/pages/Simulation.jsx:169-171 | The same process as last tick stretches its bar by one; each process's bars still add up to the work it has done. |
| PageSRTF.SwitchNamed | src/pages/Simulation.jsx:158-168 | A new process pushes a one-tick bar; adjacent bars still differ and the per-process totals still match. |
| PageSRTF.CompleteLogged | src/pages/Simulation.jsx:176-190 | The tick that completes a process keeps the log: each finished process once, consistent, in completion order, none completing before arrival + burst. |
| PageSRTF.IdleKeeps | src/pages/Simulation.jsx:150-153 | A tick with nothing available keeps the invariant. |
| PageSRTF.TickDrawn | src/pages/Simulation.jsx:158-174 | A tick keeps the bars in order, ending by the clock, with length equal to the busy time. |
| PageSRTF.Advance | src/pages/Simulation.jsx:145-196 | A pass makes progress and keeps the loop's final state. |
| PageSRTF.SimulateSRTF | src/pages/Simulation.jsx:127-205 | The method computes the loop's outcome. |
| PageSRTF.Schedule | src/pages/Simulation.jsx:127-205 | Every process served once, in completion order, records consistent, each completing between arrival + burst and `totalTime`. Bars in order, ending at `totalTime`, with adjacent bars differing. `busyTime` is the sum of the bursts and the bars' length, and each process's bars add up to its burst. |
| PageRR.Arrived | src/pages/Simulation.jsx:225-227 | The initial queue is computed as specified. |
| PageRR.StartQueue | src/pages/Simulation.jsx:225-227 | The initial queue holds exactly the processes arriving at 0. |
| PageRR.Enqueue | src/pages/Simulation.jsx:232-239 | The filter-and-push appends the joining processes in input order. |
| PageRR.IdleQueue | src/pages/Simulation.jsx:230-241 | With an empty queue, the clock advances one tick and exactly the processes with work left arriving at that tick join. |
| PageRR.JoiningArrived | src/pages/Simulation.jsx:257-266 | Joiners are distinct, arrived in `(lo, hi]`, have work left, are not queued and are not the process that just ran. |
| PageRR.JoiningAll | src/pages/Simulation.jsx:257-266 | Every process meeting that filter joins. |
| PageRR.TurnOrder | src/pages/Simulation.jsx:243-271 | A turn runs `min(quantum, remaining)` ticks. The rest of the queue stays in front, then the arrivals of the slice, then the head again if it has work left. A completed head is not queued again. |
| PageRR.TurnLined | src/pages/Simulation.jsx:243-271 | After a turn the queue holds, once each, exactly the arrived processes with work left. |
| PageRR.CompleteLogged | src/pages/Simulation.jsx:268-283 | Logging a process that completes at the new clock keeps the log: each finished process once, consistent, in completion order, none completing before arrival + burst. |
| PageRR.TakeTurn | src/pages/Simulation.jsx:243-287 | The body for a non-empty queue computes one turn and keeps the totals. |
| PageRR.Pass | src/pages/Simulation.jsx:229-288 | A loop pass computes one step and keeps the totals. |
| PageRR.Advance | src/pages/Simulation.jsx:229-288 | A pass keeps the queue invariant and `completed`, makes progress, and keeps the loop's final state. |
| PageRR.SimulateRR | src/pages/Simulation.jsx:207-297 | The method computes the loop's outcome. |
| PageRR.Schedule | src/pages/Simulation.jsx:207-297 | Every process served once, in completion order, records consistent, each completing between arrival + burst and `totalTime`. Bars in order, none longer than the quantum, ending at `totalTime`. `busyTime` is the sum of the bursts and the bars' length, and each process's bars add up to its burst. |
| SimulatorPage.Simulate | src/pages/Simulation.jsx:412-428 | Empty input gives the empty result with `totals: {}`. Otherwise the selected simulator runs, and an unknown name falls back to FCFS; for FCFS the records come in arrival order, equal arrivals in input order, each starting once ready, with one bar per record. Whichever runs, each process has one consistent record, bars are in order ending at `totalTime`, `busyTime` is the sum of the bursts, and `totals` sum the records. |

## Left out

- Rendering, animation, routing, notifications, `localStorage`, the `setTimeout` delay and colours (bars and records carry none). These are UI and I/O.
- The averages and the CPU utilisation at src/pages/Simulation.jsx:431-446. They are floating-point display built with `toFixed`.
- Input validation. Every simulator assumes positive bursts, as the input form enforces. `PageFCFS.SimulateFCFS` assumes nothing more. `LibFCFS.SimulateFCFS`, `LibSJF.SimulateSJF`, `LibSRTF.SimulateSRTF`, `PageSJF.SimulateSJF`, `PageSRTF.SimulateSRTF`, `PageRR.SimulateRR` and `SimulatorPage.Simulate` also assume unique ids and unique names. `LibRoundRobinSimulator.SimulateRR` also assumes unique ids. Both Round Robin simulators assume a quantum above 0. Behaviour on inputs that break these assumptions is not modelled.
- The default `quantum = 2` of `simulateRR` (src/utlis/algorithms.js:76). `LibRoundRobinSimulator.SimulateRR` always takes the quantum as an argument.
- Ids stand for positions in the input: `done`, `completed` and the dictionaries keyed by id are sequences indexed by position, or counts of finished positions. The library SJF keeps its `done` set of ids.
- `sort(...)[0]` in the library SJF and SRTF is modelled as a scan for the first minimum in input order. That is the element a stable sort puts first.
- `localeCompare` is modelled as lexicographic order on character codes. Locale collation is not modelled.
- The unreachable `if (!next) break` and `if (!p) continue` branches of the library are modelled as written. The loop invariants show they never fire on admissible input.
- PageSJF.Schedule: states that a process served before another that had arrived has no larger burst. It does not state the order among equal bursts, which depends on the order the `arrived` list had been built in.
- LibRoundRobin.Schedule: the per-process bar totals and the busy length of the chart are stated only when names are unique and none is "Idle", because bars are told apart by name.

## Findings

| source | as written | input that shows it | evidently intended | confidence | as-written member | corrected member |
|---|---|---|---|---|---|---|
| src/utlis/algorithms.js:149-150 | Round Robin finds each process's completion as the end of the last chart bar carrying its name | quantum 2 with processes (id 1, "Idle", arrival 0, burst 1) and (id 2, "B", arrival 3, burst 1): the first completes at 1 but is given 3, the end of the Idle gap [1, 3) | completion is the tick at which the process's remaining time reaches 0 | not executed | LibRoundRobin.IdleNamedProcess | LibRoundRobin.ByNameNeverEarly |
