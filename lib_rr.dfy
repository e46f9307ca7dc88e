/**
 * Round Robin as the library behind the Home page computes it (`simulateRR`
 * in src/utlis/algorithms.js). A FIFO queue holds process ids and
 * `arrivedSet` records every id ever enqueued by `enqueueArrivals`; the head
 * of the queue runs for `min(quantum, remaining)` ticks, the processes that
 * arrived meanwhile are enqueued, and an unfinished process goes back to the
 * tail. When the queue is empty the clock jumps to the next arrival behind
 * one Idle segment.
 *
 * The summary of the source finds each process's completion as the end of
 * the last chart segment carrying its name (`SummaryByName`, returned in
 * `Outcome`); a process named "Idle" then picks up the end of a later Idle
 * gap. `CorrectedOutcome` takes each completion at the tick the process's
 * remaining time reaches 0 instead (`Summary`); `ByNameAgrees` shows the two
 * coincide when names are unique and no process is named "Idle",
 * `ByNameNeverEarly` that the source's reading is never earlier, and
 * `IdleNamedProcess` exhibits an input where they differ.
 */
module LibRoundRobin {
  import opened Scheduling
  import opened Work

  /**
   * What the loop relies on: every burst is positive and
   * `procs.find(p => p.id === pid)` finds each process at its own position.
   * `AdmissibleIff` shows this is positive bursts and unique ids.
   */
  predicate Admissible(ps: seq<Process>) {
    && (forall i | 0 <= i < |ps| :: ps[i].burst > 0)
    && (forall i {:trigger FindById(ps, ps[i].id)} | 0 <= i < |ps| :: FindById(ps, ps[i].id) == Some(i))
  }

  lemma {:induction false} AdmissibleIff(ps: seq<Process>)
    ensures Admissible(ps) <==> (forall i | 0 <= i < |ps| :: ps[i].burst > 0) && UniqueIds(ps)
  {
    if Admissible(ps) {
      forall i, j | 0 <= i < j < |ps| ensures ps[i].id != ps[j].id {
        assert FindById(ps, ps[j].id) == Some(j);
      }
    }
    if (forall i | 0 <= i < |ps| :: ps[i].burst > 0) && UniqueIds(ps) {
      forall i | 0 <= i < |ps| ensures FindById(ps, ps[i].id) == Some(i) {
        assert ps[i].id in Ids(ps);
      }
    }
  }

  // ---------------------------------------------------------------------
  // The state of `simulateRR` and the steps of its main loop

  /**
   * The variables of the main loop: `remaining[i]` and `completion[i]` belong
   * to the i-th process, `queue` holds ids, `arrived` is `arrivedSet`.
   */
  datatype RRState = RRState(remaining: seq<nat>, completion: seq<int>, gantt: seq<Segment>,
                             queue: seq<int>, arrived: set<int>, time: int, busy: int, completed: nat)

  function Members(s: seq<int>): set<int> {
    set x | x in s
  }

  function Start(ps: seq<Process>): (st: RRState)
    requires forall i | 0 <= i < |ps| :: ps[i].burst > 0
    ensures |st.remaining| == |ps| == |st.completion|
  {
    RRState(Bursts(ps), seq(|ps|, i => 0), [], [], {}, 0, 0, 0)
  }

  /**
   * The ids `enqueueArrivals()` appends once it has visited `ps[..k]`: each
   * process that has arrived by `time`, still has work and whose id is not
   * yet in `arrivedSet` (which grows as the visit goes on).
   */
  function Arrivals(ps: seq<Process>, rem: seq<nat>, time: int, arrived: set<int>, k: nat): seq<int>
    requires k <= |ps| <= |rem|
  {
    if k == 0 then []
    else
      var added := Arrivals(ps, rem, time, arrived, k - 1);
      var p := ps[k - 1];
      if p.arrival <= time && p.id !in arrived && p.id !in added && rem[k - 1] > 0 then added + [p.id] else added
  }

  /** The state after `enqueueArrivals()`. */
  function Enqueued(ps: seq<Process>, st: RRState): RRState
    requires |ps| <= |st.remaining|
  {
    var added := Arrivals(ps, st.remaining, st.time, st.arrived, |ps|);
    st.(queue := st.queue + added, arrived := st.arrived + Members(added))
  }

  /** The queue is empty and no process has work left: the loop breaks. */
  predicate Breaks(ps: seq<Process>, st: RRState)
    requires |ps| <= |st.remaining|
  {
    st.queue == [] && NextPending(ps, st.remaining).None?
  }

  /** With an empty queue, the clock jumps over an Idle gap to the next pending arrival. */
  function Prepare(ps: seq<Process>, st: RRState): RRState
    requires |ps| <= |st.remaining|
  {
    if st.queue != [] then st
    else
      match NextPending(ps, st.remaining)
      case None => st
      case Some(j) =>
        if st.time < ps[j].arrival
        then st.(gantt := st.gantt + [Segment(IdleName, st.time, ps[j].arrival)], time := ps[j].arrival)
        else st
  }

  /** The bar of a slice of `use` ticks of `p` from `start`. */
  function Slice(p: Process, start: int, use: int): Segment {
    Segment(p.name, start, start + use)
  }

  /** `remaining` after `p.remaining -= use` for the process at position `i`. */
  function Consume(rem: seq<nat>, i: nat, use: nat): seq<nat>
    requires i < |rem| && use <= rem[i]
  {
    rem[i := rem[i] - use]
  }

  /** The process at position `i` runs `min(quantum, remaining)` ticks from `time`. */
  function RunSlice(ps: seq<Process>, quantum: int, st: RRState, i: nat): RRState
    requires |ps| <= |st.remaining| && i < |ps| && quantum > 0
  {
    var use := Min(quantum, st.remaining[i]);
    st.(gantt := st.gantt + [Slice(ps[i], st.time, use)], remaining := Consume(st.remaining, i, use),
        time := st.time + use, busy := st.busy + use)
  }

  /** After its slice, the process at position `i` goes back to the tail, or is complete at `time`. */
  function Settle(ps: seq<Process>, st: RRState, i: nat): RRState
    requires i < |ps| && i < |st.remaining| && i < |st.completion|
  {
    if st.remaining[i] > 0 then st.(queue := st.queue + [ps[i].id])
    else st.(completion := st.completion[i := st.time], completed := st.completed + 1)
  }

  /**
   * The dispatch of the process at position `i`, already shifted off the
   * queue: its slice, the arrivals meanwhile, then back to the tail or done.
   */
  function Dispatch(ps: seq<Process>, quantum: int, st: RRState, i: nat): RRState
    requires |ps| <= |st.remaining| && i < |ps| && i < |st.completion| && quantum > 0
  {
    Settle(ps, Enqueued(ps, RunSlice(ps, quantum, st, i)), i)
  }

  /**
   * `const pid = queue.shift()` and the dispatch of the process with that id;
   * with an empty queue or an unknown id nothing more happens (`continue`).
   */
  function Turn(ps: seq<Process>, quantum: int, st: RRState): (st': RRState)
    requires |ps| <= |st.remaining| && |ps| <= |st.completion| && quantum > 0
    ensures |st'.remaining| == |st.remaining| && |st'.completion| == |st.completion|
  {
    if st.queue == [] then st
    else
      var rest := st.(queue := st.queue[1..]);
      match FindById(ps, st.queue[0])
      case None => rest
      case Some(i) => Dispatch(ps, quantum, rest, i)
  }

  /** One pass of the `while (completed < n)` loop that does not break. */
  function Step(ps: seq<Process>, quantum: int, st: RRState): (st': RRState)
    requires |ps| <= |st.remaining| && |ps| <= |st.completion| && quantum > 0
    ensures |st'.remaining| == |st.remaining| && |st'.completion| == |st.completion|
  {
    Turn(ps, quantum, Enqueued(ps, Prepare(ps, st)))
  }

  /** The loop goes on: fewer than n processes are complete and it does not break. */
  predicate Running(ps: seq<Process>, st: RRState)
    requires |ps| <= |st.remaining|
  {
    st.completed < |ps| && !Breaks(ps, st)
  }

  /** The loop from state `st` on. */
  ghost function Run(ps: seq<Process>, quantum: int, st: RRState): (st': RRState)
    requires |ps| <= |st.remaining| && |ps| <= |st.completion| && quantum > 0
    ensures |st'.remaining| == |st.remaining| && |st'.completion| == |st.completion|
    decreases SumRemaining(st.remaining)
  {
    if !Running(ps, st) then st
    else
      // every pass from a reachable state leaves less work (`StepKeeps`);
      // one that did not would repeat forever
      var st' := Step(ps, quantum, st);
      if SumRemaining(st'.remaining) < SumRemaining(st.remaining) then Run(ps, quantum, st') else st
  }

  // ---------------------------------------------------------------------
  // The summary

  /** `gantt.slice().reverse().find(g => g.name === name)`: the last segment with that name. */
  function LastNamed(g: seq<Segment>, name: string): Option<Segment> {
    if g == [] then None
    else if g[|g| - 1].name == name then Some(g[|g| - 1])
    else LastNamed(g[..|g| - 1], name)
  }

  /** The completion the source reads off the chart: the end of the last segment with the name, else the arrival. */
  function CompletionByName(g: seq<Segment>, p: Process): int {
    match LastNamed(g, p.name)
    case Some(s) => s.end
    case None => p.arrival
  }

  /** The summary as the source builds it, looking the completion up by name. */
  function SummaryByName(ps: seq<Process>, g: seq<Segment>): seq<Record> {
    seq(|ps|, i requires 0 <= i < |ps| => RecordAt(ps[i], CompletionByName(g, ps[i])))
  }

  /** What `simulateRR` returns: the chart of the loop, with the summary read off it by name. */
  ghost function Outcome(ps: seq<Process>, quantum: int): Simulation
    requires Admissible(ps) && quantum > 0
  {
    var st := Run(ps, quantum, Start(ps));
    var summary := SummaryByName(ps, st.gantt);
    Simulation(st.gantt, summary, EndOf(st.gantt), TotalsOf(summary), st.busy)
  }

  /** The same run with each completion taken at the tick the process's remaining time reaches 0. */
  ghost function CorrectedOutcome(ps: seq<Process>, quantum: int): Simulation
    requires Admissible(ps) && quantum > 0
  {
    var st := Run(ps, quantum, Start(ps));
    var summary := Summary(ps, st.completion);
    Simulation(st.gantt, summary, EndOf(st.gantt), TotalsOf(summary), st.busy)
  }

  // ---------------------------------------------------------------------
  // Reachable states

  /** `id` belongs to a process with work left. */
  predicate Pending(ps: seq<Process>, rem: seq<nat>, id: int)
    requires |ps| <= |rem|
  {
    match FindById(ps, id)
    case None => false
    case Some(j) => rem[j] > 0
  }

  /** `id` belongs to a process with work left that has arrived by `time`. */
  predicate Due(ps: seq<Process>, rem: seq<nat>, time: int, id: int)
    requires |ps| <= |rem|
  {
    match FindById(ps, id)
    case None => false
    case Some(j) => rem[j] > 0 && ps[j].arrival <= time
  }

  /**
   * The remaining time of the process at `i`: its burst until it is
   * enqueued, and what of it has run, ran after its arrival.
   */
  predicate WorkAt(ps: seq<Process>, st: RRState, i: nat)
    requires i < |ps| <= |st.remaining|
  {
    && st.remaining[i] <= ps[i].burst
    && (ps[i].id !in st.arrived ==> st.remaining[i] == ps[i].burst)
    && (ps[i].id in st.arrived ==> ps[i].arrival + ps[i].burst - st.remaining[i] <= st.time)
  }

  /** The queue holds distinct ids of enqueued processes with work left. */
  predicate Lined(ps: seq<Process>, st: RRState)
    requires |ps| <= |st.remaining|
  {
    && Distinct(st.queue)
    && forall t | 0 <= t < |st.queue| :: st.queue[t] in st.arrived && Pending(ps, st.remaining, st.queue[t])
  }

  /** Every enqueued process with work left, except the one being dispatched, is in the queue. */
  predicate Waiting(ps: seq<Process>, st: RRState, cur: Option<nat>)
    requires |ps| <= |st.remaining|
  {
    forall i | 0 <= i < |ps| && cur != Some(i) && ps[i].id in st.arrived && st.remaining[i] > 0 :: ps[i].id in st.queue
  }

  /**
   * The chart so far tiles [0, time), no slice is longer than the quantum,
   * and the busy time is the work done.
   */
  predicate Drawn(ps: seq<Process>, quantum: int, st: RRState) {
    && CoversFromZero(st.gantt) && EndOf(st.gantt) == st.time
    && (forall k | 0 <= k < |st.gantt| :: st.gantt[k].name != IdleName ==> st.gantt[k].end - st.gantt[k].start <= quantum)
    && st.busy + SumRemaining(st.remaining) == SumBursts(ps)
    && (NoneNamedIdle(ps) ==> BusyLength(st.gantt) == st.busy)
  }

  /**
   * A finished process other than the one being dispatched completed no
   * earlier than arrival + burst and no later than now, and the last bar
   * under its name ends between its completion and now.
   */
  predicate DoneAt(ps: seq<Process>, st: RRState, cur: Option<nat>, i: nat)
    requires i < |ps| <= |st.remaining| && |ps| <= |st.completion|
  {
    cur != Some(i) && st.remaining[i] == 0 ==>
      ps[i].arrival + ps[i].burst <= st.completion[i] <= CompletionByName(st.gantt, ps[i]) <= st.time
  }

  /** `completed` counts the finished processes, the one being dispatched aside. */
  predicate Settled(ps: seq<Process>, st: RRState, cur: Option<nat>)
    requires |ps| == |st.remaining| && |ps| <= |st.completion| && (cur.Some? ==> cur.value < |ps|)
  {
    && st.completed + (if cur.Some? && st.remaining[cur.value] == 0 then 1 else 0) == Finished(st.remaining)
    && forall i | 0 <= i < |ps| :: DoneAt(ps, st, cur, i)
  }

  /**
   * What ran of the process at `i` is on the chart under its name, and once
   * it is finished its last bar ends at its completion.
   */
  predicate NamedAt(ps: seq<Process>, st: RRState, cur: Option<nat>, i: nat)
    requires i < |ps| <= |st.remaining| && |ps| <= |st.completion|
  {
    && NamedLength(st.gantt, ps[i].name) == ps[i].burst - st.remaining[i]
    && (cur != Some(i) && st.remaining[i] == 0 ==> CompletionByName(st.gantt, ps[i]) == st.completion[i])
  }

  /** `NamedAt` for every process, when names identify processes. */
  predicate Named(ps: seq<Process>, st: RRState, cur: Option<nat>)
    requires |ps| <= |st.remaining| && |ps| <= |st.completion|
  {
    UniqueNames(ps) && NoneNamedIdle(ps) ==> forall i | 0 <= i < |ps| :: NamedAt(ps, st, cur, i)
  }

  /** What holds of the loop variables at the top of every pass. */
  ghost predicate Inv(ps: seq<Process>, quantum: int, st: RRState) {
    match st
    case RRState(remaining, completion, _, _, _, _, _, _) =>
      && |remaining| == |ps| && |completion| == |ps|
      && (forall i | 0 <= i < |ps| :: WorkAt(ps, st, i))
      && Lined(ps, st) && Waiting(ps, st, None)
      && Drawn(ps, quantum, st) && Settled(ps, st, None) && Named(ps, st, None)
  }

  lemma {:induction false} LastNamedAppend(g: seq<Segment>, s: Segment, name: string)
    ensures LastNamed(g + [s], name) == if s.name == name then Some(s) else LastNamed(g, name)
    ensures NamedLength(g + [s], name) == NamedLength(g, name) + (if s.name == name then s.end - s.start else 0)
  {
    assert (g + [s])[..|g|] == g;
    NamedLengthAppend(g, s, name);
  }

  /** What `enqueueArrivals()` appends: distinct ids of due processes not yet enqueued, and all of them. */
  lemma {:induction false} ArrivalsFacts(ps: seq<Process>, rem: seq<nat>, time: int, arrived: set<int>, k: nat)
    requires Admissible(ps) && k <= |ps| <= |rem|
    ensures Distinct(Arrivals(ps, rem, time, arrived, k))
    ensures forall x | x in Arrivals(ps, rem, time, arrived, k) :: x !in arrived && Due(ps, rem, time, x)
    ensures forall j | 0 <= j < k && ps[j].arrival <= time && rem[j] > 0 && ps[j].id !in arrived ::
      ps[j].id in Arrivals(ps, rem, time, arrived, k)
  {
    ArrivalsDistinct(ps, rem, time, arrived, k);
    ArrivalsDue(ps, rem, time, arrived, k);
    ArrivalsAll(ps, rem, time, arrived, k);
  }

  lemma {:induction false} ArrivalsDistinct(ps: seq<Process>, rem: seq<nat>, time: int, arrived: set<int>, k: nat)
    requires k <= |ps| <= |rem|
    ensures Distinct(Arrivals(ps, rem, time, arrived, k))
  {
    if k > 0 {
      ArrivalsDistinct(ps, rem, time, arrived, k - 1);
    }
  }

  lemma {:induction false} ArrivalsDue(ps: seq<Process>, rem: seq<nat>, time: int, arrived: set<int>, k: nat)
    requires Admissible(ps) && k <= |ps| <= |rem|
    ensures forall x | x in Arrivals(ps, rem, time, arrived, k) :: x !in arrived && Due(ps, rem, time, x)
  {
    if k > 0 {
      ArrivalsDue(ps, rem, time, arrived, k - 1);
      assert FindById(ps, ps[k - 1].id) == Some(k - 1);
    }
  }

  lemma {:induction false} ArrivalsAll(ps: seq<Process>, rem: seq<nat>, time: int, arrived: set<int>, k: nat)
    requires k <= |ps| <= |rem|
    ensures forall j | 0 <= j < k && ps[j].arrival <= time && rem[j] > 0 && ps[j].id !in arrived ::
      ps[j].id in Arrivals(ps, rem, time, arrived, k)
  {
    if k > 0 {
      ArrivalsAll(ps, rem, time, arrived, k - 1);
    }
  }

  /** `enqueueArrivals()` keeps the queue lined up and puts every due process in it. */
  lemma {:induction false} EnqueuedKeeps(ps: seq<Process>, st: RRState, cur: Option<nat>)
    requires Admissible(ps) && |st.remaining| == |ps|
    requires cur.Some? ==> cur.value < |ps| && ps[cur.value].id in st.arrived && ps[cur.value].id !in st.queue
    requires (forall i | 0 <= i < |ps| :: WorkAt(ps, st, i)) && Lined(ps, st) && Waiting(ps, st, cur)
    ensures (forall i | 0 <= i < |ps| :: WorkAt(ps, Enqueued(ps, st), i))
    ensures Lined(ps, Enqueued(ps, st)) && Waiting(ps, Enqueued(ps, st), cur)
    ensures cur.Some? ==> ps[cur.value].id !in Enqueued(ps, st).queue
    ensures forall j | 0 <= j < |ps| && ps[j].arrival <= st.time && st.remaining[j] > 0 && cur != Some(j) ::
      ps[j].id in Enqueued(ps, st).queue
  {
    ArrivalsFacts(ps, st.remaining, st.time, st.arrived, |ps|);
    EnqueuedWork(ps, st);
    EnqueuedLined(ps, st);
    EnqueuedWaiting(ps, st, cur);
  }

  /** The newly enqueued processes have not run: their remaining time is still their burst. */
  lemma {:induction false} EnqueuedWork(ps: seq<Process>, st: RRState)
    requires Admissible(ps) && |st.remaining| == |ps|
    requires forall i | 0 <= i < |ps| :: WorkAt(ps, st, i)
    requires forall x | x in Arrivals(ps, st.remaining, st.time, st.arrived, |ps|) :: x !in st.arrived && Due(ps, st.remaining, st.time, x)
    ensures forall i | 0 <= i < |ps| :: WorkAt(ps, Enqueued(ps, st), i)
  {
    var added := Arrivals(ps, st.remaining, st.time, st.arrived, |ps|);
    var st' := Enqueued(ps, st);
    forall i | 0 <= i < |ps| ensures WorkAt(ps, st', i) {
      assert WorkAt(ps, st, i);
      if ps[i].id in added {
        assert FindById(ps, ps[i].id) == Some(i);
      }
    }
  }

  /** Distinct ids of pending processes, not yet enqueued, keep the queue lined up. */
  lemma {:induction false} EnqueuedLined(ps: seq<Process>, st: RRState)
    requires |st.remaining| == |ps| && Lined(ps, st)
    requires Distinct(Arrivals(ps, st.remaining, st.time, st.arrived, |ps|))
    requires forall x | x in Arrivals(ps, st.remaining, st.time, st.arrived, |ps|) :: x !in st.arrived && Due(ps, st.remaining, st.time, x)
    ensures Lined(ps, Enqueued(ps, st))
  {
    var added := Arrivals(ps, st.remaining, st.time, st.arrived, |ps|);
    var st' := Enqueued(ps, st);
    assert Distinct(st'.queue) by {
      forall s, t | 0 <= s < t < |st'.queue| ensures st'.queue[s] != st'.queue[t] {
        if t >= |st.queue| && s < |st.queue| {
          assert st'.queue[t] == added[t - |st.queue|];
        } else if s >= |st.queue| {
          assert st'.queue[s] == added[s - |st.queue|] && st'.queue[t] == added[t - |st.queue|];
        }
      }
    }
    forall t | 0 <= t < |st'.queue| ensures st'.queue[t] in st'.arrived && Pending(ps, st'.remaining, st'.queue[t]) {
      if t >= |st.queue| {
        assert st'.queue[t] == added[t - |st.queue|];
      }
    }
  }

  /** Every due process is queued afterwards, and the one being dispatched is not. */
  lemma {:induction false} EnqueuedWaiting(ps: seq<Process>, st: RRState, cur: Option<nat>)
    requires Admissible(ps) && |st.remaining| == |ps|
    requires cur.Some? ==> cur.value < |ps| && ps[cur.value].id in st.arrived && ps[cur.value].id !in st.queue
    requires Waiting(ps, st, cur)
    requires forall x | x in Arrivals(ps, st.remaining, st.time, st.arrived, |ps|) :: x !in st.arrived
    requires forall j | 0 <= j < |ps| && ps[j].arrival <= st.time && st.remaining[j] > 0 && ps[j].id !in st.arrived ::
      ps[j].id in Arrivals(ps, st.remaining, st.time, st.arrived, |ps|)
    ensures Waiting(ps, Enqueued(ps, st), cur)
    ensures cur.Some? ==> ps[cur.value].id !in Enqueued(ps, st).queue
    ensures forall j | 0 <= j < |ps| && ps[j].arrival <= st.time && st.remaining[j] > 0 && cur != Some(j) ::
      ps[j].id in Enqueued(ps, st).queue
  {
    var added := Arrivals(ps, st.remaining, st.time, st.arrived, |ps|);
    var st' := Enqueued(ps, st);
    forall i | 0 <= i < |ps| && cur != Some(i) && ps[i].id in st'.arrived && st'.remaining[i] > 0
      ensures ps[i].id in st'.queue
    {
      if ps[i].id !in st.arrived {
        assert ps[i].id in added;
      }
    }
  }

  /** The Idle jump keeps the invariant, and with an empty queue it reaches the next pending arrival. */
  lemma {:induction false} PrepareKeeps(ps: seq<Process>, quantum: int, st: RRState)
    requires Inv(ps, quantum, st)
    ensures Inv(ps, quantum, Prepare(ps, st))
    ensures st.queue == [] && NextPending(ps, st.remaining).Some? ==>
      ps[NextPending(ps, st.remaining).value].arrival <= Prepare(ps, st).time
  {
    if st.queue == [] && NextPending(ps, st.remaining).Some? {
      var j := NextPending(ps, st.remaining).value;
      if st.time < ps[j].arrival {
        var s := Segment(IdleName, st.time, ps[j].arrival);
        var st' := st.(gantt := st.gantt + [s], time := ps[j].arrival);
        assert Prepare(ps, st) == st';
        AppendCovers(st.gantt, s);
        BusyLengthAppend(st.gantt, [s]);
        assert BusyLength([s]) == 0;
        forall i | 0 <= i < |ps| ensures WorkAt(ps, st', i) {
          assert WorkAt(ps, st, i);
        }
        forall i | 0 <= i < |ps| ensures DoneAt(ps, st', None, i) {
          assert DoneAt(ps, st, None, i);
          LastNamedAppend(st.gantt, s, ps[i].name);
        }
        forall k | 0 <= k < |st'.gantt| && st'.gantt[k].name != IdleName
          ensures st'.gantt[k].end - st'.gantt[k].start <= quantum
        {
          assert st'.gantt[k] == st.gantt[k];
        }
        if UniqueNames(ps) && NoneNamedIdle(ps) {
          forall i | 0 <= i < |ps| ensures NamedAt(ps, st', None, i) {
            assert NamedAt(ps, st, None, i);
            LastNamedAppend(st.gantt, s, ps[i].name);
          }
        }
      }
    }
  }

  /** The slice of the process at `i` leaves the queue, and the other processes, as they were. */
  lemma {:induction false} SliceQueue(ps: seq<Process>, quantum: int, st: RRState, i: nat)
    requires Admissible(ps) && quantum > 0
    requires |st.remaining| == |ps| && i < |ps|
    requires (forall j | 0 <= j < |ps| :: WorkAt(ps, st, j)) && Lined(ps, st) && Waiting(ps, st, Some(i))
    requires st.remaining[i] > 0 && ps[i].id in st.arrived && ps[i].id !in st.queue
    ensures var ran := RunSlice(ps, quantum, st, i);
      (forall j | 0 <= j < |ps| :: WorkAt(ps, ran, j)) && Lined(ps, ran) && Waiting(ps, ran, Some(i))
  {
    var ran := RunSlice(ps, quantum, st, i);
    forall j | 0 <= j < |ps| ensures WorkAt(ps, ran, j) {
      assert WorkAt(ps, st, j);
    }
    forall t | 0 <= t < |ran.queue| ensures Pending(ps, ran.remaining, ran.queue[t]) {
      assert Pending(ps, st.remaining, st.queue[t]);
    }
  }

  /** The slice is one more bar of at most a quantum, and the work it does moves from remaining to busy. */
  lemma {:induction false} SliceDrawn(ps: seq<Process>, quantum: int, st: RRState, i: nat)
    requires quantum > 0 && |st.remaining| == |ps| && i < |ps| && st.remaining[i] > 0
    requires Drawn(ps, quantum, st)
    ensures Drawn(ps, quantum, RunSlice(ps, quantum, st, i))
    ensures SumRemaining(RunSlice(ps, quantum, st, i).remaining) < SumRemaining(st.remaining)
  {
    var use := Min(quantum, st.remaining[i]);
    var s := Slice(ps[i], st.time, use);
    var ran := RunSlice(ps, quantum, st, i);
    assert ran.gantt == st.gantt + [s];
    AppendCovers(st.gantt, s);
    forall k | 0 <= k < |ran.gantt| && ran.gantt[k].name != IdleName
      ensures ran.gantt[k].end - ran.gantt[k].start <= quantum
    {
      if k < |st.gantt| { assert ran.gantt[k] == st.gantt[k]; }
    }
    SumRemainingUpdate(st.remaining, i, st.remaining[i] - use);
    if NoneNamedIdle(ps) {
      assert ps[i].name != IdleName;
      BusyLengthAppend(st.gantt, [s]);
      assert BusyLength([s]) == use;
    }
  }

  /** During the slice the process at `i` is set aside; the others stay settled. */
  lemma {:induction false} SliceSettled(ps: seq<Process>, quantum: int, st: RRState, i: nat)
    requires quantum > 0 && |st.remaining| == |ps| == |st.completion| && i < |ps| && st.remaining[i] > 0
    requires Settled(ps, st, None)
    ensures Settled(ps, RunSlice(ps, quantum, st, i), Some(i))
  {
    var use := Min(quantum, st.remaining[i]);
    var ran := RunSlice(ps, quantum, st, i);
    FinishedUpdate(st.remaining, i, st.remaining[i] - use);
    assert ran.gantt == st.gantt + [Slice(ps[i], st.time, use)];
    forall j | 0 <= j < |ps| ensures DoneAt(ps, ran, Some(i), j) {
      assert DoneAt(ps, st, None, j);
      LastNamedAppend(st.gantt, Slice(ps[i], st.time, use), ps[j].name);
    }
  }

  /** The slice is charted under the name of the process at `i` and under no other process's name. */
  lemma {:induction false} SliceNamed(ps: seq<Process>, quantum: int, st: RRState, i: nat)
    requires quantum > 0 && |st.remaining| == |ps| == |st.completion| && i < |ps| && st.remaining[i] > 0
    requires Named(ps, st, None)
    ensures Named(ps, RunSlice(ps, quantum, st, i), Some(i))
  {
    var use := Min(quantum, st.remaining[i]);
    var s := Slice(ps[i], st.time, use);
    var ran := RunSlice(ps, quantum, st, i);
    assert ran.gantt == st.gantt + [s];
    if UniqueNames(ps) && NoneNamedIdle(ps) {
      forall j | 0 <= j < |ps| ensures NamedAt(ps, ran, Some(i), j) {
        assert NamedAt(ps, st, None, j);
        LastNamedAppend(st.gantt, s, ps[j].name);
        if j != i {
          assert ps[j].name != ps[i].name;
        }
      }
    }
  }

  /** Back to the tail of the queue, or complete at `time`. */
  lemma {:induction false} SettleKeeps(ps: seq<Process>, quantum: int, st: RRState, i: nat)
    requires Admissible(ps)
    requires |st.remaining| == |ps| == |st.completion| && i < |ps|
    requires (forall j | 0 <= j < |ps| :: WorkAt(ps, st, j)) && Lined(ps, st) && Waiting(ps, st, Some(i))
    requires Drawn(ps, quantum, st) && Settled(ps, st, Some(i)) && Named(ps, st, Some(i))
    requires ps[i].id in st.arrived && ps[i].id !in st.queue
    requires st.gantt != [] && st.gantt[|st.gantt| - 1].name == ps[i].name
    ensures Inv(ps, quantum, Settle(ps, st, i))
  {
    if st.remaining[i] > 0 {
      SettleBack(ps, quantum, st, i);
    } else {
      SettleDone(ps, quantum, st, i);
    }
  }

  /** An unfinished process goes back to the tail of the queue. */
  lemma {:induction false} SettleBack(ps: seq<Process>, quantum: int, st: RRState, i: nat)
    requires Admissible(ps)
    requires |st.remaining| == |ps| == |st.completion| && i < |ps|
    requires (forall j | 0 <= j < |ps| :: WorkAt(ps, st, j)) && Lined(ps, st) && Waiting(ps, st, Some(i))
    requires Drawn(ps, quantum, st) && Settled(ps, st, Some(i)) && Named(ps, st, Some(i))
    requires ps[i].id in st.arrived && ps[i].id !in st.queue
    requires st.gantt != [] && st.gantt[|st.gantt| - 1].name == ps[i].name
    requires st.remaining[i] > 0
    ensures Inv(ps, quantum, Settle(ps, st, i))
  {
    var st' := Settle(ps, st, i);
    assert FindById(ps, ps[i].id) == Some(i);
    forall j | 0 <= j < |ps| ensures WorkAt(ps, st', j) {
      assert WorkAt(ps, st, j);
    }
    assert Distinct(st'.queue) by {
      forall s, t | 0 <= s < t < |st'.queue| ensures st'.queue[s] != st'.queue[t] {
        if t == |st.queue| { assert st'.queue[s] == st.queue[s]; }
      }
    }
    forall t | 0 <= t < |st'.queue| ensures st'.queue[t] in st'.arrived && Pending(ps, st'.remaining, st'.queue[t]) {
      if t < |st.queue| { assert st'.queue[t] == st.queue[t]; }
    }
    forall j | 0 <= j < |ps| ensures DoneAt(ps, st', None, j) {
      assert DoneAt(ps, st, Some(i), j);
    }
    if UniqueNames(ps) && NoneNamedIdle(ps) {
      forall j | 0 <= j < |ps| ensures NamedAt(ps, st', None, j) {
        assert NamedAt(ps, st, Some(i), j);
      }
    }
  }

  /** A finished process records its completion at the current time. */
  lemma {:induction false} SettleDone(ps: seq<Process>, quantum: int, st: RRState, i: nat)
    requires Admissible(ps)
    requires |st.remaining| == |ps| == |st.completion| && i < |ps|
    requires (forall j | 0 <= j < |ps| :: WorkAt(ps, st, j)) && Lined(ps, st) && Waiting(ps, st, Some(i))
    requires Drawn(ps, quantum, st) && Settled(ps, st, Some(i)) && Named(ps, st, Some(i))
    requires ps[i].id in st.arrived && ps[i].id !in st.queue
    requires st.gantt != [] && st.gantt[|st.gantt| - 1].name == ps[i].name
    requires st.remaining[i] == 0
    ensures Inv(ps, quantum, Settle(ps, st, i))
  {
    var st' := Settle(ps, st, i);
    forall j | 0 <= j < |ps| ensures WorkAt(ps, st', j) {
      assert WorkAt(ps, st, j);
    }
    assert WorkAt(ps, st, i);
    forall j | 0 <= j < |ps| ensures DoneAt(ps, st', None, j) {
      assert DoneAt(ps, st, Some(i), j);
    }
    if UniqueNames(ps) && NoneNamedIdle(ps) {
      forall j | 0 <= j < |ps| ensures NamedAt(ps, st', None, j) {
        assert NamedAt(ps, st, Some(i), j);
      }
    }
  }

  /** The dispatch of the process at `i`, shifted off the queue: the invariant again, with less work. */
  lemma {:induction false} DispatchKeeps(ps: seq<Process>, quantum: int, st: RRState, i: nat)
    requires Admissible(ps) && quantum > 0
    requires |st.remaining| == |ps| == |st.completion| && i < |ps|
    requires (forall j | 0 <= j < |ps| :: WorkAt(ps, st, j)) && Lined(ps, st) && Waiting(ps, st, Some(i))
    requires Drawn(ps, quantum, st) && Settled(ps, st, None) && Named(ps, st, None)
    requires st.remaining[i] > 0 && ps[i].id in st.arrived && ps[i].id !in st.queue
    ensures Inv(ps, quantum, Dispatch(ps, quantum, st, i))
    ensures SumRemaining(Dispatch(ps, quantum, st, i).remaining) < SumRemaining(st.remaining)
  {
    var ran := RunSlice(ps, quantum, st, i);
    SliceQueue(ps, quantum, st, i);
    SliceDrawn(ps, quantum, st, i);
    SliceSettled(ps, quantum, st, i);
    SliceNamed(ps, quantum, st, i);
    var st1 := Enqueued(ps, ran);
    EnqueuedKeeps(ps, ran, Some(i));
    assert st1.gantt == ran.gantt && st1.remaining == ran.remaining && st1.completion == ran.completion;
    assert Drawn(ps, quantum, st1) && Settled(ps, st1, Some(i)) && Named(ps, st1, Some(i)) by {
      forall j | 0 <= j < |ps| ensures DoneAt(ps, st1, Some(i), j) {
        assert DoneAt(ps, ran, Some(i), j);
      }
      if UniqueNames(ps) && NoneNamedIdle(ps) {
        forall j | 0 <= j < |ps| ensures NamedAt(ps, st1, Some(i), j) {
          assert NamedAt(ps, ran, Some(i), j);
        }
      }
    }
    SettleKeeps(ps, quantum, st1, i);
  }

  /**
   * The order a dispatch leaves the queue in: the queue as it was, then the
   * ids that arrived by the end of the slice and were never enqueued, then
   * the dispatched id again if it has work left; a finished process is not
   * queued again and completes at the new time.
   */
  lemma {:induction false} DispatchOrder(ps: seq<Process>, quantum: int, st: RRState, i: nat)
    requires Admissible(ps) && quantum > 0
    requires |st.remaining| == |ps| == |st.completion| && i < |ps|
    requires st.remaining[i] > 0 && ps[i].id in st.arrived && ps[i].id !in st.queue
    ensures var st', n := Dispatch(ps, quantum, st, i), |st.queue|;
      && st'.remaining[i] == st.remaining[i] - Min(quantum, st.remaining[i])
      && n <= |st'.queue| && st'.queue[..n] == st.queue
      && (st'.remaining[i] > 0 ==>
            && st'.queue[|st'.queue| - 1] == ps[i].id
            && forall k | n <= k < |st'.queue| - 1 ::
                 st'.queue[k] !in st.arrived && Due(ps, st'.remaining, st'.time, st'.queue[k]))
      && (st'.remaining[i] == 0 ==>
            && st'.completion[i] == st'.time && ps[i].id !in st'.queue
            && forall k | n <= k < |st'.queue| ::
                 st'.queue[k] !in st.arrived && Due(ps, st'.remaining, st'.time, st'.queue[k]))
  {
    var ran := RunSlice(ps, quantum, st, i);
    var added := Arrivals(ps, ran.remaining, ran.time, ran.arrived, |ps|);
    ArrivalsDue(ps, ran.remaining, ran.time, ran.arrived, |ps|);
    var st1 := Enqueued(ps, ran);
    assert st1.queue == st.queue + added;
    var st' := Dispatch(ps, quantum, st, i);
    if st1.remaining[i] > 0 {
      assert st'.queue == st.queue + added + [ps[i].id];
      forall k | |st.queue| <= k < |st'.queue| - 1
        ensures st'.queue[k] !in st.arrived && Due(ps, st'.remaining, st'.time, st'.queue[k])
      {
        assert st'.queue[k] == added[k - |st.queue|];
      }
    } else {
      assert st'.queue == st.queue + added;
      forall k | |st.queue| <= k < |st'.queue|
        ensures st'.queue[k] !in st.arrived && Due(ps, st'.remaining, st'.time, st'.queue[k])
      {
        assert st'.queue[k] == added[k - |st.queue|];
      }
      assert ps[i].id !in added;
    }
  }

  /** `queue.shift()` and the dispatch keep the invariant; a non-empty queue means less work afterwards. */
  lemma {:induction false} TurnKeeps(ps: seq<Process>, quantum: int, st: RRState)
    requires Admissible(ps) && quantum > 0 && Inv(ps, quantum, st)
    ensures Inv(ps, quantum, Turn(ps, quantum, st))
    ensures st.queue != [] ==> SumRemaining(Turn(ps, quantum, st).remaining) < SumRemaining(st.remaining)
  {
    if st.queue != [] {
      var h := st.queue[0];
      assert h in st.arrived && Pending(ps, st.remaining, h);
      var i := FindById(ps, h).value;
      var rest := st.(queue := st.queue[1..]);
      forall j | 0 <= j < |ps| ensures WorkAt(ps, rest, j) {
        assert WorkAt(ps, st, j);
      }
      forall t | 0 <= t < |rest.queue| ensures rest.queue[t] in rest.arrived && Pending(ps, rest.remaining, rest.queue[t]) {
        assert rest.queue[t] == st.queue[t + 1];
      }
      assert Distinct(rest.queue) by {
        forall s, t | 0 <= s < t < |rest.queue| ensures rest.queue[s] != rest.queue[t] {
          assert rest.queue[s] == st.queue[s + 1] && rest.queue[t] == st.queue[t + 1];
        }
      }
      forall j | 0 <= j < |ps| ensures DoneAt(ps, rest, None, j) {
        assert DoneAt(ps, st, None, j);
      }
      if UniqueNames(ps) && NoneNamedIdle(ps) {
        forall j | 0 <= j < |ps| ensures NamedAt(ps, rest, None, j) {
          assert NamedAt(ps, st, None, j);
        }
      }
      forall j | 0 <= j < |ps| && Some(i) != Some(j) && ps[j].id in rest.arrived && rest.remaining[j] > 0
        ensures ps[j].id in rest.queue
      {
        assert FindById(ps, ps[j].id) == Some(j);
        assert ps[j].id in st.queue;
      }
      assert ps[i].id !in rest.queue by {
        forall t | 0 <= t < |rest.queue| ensures rest.queue[t] != h {
          assert rest.queue[t] == st.queue[t + 1];
        }
      }
      DispatchKeeps(ps, quantum, rest, i);
    }
  }

  lemma {:induction false} StartKeeps(ps: seq<Process>, quantum: int)
    requires Admissible(ps) && quantum > 0
    ensures Inv(ps, quantum, Start(ps))
  {
    SumRemainingBursts(ps);
    FinishedAll(Start(ps).remaining);
  }

  /** One pass keeps the invariant, and a pass that does not break leaves less work. */
  lemma {:induction false} StepKeeps(ps: seq<Process>, quantum: int, st: RRState)
    requires Admissible(ps) && quantum > 0 && Inv(ps, quantum, st)
    ensures Inv(ps, quantum, Step(ps, quantum, st))
    ensures Running(ps, st) ==> SumRemaining(Step(ps, quantum, st).remaining) < SumRemaining(st.remaining)
  {
    var p := Prepare(ps, st);
    PrepareKeeps(ps, quantum, st);
    var e := Enqueued(ps, p);
    EnqueuedInv(ps, quantum, p);
    TurnKeeps(ps, quantum, e);
    if Running(ps, st) && st.queue == [] {
      var j := NextPending(ps, st.remaining).value;
      assert ps[j].id in e.queue;
    }
  }

  /** `enqueueArrivals()` at the top of a pass keeps the invariant and queues every due process. */
  lemma {:induction false} EnqueuedInv(ps: seq<Process>, quantum: int, st: RRState)
    requires Admissible(ps) && Inv(ps, quantum, st)
    ensures Inv(ps, quantum, Enqueued(ps, st))
    ensures forall j | 0 <= j < |ps| && ps[j].arrival <= st.time && st.remaining[j] > 0 :: ps[j].id in Enqueued(ps, st).queue
  {
    var e := Enqueued(ps, st);
    EnqueuedKeeps(ps, st, None);
    forall j | 0 <= j < |ps| ensures DoneAt(ps, e, None, j) {
      assert DoneAt(ps, st, None, j);
    }
    if UniqueNames(ps) && NoneNamedIdle(ps) {
      forall j | 0 <= j < |ps| ensures NamedAt(ps, e, None, j) {
        assert NamedAt(ps, st, None, j);
      }
    }
  }

  /** The loop ends in a state where it stops, and the invariant holds there. */
  lemma {:induction false} RunKeeps(ps: seq<Process>, quantum: int, st: RRState)
    requires Admissible(ps) && quantum > 0 && Inv(ps, quantum, st)
    ensures Inv(ps, quantum, Run(ps, quantum, st)) && !Running(ps, Run(ps, quantum, st))
    decreases SumRemaining(st.remaining)
  {
    if Running(ps, st) {
      StepKeeps(ps, quantum, st);
      RunKeeps(ps, quantum, Step(ps, quantum, st));
    }
  }

  // ---------------------------------------------------------------------
  // What the simulator promises

  /** The loop stops in a reachable state where every process is complete. */
  lemma {:induction false} Finish(ps: seq<Process>, quantum: int)
    requires Admissible(ps) && quantum > 0
    ensures Inv(ps, quantum, Run(ps, quantum, Start(ps)))
    ensures forall i | 0 <= i < |ps| :: Run(ps, quantum, Start(ps)).remaining[i] == 0
  {
    var st := Run(ps, quantum, Start(ps));
    StartKeeps(ps, quantum);
    RunKeeps(ps, quantum, Start(ps));
    FinishedAll(st.remaining);
  }

  /**
   * For every admissible input and positive quantum, what `simulateRR`
   * returns: one record per process in input order, none completing before
   * arrival + burst or after the end of the chart; the chart tiles
   * [0, totalTime) with no slice longer than the quantum; and the busy time
   * is the sum of the bursts, which is also the length of the non-Idle bars,
   * each process's bars adding up to its burst.
   */
  lemma {:induction false} Schedule(ps: seq<Process>, quantum: int)
    requires Admissible(ps) && quantum > 0
    ensures var r := Outcome(ps, quantum);
      && Served(r.summary) == ps
      && AllConsistent(r.summary)
      && (forall k | 0 <= k < |ps| :: CompletionOf(r.summary[k]) <= r.totalTime)
      && CoversFromZero(r.gantt)
      && (forall k | 0 <= k < |r.gantt| :: r.gantt[k].name != IdleName ==> r.gantt[k].end - r.gantt[k].start <= quantum)
      && r.busyTime == SumBursts(ps)
      && (NoneNamedIdle(ps) ==> BusyLength(r.gantt) == SumBursts(ps))
      && (UniqueNames(ps) && NoneNamedIdle(ps) ==> forall i | 0 <= i < |ps| :: NamedLength(r.gantt, ps[i].name) == ps[i].burst)
  {
    var st := Run(ps, quantum, Start(ps));
    Finish(ps, quantum);
    FinalRecords(ps, quantum, st);
    FinalChart(ps, quantum, st);
  }

  /**
   * The corrected summary is as consistent, and no completion the source
   * reads off the chart by name comes before the tick at which the process
   * actually finished; the two runs share the chart and the busy time.
   */
  lemma {:induction false} ByNameNeverEarly(ps: seq<Process>, quantum: int)
    requires Admissible(ps) && quantum > 0
    ensures var r, c := Outcome(ps, quantum), CorrectedOutcome(ps, quantum);
      && r.gantt == c.gantt && r.totalTime == c.totalTime && r.busyTime == c.busyTime
      && Served(c.summary) == ps && AllConsistent(c.summary)
      && forall k | 0 <= k < |ps| :: CompletionOf(c.summary[k]) <= CompletionOf(r.summary[k])
  {
    var st := Run(ps, quantum, Start(ps));
    Finish(ps, quantum);
    FinalRecords(ps, quantum, st);
  }

  /**
   * Once every process is complete, the records of both summaries are
   * consistent and end by the end of the chart, the one read by name no
   * earlier than the one from the completion ticks.
   */
  lemma {:induction false} FinalRecords(ps: seq<Process>, quantum: int, st: RRState)
    requires Admissible(ps) && Inv(ps, quantum, st) && forall i | 0 <= i < |ps| :: st.remaining[i] == 0
    ensures var summary, named := Summary(ps, st.completion), SummaryByName(ps, st.gantt);
      && Served(summary) == ps && AllConsistent(summary)
      && Served(named) == ps && AllConsistent(named)
      && forall k | 0 <= k < |ps| :: CompletionOf(summary[k]) <= CompletionOf(named[k]) <= EndOf(st.gantt)
  {
    var summary, named := Summary(ps, st.completion), SummaryByName(ps, st.gantt);
    forall k | 0 <= k < |ps|
      ensures Consistent(summary[k]) && Consistent(named[k])
      ensures CompletionOf(summary[k]) <= CompletionOf(named[k]) <= EndOf(st.gantt)
    {
      assert DoneAt(ps, st, None, k);
    }
    assert Served(summary) == ps;
    assert Served(named) == ps;
  }

  /** Once every process is complete, the busy time is all the work, and so is each name's share of the chart. */
  lemma {:induction false} FinalChart(ps: seq<Process>, quantum: int, st: RRState)
    requires Admissible(ps) && Inv(ps, quantum, st) && forall i | 0 <= i < |ps| :: st.remaining[i] == 0
    ensures st.busy == SumBursts(ps)
    ensures NoneNamedIdle(ps) ==> BusyLength(st.gantt) == SumBursts(ps)
    ensures UniqueNames(ps) && NoneNamedIdle(ps) ==> forall i | 0 <= i < |ps| :: NamedLength(st.gantt, ps[i].name) == ps[i].burst
  {
    SumRemainingZero(st.remaining);
    if UniqueNames(ps) && NoneNamedIdle(ps) {
      forall i | 0 <= i < |ps| ensures NamedLength(st.gantt, ps[i].name) == ps[i].burst {
        assert NamedAt(ps, st, None, i);
      }
    }
  }

  /**
   * When no two processes share a name and none is named "Idle", what
   * `simulateRR` returns, with the summary read off the chart by name, is
   * the corrected outcome built from the completion ticks.
   */
  lemma {:induction false} ByNameAgrees(ps: seq<Process>, quantum: int)
    requires Admissible(ps) && quantum > 0 && UniqueNames(ps) && NoneNamedIdle(ps)
    ensures Outcome(ps, quantum) == CorrectedOutcome(ps, quantum)
  {
    var st := Run(ps, quantum, Start(ps));
    Finish(ps, quantum);
    forall i | 0 <= i < |ps| ensures CompletionByName(st.gantt, ps[i]) == st.completion[i] {
      assert NamedAt(ps, st, None, i);
    }
  }

  /** Two processes: one named "Idle" that arrives at 0 and runs one tick, and one arriving at 3. */
  function IdleSample(): seq<Process> {
    [Process(1, IdleName, 0, 1), Process(2, "B", 3, 1)]
  }

  /** The first pass on `IdleSample()` with quantum 2: the process named "Idle" runs [0, 1) and completes. */
  lemma {:induction false} IdleSampleFirst()
    ensures Step(IdleSample(), 2, Start(IdleSample())) == IdleSampleAfterFirst()
  {
    IdleSampleFirstReady();
    IdleSampleFirstTurn();
  }

  /** At the first pass nothing is queued and the first process, due at 0, is enqueued. */
  lemma {:induction false} IdleSampleFirstReady()
    ensures Enqueued(IdleSample(), Prepare(IdleSample(), Start(IdleSample())))
         == RRState([1, 1], [0, 0], [], [1], {1}, 0, 0, 0)
  {
    var ps := IdleSample();
    var st0 := Start(ps);
    assert st0 == RRState([1, 1], [0, 0], [], [], {}, 0, 0, 0);
    assert NextPendingIn(ps, [1, 1], 1) == Some(0);
    assert Prepare(ps, st0) == st0;
    assert Arrivals(ps, [1, 1], 0, {}, 1) == [1];
  }

  /** The first process runs its one tick and completes at 1; nothing else has arrived. */
  lemma {:induction false} IdleSampleFirstTurn()
    ensures Turn(IdleSample(), 2, RRState([1, 1], [0, 0], [], [1], {1}, 0, 0, 0)) == IdleSampleAfterFirst()
  {
    var ps := IdleSample();
    assert FindById(ps, 1) == Some(0);
    var ran0 := RRState([0, 1], [0, 0], [Segment(IdleName, 0, 1)], [], {1}, 1, 1, 0);
    assert RunSlice(ps, 2, RRState([1, 1], [0, 0], [], [], {1}, 0, 0, 0), 0) == ran0;
    assert Arrivals(ps, [0, 1], 1, {1}, 1) == [];
    assert Enqueued(ps, ran0) == ran0;
  }

  /** The second pass: an Idle gap [1, 3), then the second process runs [3, 4) and completes. */
  lemma {:induction false} IdleSampleSecond()
    ensures Step(IdleSample(), 2, IdleSampleAfterFirst()) == IdleSampleAfterSecond()
  {
    IdleSampleSecondReady();
    IdleSampleSecondTurn();
  }

  /** With the queue empty the clock jumps over [1, 3) to the second arrival, which is enqueued. */
  lemma {:induction false} IdleSampleSecondReady()
    ensures Enqueued(IdleSample(), Prepare(IdleSample(), IdleSampleAfterFirst()))
         == RRState([0, 1], [1, 0], [Segment(IdleName, 0, 1), Segment(IdleName, 1, 3)], [2], {1, 2}, 3, 1, 1)
  {
    var ps := IdleSample();
    var st1 := IdleSampleAfterFirst();
    assert NextPendingIn(ps, [0, 1], 1) == None;
    var p1 := st1.(gantt := st1.gantt + [Segment(IdleName, 1, 3)], time := 3);
    assert Prepare(ps, st1) == p1;
    assert Arrivals(ps, [0, 1], 3, {1}, 1) == [];
  }

  /** The second process runs its one tick and completes at 4. */
  lemma {:induction false} IdleSampleSecondTurn()
    ensures Turn(IdleSample(), 2, RRState([0, 1], [1, 0], [Segment(IdleName, 0, 1), Segment(IdleName, 1, 3)], [2], {1, 2}, 3, 1, 1))
         == IdleSampleAfterSecond()
  {
    var ps := IdleSample();
    var e1 := RRState([0, 1], [1, 0], [Segment(IdleName, 0, 1), Segment(IdleName, 1, 3)], [], {1, 2}, 3, 1, 1);
    assert FindById(ps, 2) == Some(1);
    var ran1 := e1.(gantt := e1.gantt + [Segment("B", 3, 4)], remaining := [0, 0], time := 4, busy := 2);
    assert RunSlice(ps, 2, e1, 1) == ran1;
    assert Arrivals(ps, [0, 0], 4, {1, 2}, 1) == [];
    assert Enqueued(ps, ran1) == ran1;
  }

  lemma {:induction false} IdleSampleWellFormed()
    ensures WellFormed(IdleSample()) && Admissible(IdleSample())
  {
    AdmissibleIff(IdleSample());
  }

  /** The state after the first pass on `IdleSample()`. */
  function IdleSampleAfterFirst(): RRState {
    RRState([0, 1], [1, 0], [Segment(IdleName, 0, 1)], [], {1}, 1, 1, 1)
  }

  /** The state after the second pass: every process is complete. */
  function IdleSampleAfterSecond(): RRState {
    RRState([0, 0], [1, 4], [Segment(IdleName, 0, 1), Segment(IdleName, 1, 3), Segment("B", 3, 4)], [], {1, 2}, 4, 2, 2)
  }

  lemma {:induction false} IdleSampleStops()
    ensures Run(IdleSample(), 2, IdleSampleAfterSecond()) == IdleSampleAfterSecond()
  {
  }

  /** One pass of the loop that leaves less work: the loop goes on from the new state. */
  lemma {:induction false} RunUnfold(ps: seq<Process>, quantum: int, st: RRState, st': RRState)
    requires |ps| <= |st.remaining| && |ps| <= |st.completion| && quantum > 0
    requires Running(ps, st) && st' == Step(ps, quantum, st)
    requires SumRemaining(st'.remaining) < SumRemaining(st.remaining)
    ensures Run(ps, quantum, st) == Run(ps, quantum, st')
  {
  }

  lemma {:induction false} IdleSampleRunSecond()
    ensures Run(IdleSample(), 2, IdleSampleAfterFirst()) == IdleSampleAfterSecond()
  {
    var ps := IdleSample();
    IdleSampleSecond();
    IdleSampleStops();
    assert NextPendingIn(ps, [0, 1], 2) == Some(1);
    assert SumRemaining([0, 0]) < SumRemaining([0, 1]);
    RunUnfold(ps, 2, IdleSampleAfterFirst(), IdleSampleAfterSecond());
  }

  /** After the two passes every process is complete and the loop stops. */
  lemma {:induction false} IdleSampleRun(ps: seq<Process>)
    requires ps == IdleSample()
    ensures Run(ps, 2, Start(ps)) == IdleSampleAfterSecond()
  {
    IdleSampleFirst();
    IdleSampleRunSecond();
    IdleSampleStartRuns();
    RunUnfold(ps, 2, Start(ps), IdleSampleAfterFirst());
  }

  /** At the start the loop goes on, and the first pass leaves less work. */
  lemma {:induction false} IdleSampleStartRuns()
    ensures Running(IdleSample(), Start(IdleSample()))
    ensures SumRemaining(IdleSampleAfterFirst().remaining) < SumRemaining(Start(IdleSample()).remaining)
  {
    var ps := IdleSample();
    assert Start(ps).remaining == [1, 1] && Start(ps).completed == 0;
    assert NextPendingIn(ps, [1, 1], 2).Some?;
    assert SumRemaining([0, 1]) < SumRemaining([1, 1]);
  }

  /**
   * A process named "Idle" that finishes before a later Idle gap: reading
   * its completion off the chart by name gives the end of the gap (3)
   * instead of its own completion (1).
   */
  lemma {:induction false} IdleNamedProcess()
    ensures Admissible(IdleSample())
    ensures CompletionOf(Outcome(IdleSample(), 2).summary[0]) == 3
    ensures CompletionOf(CorrectedOutcome(IdleSample(), 2).summary[0]) == 1
  {
    IdleSampleOutcome();
    IdleSampleByName();
  }

  /** The chart on `IdleSample()` with quantum 2, and the first record built from the completion ticks. */
  lemma {:induction false} IdleSampleOutcome()
    ensures Admissible(IdleSample())
    ensures Outcome(IdleSample(), 2).gantt == IdleSampleAfterSecond().gantt
    ensures CompletionOf(CorrectedOutcome(IdleSample(), 2).summary[0]) == 1
  {
    IdleSampleWellFormed();
    IdleSampleRun(IdleSample());
  }

  /** The chart after the two passes, read by name: the last "Idle" bar ends at 3. */
  lemma {:induction false} IdleSampleByName()
    ensures CompletionOf(SummaryByName(IdleSample(), IdleSampleAfterSecond().gantt)[0]) == 3
  {
    var g := IdleSampleAfterSecond().gantt;
    assert g[..2][..1] == [Segment(IdleName, 0, 1)] && g[..2] == [Segment(IdleName, 0, 1), Segment(IdleName, 1, 3)];
    assert LastNamed(g, IdleName) == Some(Segment(IdleName, 1, 3));
  }
}
