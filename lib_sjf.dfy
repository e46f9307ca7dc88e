/**
 * Non-preemptive shortest-job-first as the library behind the Home page
 * computes it (`simulateSJF` in src/utlis/algorithms.js). At each decision
 * point the processes that have arrived and are not done are sorted by
 * (burst, arrival) with a stable sort and the first one runs to completion;
 * when none has arrived the clock jumps to the earliest pending arrival and
 * one Idle segment covers the gap.
 */
module LibSJF {
  import opened Scheduling

  /** `ps[j]` has arrived by `time` and is not in the `done` set. */
  predicate Ready(ps: seq<Process>, done: set<int>, time: int, j: nat)
    requires j < |ps|
  {
    ps[j].id !in done && ps[j].arrival <= time
  }

  /**
   * `p` (at input position `i`) comes first in
   * `available.sort((a,b) => a.burst - b.burst || a.arrival - b.arrival)` when both are
   * available: shorter burst, then earlier arrival, then input order (the sort is stable).
   */
  predicate Before(p: Process, i: nat, q: Process, j: nat) {
    p.burst < q.burst || (p.burst == q.burst && (p.arrival < q.arrival || (p.arrival == q.arrival && i <= j)))
  }

  predicate ShortestFirst(ps: seq<Process>, m: nat, j: nat)
    requires m < |ps| && j < |ps|
  {
    Before(ps[m], m, ps[j], j)
  }

  /** `available[0]` after the stable sort, as an index into `ps`; None when nothing is available. */
  function PickShortest(ps: seq<Process>, done: set<int>, time: int): (r: Option<nat>)
    ensures r.None? <==> forall j | 0 <= j < |ps| :: !Ready(ps, done, time, j)
    ensures r.Some? ==> r.value < |ps| && Ready(ps, done, time, r.value)
    ensures r.Some? ==> forall j | 0 <= j < |ps| && Ready(ps, done, time, j) :: ShortestFirst(ps, r.value, j)
  {
    PickShortestIn(ps, done, time, |ps|)
  }

  /** The same choice among the first `n` processes. */
  function PickShortestIn(ps: seq<Process>, done: set<int>, time: int, n: nat): (r: Option<nat>)
    requires n <= |ps|
    ensures r.None? <==> forall j | 0 <= j < n :: !Ready(ps, done, time, j)
    ensures r.Some? ==> r.value < n && Ready(ps, done, time, r.value)
    ensures r.Some? ==> forall j | 0 <= j < n && Ready(ps, done, time, j) :: ShortestFirst(ps, r.value, j)
  {
    if n == 0 then None
    else
      var r := PickShortestIn(ps, done, time, n - 1);
      var m := n - 1;
      if Ready(ps, done, time, m) &&
         (r.None? || ps[m].burst < ps[r.value].burst ||
          (ps[m].burst == ps[r.value].burst && ps[m].arrival < ps[r.value].arrival))
      then Some(m)
      else r
  }

  /**
   * `procs.filter(p => !done.has(p.id)).sort((a,b) => a.arrival - b.arrival)[0]`
   * as an index into `ps`: the first pending process with the earliest arrival.
   */
  function FirstArrival(ps: seq<Process>, done: set<int>): (r: Option<nat>)
    ensures r.None? <==> forall j | 0 <= j < |ps| :: ps[j].id in done
    ensures r.Some? ==> r.value < |ps| && ps[r.value].id !in done
    ensures r.Some? ==> forall j | 0 <= j < |ps| && ps[j].id !in done :: ps[r.value].arrival <= ps[j].arrival
    ensures r.Some? ==> forall j | 0 <= j < r.value && ps[j].id !in done :: ps[r.value].arrival < ps[j].arrival
  {
    FirstArrivalIn(ps, done, |ps|)
  }

  function FirstArrivalIn(ps: seq<Process>, done: set<int>, n: nat): (r: Option<nat>)
    requires n <= |ps|
    ensures r.None? <==> forall j | 0 <= j < n :: ps[j].id in done
    ensures r.Some? ==> r.value < n && ps[r.value].id !in done
    ensures r.Some? ==> forall j | 0 <= j < n && ps[j].id !in done :: ps[r.value].arrival <= ps[j].arrival
    ensures r.Some? ==> forall j | 0 <= j < r.value && ps[j].id !in done :: ps[r.value].arrival < ps[j].arrival
  {
    if n == 0 then None
    else
      var r := FirstArrivalIn(ps, done, n - 1);
      var m := n - 1;
      if ps[m].id !in done && (r.None? || ps[m].arrival < ps[r.value].arrival) then Some(m) else r
  }

  /** The processes not yet done, in input order. */
  function Pending(ps: seq<Process>, done: set<int>): seq<Process> {
    if ps == [] then []
    else (if ps[0].id in done then [] else [ps[0]]) + Pending(ps[1..], done)
  }

  lemma {:induction false} PendingNone(ps: seq<Process>)
    ensures Pending(ps, {}) == ps
  {
    if ps != [] {
      PendingNone(ps[1..]);
      assert ps == [ps[0]] + ps[1..];
    }
  }

  lemma {:induction false} PendingAllDone(ps: seq<Process>, done: set<int>)
    requires forall j | 0 <= j < |ps| :: ps[j].id in done
    ensures Pending(ps, done) == []
  {
    if ps != [] {
      assert forall j | 0 <= j < |ps[1..]| :: ps[1..][j].id in done by {
        forall j | 0 <= j < |ps[1..]| ensures ps[1..][j].id in done {
          assert ps[1..][j] == ps[j + 1];
        }
      }
      PendingAllDone(ps[1..], done);
    }
  }

  /** Marking the pending `ps[m]` done removes exactly that process from the pending ones. */
  lemma {:induction false} PendingRemove(ps: seq<Process>, done: set<int>, m: nat)
    requires UniqueIds(ps) && m < |ps| && ps[m].id !in done
    ensures multiset(Pending(ps, done)) == multiset(Pending(ps, done + {ps[m].id})) + multiset{ps[m]}
  {
    var done' := done + {ps[m].id};
    var tail := ps[1..];
    assert UniqueIds(tail) && forall j | 0 <= j < |tail| :: tail[j].id != ps[0].id by {
      UniqueTail(ps);
    }
    if m == 0 {
      PendingSame(tail, done, ps[0].id);
      assert Pending(ps, done') == Pending(tail, done');
    } else {
      assert ps[0].id in done' <==> ps[0].id in done;
      assert tail[m - 1] == ps[m];
      PendingRemove(tail, done, m - 1);
    }
  }

  /** The tail of a list with distinct ids has distinct ids, none of them the head's. */
  lemma {:induction false} UniqueTail(ps: seq<Process>)
    requires UniqueIds(ps) && ps != []
    ensures UniqueIds(ps[1..]) && forall j | 0 <= j < |ps| - 1 :: ps[1..][j].id != ps[0].id
  {
    var tail := ps[1..];
    forall i, j | 0 <= i < j < |tail| ensures tail[i].id != tail[j].id {
      assert tail[i] == ps[i + 1] && tail[j] == ps[j + 1];
    }
    forall j | 0 <= j < |tail| ensures tail[j].id != ps[0].id {
      assert tail[j] == ps[j + 1];
    }
  }

  lemma {:induction false} PendingSame(ps: seq<Process>, done: set<int>, id: int)
    requires forall j | 0 <= j < |ps| :: ps[j].id != id
    ensures Pending(ps, done + {id}) == Pending(ps, done)
  {
    if ps != [] {
      assert forall j | 0 <= j < |ps[1..]| :: ps[1..][j].id != id by {
        forall j | 0 <= j < |ps[1..]| ensures ps[1..][j].id != id {
          assert ps[1..][j] == ps[j + 1];
        }
      }
      PendingSame(ps[1..], done, id);
    }
  }

  /**
   * The summary is a shortest-job-first schedule; `order[k]` is the input
   * position of the k-th process served.
   *   - each record starts as soon as the CPU is free and the process has arrived;
   *   - the CPU idles only when nothing still to be served has arrived: the
   *     first record, and a record after a gap, start no later than any
   *     later record's arrival;
   *   - a record comes first by (burst, arrival, input position) among all
   *     later records that have arrived when it starts.
   */
  ghost predicate ShortestJobOrder(summary: seq<Record>, order: seq<nat>)
    requires |summary| == |order|
  {
    && StartsWhenReady(summary)
    && IdlesOnlyWhenEmpty(summary)
    && (forall k, k' | 0 <= k < k' < |summary| && summary[k'].arrival <= StartOf(summary[k]) ::
          Before(ProcessOf(summary[k]), order[k], ProcessOf(summary[k']), order[k']))
  }

  /** The processes not yet done were passed over by every record so far for a good reason. */
  ghost predicate PendingPassedOver(ps: seq<Process>, summary: seq<Record>, order: seq<nat>, done: set<int>)
    requires |summary| == |order| && forall k | 0 <= k < |order| :: order[k] < |ps|
  {
    && (forall k, j {:trigger FreeAt(summary, k), ps[j]} |
          0 <= k < |summary| && 0 <= j < |ps| && ps[j].id !in done && StartOf(summary[k]) > FreeAt(summary, k) ::
          ps[j].arrival >= StartOf(summary[k]))
    && (forall k, j | 0 <= k < |summary| && 0 <= j < |ps| && ps[j].id !in done && ps[j].arrival <= StartOf(summary[k]) ::
          ShortestFirst(ps, order[k], j))
  }

  /** What the main loop knows: the records so far follow the policy and the chart is in step. */
  ghost predicate LoopInvariant(ps: seq<Process>, gantt: seq<Segment>, summary: seq<Record>, order: seq<nat>,
                                done: set<int>, time: int, busy: int)
  {
    && |summary| == |order| <= |ps|
    && (forall k | 0 <= k < |order| :: order[k] < |ps| && ProcessOf(summary[k]) == ps[order[k]])
    && multiset(Served(summary)) + multiset(Pending(ps, done)) == multiset(ps)
    && AllConsistent(summary)
    && ShortestJobOrder(summary, order)
    && PendingPassedOver(ps, summary, order, done)
    && busy == SumBursts(Served(summary))
    && CoversFromZero(gantt) && EndOf(gantt) == time
    && ClockState(ps, gantt, summary, done, time)
  }

  /**
   * The clock stands at the last completion, or it has just jumped over one
   * trailing Idle gap to an arrival that nothing pending precedes.
   */
  ghost predicate ClockState(ps: seq<Process>, gantt: seq<Segment>, summary: seq<Record>, done: set<int>, time: int) {
    var free := FreeAt(summary, |summary|);
    && time >= free
    && gantt == Chart(summary) + Gap(free, time)
    && (time > free ==>
          && (forall j | 0 <= j < |ps| && ps[j].id !in done :: ps[j].arrival >= time)
          && exists j | 0 <= j < |ps| :: Ready(ps, done, time, j))
  }

  /** The variables of the main loop; `order[k]` is the input position of the k-th process served. */
  datatype LoopState = LoopState(gantt: seq<Segment>, summary: seq<Record>, order: seq<nat>,
                                 done: set<int>, time: int, busy: int)

  /** Nothing has arrived and nothing is pending: the loop breaks. */
  predicate Stalled(ps: seq<Process>, st: LoopState) {
    PickShortest(ps, st.done, st.time).None? && FirstArrival(ps, st.done).None?
  }

  /**
   * One pass of the main loop: run the shortest available process to
   * completion, or jump over an Idle gap to the earliest pending arrival.
   */
  ghost function Step(ps: seq<Process>, st: LoopState): (st': LoopState)
    ensures Stalled(ps, st) || |st'.summary| == |st.summary| + 1 ||
            (|st'.summary| == |st.summary| && st.time < st'.time <= MaxArrival(ps))
  {
    match PickShortest(ps, st.done, st.time)
    case Some(m) =>
      var rec := StartedAt(ps[m], st.time);
      LoopState(st.gantt + [RunSegment(rec)], st.summary + [rec],
                st.order + [m], st.done + {ps[m].id}, st.time + ps[m].burst, st.busy + ps[m].burst)
    case None =>
      match FirstArrival(ps, st.done)
      case None => st
      case Some(j) =>
        assert !Ready(ps, st.done, st.time, j);
        st.(gantt := st.gantt + [Segment(IdleName, st.time, ps[j].arrival)], time := ps[j].arrival)
  }

  /** The loop from state `st` on, until `completed < n` fails or it breaks. */
  ghost function Run(ps: seq<Process>, st: LoopState): LoopState
    decreases |ps| - |st.summary|, MaxArrival(ps) - st.time
  {
    if |st.summary| >= |ps| || Stalled(ps, st) then st else Run(ps, Step(ps, st))
  }

  /** The state the loop starts from. */
  function Start(): LoopState {
    LoopState([], [], [], {}, 0, 0)
  }

  /** The simulation `simulateSJF` returns, from the state the loop ends in. */
  ghost function Outcome(ps: seq<Process>): Simulation {
    var st := Run(ps, Start());
    Simulation(st.gantt, st.summary, st.time, TotalsOf(st.summary), st.busy)
  }

  method SimulateSJF(processes: seq<Process>) returns (r: Simulation)
    requires WellFormed(processes)
    ensures r == Outcome(processes)
  {
    var procs := processes;
    var gantt: seq<Segment> := [];
    var summary: seq<Record> := [];
    var time := 0;
    var completed := 0;
    var busy := 0;
    var n := |procs|;
    var done: set<int> := {};
    ghost var order: seq<nat> := [];

    while completed < n
      invariant completed == |summary|
      invariant Run(procs, LoopState(gantt, summary, order, done, time, busy)) == Run(procs, Start())
      decreases n - completed, MaxArrival(procs) - time
    {
      var pick := PickShortest(procs, done, time);
      if pick.None? {
        // jump to the next arrival
        var next := FirstArrival(procs, done);
        if next.None? {
          break;
        }
        assert !Ready(procs, done, time, next.value);
        ghost var st0 := LoopState(gantt, summary, order, done, time, busy);
        gantt := gantt + [Segment(IdleName, time, procs[next.value].arrival)];
        time := procs[next.value].arrival;
        assert LoopState(gantt, summary, order, done, time, busy) == Step(procs, st0);
        continue;
      }
      var m := pick.value;
      ghost var st0 := LoopState(gantt, summary, order, done, time, busy);
      var rec := StartedAt(procs[m], time);
      gantt := gantt + [RunSegment(rec)];
      summary := summary + [rec];
      time := time + procs[m].burst;
      busy := busy + procs[m].burst;
      done := done + {procs[m].id};
      completed := completed + 1;
      order := order + [m];
      assert LoopState(gantt, summary, order, done, time, busy) == Step(procs, st0);
    }
    r := Simulation(gantt, summary, time, TotalsOf(summary), busy);
  }

  /**
   * What `simulateSJF` promises: every process is served exactly once, in
   * shortest-job-first order, without idling while work waits; the chart tiles
   * [0, totalTime) with one bar per process and Idle only in front of a bar.
   */
  lemma {:induction false} Schedule(ps: seq<Process>)
    requires UniqueIds(ps) && forall j | 0 <= j < |ps| :: ps[j].burst > 0
    ensures var st := Run(ps, Start());
      && multiset(Served(st.summary)) == multiset(ps)
      && |st.order| == |st.summary| && (forall k | 0 <= k < |st.order| :: st.order[k] < |ps| && ProcessOf(st.summary[k]) == ps[st.order[k]])
      && ShortestJobOrder(st.summary, st.order)
      && AllConsistent(st.summary)
      && CoversFromZero(st.gantt) && st.gantt == Chart(st.summary)
      && st.time == EndOf(st.gantt)
      && st.busy == SumBursts(ps)
  {
    PendingNone(ps);
    RunInvariant(ps, Start());
    var st := Run(ps, Start());
    Finish(ps, st.gantt, st.summary, st.order, st.done, st.time, st.busy);
  }

  /** The loop keeps its invariant to the end, and ends with nothing pending or everything served. */
  lemma {:induction false} RunInvariant(ps: seq<Process>, st: LoopState)
    requires UniqueIds(ps) && forall j | 0 <= j < |ps| :: ps[j].burst > 0
    requires LoopInvariant(ps, st.gantt, st.summary, st.order, st.done, st.time, st.busy)
    ensures var st' := Run(ps, st);
      && LoopInvariant(ps, st'.gantt, st'.summary, st'.order, st'.done, st'.time, st'.busy)
      && (|st'.summary| >= |ps| || forall j | 0 <= j < |ps| :: ps[j].id in st'.done)
    decreases |ps| - |st.summary|, MaxArrival(ps) - st.time
  {
    if |st.summary| >= |ps| || Stalled(ps, st) {
    } else {
      StepInvariant(ps, st);
      RunInvariant(ps, Step(ps, st));
    }
  }

  lemma {:induction false} StepInvariant(ps: seq<Process>, st: LoopState)
    requires UniqueIds(ps) && forall j | 0 <= j < |ps| :: ps[j].burst > 0
    requires LoopInvariant(ps, st.gantt, st.summary, st.order, st.done, st.time, st.busy)
    ensures var st' := Step(ps, st); LoopInvariant(ps, st'.gantt, st'.summary, st'.order, st'.done, st'.time, st'.busy)
  {
    var st' := Step(ps, st);
    var pick := PickShortest(ps, st.done, st.time);
    if pick.Some? {
      RunStep(ps, st.gantt, st.summary, st.order, st.done, st.time, st.busy, pick.value,
              st'.gantt, st'.summary, st'.order, st'.done, st'.time, st'.busy);
    } else if FirstArrival(ps, st.done).Some? {
      IdleStep(ps, st.gantt, st.summary, st.order, st.done, st.time, st.busy, FirstArrival(ps, st.done).value, st'.gantt, st'.time);
    }
  }

  lemma {:induction false} PendingMember(ps: seq<Process>, done: set<int>, j: nat)
    requires j < |ps| && ps[j].id !in done
    ensures ps[j] in multiset(Pending(ps, done))
  {
    if j > 0 {
      assert ps[1..][j - 1] == ps[j];
      PendingMember(ps[1..], done, j - 1);
    }
  }

  /** What the loop's state says once every process is served. */
  lemma {:induction false} Finish(ps: seq<Process>, gantt: seq<Segment>, summary: seq<Record>, order: seq<nat>, done: set<int>, time: int, busy: int)
    requires LoopInvariant(ps, gantt, summary, order, done, time, busy)
    requires |summary| >= |ps| || forall j | 0 <= j < |ps| :: ps[j].id in done
    ensures multiset(Served(summary)) == multiset(ps)
    ensures |order| == |summary| && forall k | 0 <= k < |order| :: order[k] < |ps| && ProcessOf(summary[k]) == ps[order[k]]
    ensures ShortestJobOrder(summary, order)
    ensures AllConsistent(summary)
    ensures CoversFromZero(gantt) && gantt == Chart(summary)
    ensures time == EndOf(gantt)
    ensures busy == SumBursts(ps)
  {
    if |summary| < |ps| {
      PendingAllDone(ps, done);
    }
    AllServed(ps, summary, done);
    SumBurstsPermutation(Served(summary), ps);
    NoTrailingIdle(ps, gantt, summary, done, time);
  }

  /** The loop ends with every process served: the count is reached, or nothing is pending. */
  lemma {:induction false} AllServed(ps: seq<Process>, summary: seq<Record>, done: set<int>)
    requires multiset(Served(summary)) + multiset(Pending(ps, done)) == multiset(ps)
    requires |summary| >= |ps| || Pending(ps, done) == []
    ensures multiset(Served(summary)) == multiset(ps)
  {
    assert |Served(summary)| + |Pending(ps, done)| == |ps| by {
      assert |multiset(Served(summary)) + multiset(Pending(ps, done))| == |multiset(ps)|;
    }
    assert Pending(ps, done) == [];
  }

  /** With nothing pending, every process is done. */
  lemma {:induction false} PendingEmpty(ps: seq<Process>, done: set<int>, j: nat)
    requires Pending(ps, done) == [] && j < |ps|
    ensures ps[j].id in done
  {
    if j > 0 {
      assert ps[1..][j - 1] == ps[j];
      PendingEmpty(ps[1..], done, j - 1);
    }
  }

  /** Once every process is served the chart does not end in an Idle gap. */
  lemma {:induction false} NoTrailingIdle(ps: seq<Process>, gantt: seq<Segment>, summary: seq<Record>, done: set<int>, time: int)
    requires ClockState(ps, gantt, summary, done, time)
    requires multiset(Served(summary)) + multiset(Pending(ps, done)) == multiset(ps)
    requires multiset(Served(summary)) == multiset(ps)
    ensures time == FreeAt(summary, |summary|) && gantt == Chart(summary)
  {
    var free := FreeAt(summary, |summary|);
    assert Pending(ps, done) == [] by {
      assert |multiset(Served(summary)) + multiset(Pending(ps, done))| == |multiset(Served(summary))| + |Pending(ps, done)|;
    }
    forall j | 0 <= j < |ps| ensures !Ready(ps, done, time, j) {
      PendingEmpty(ps, done, j);
    }
    assert Chart(summary) + Gap(free, time) == Chart(summary);
  }

  /** The Idle jump: nothing has arrived, so the clock moves to the earliest pending arrival. */
  lemma {:induction false} IdleStep(ps: seq<Process>, gantt: seq<Segment>, summary: seq<Record>, order: seq<nat>, done: set<int>,
                 time: int, busy: int, next: nat, gantt': seq<Segment>, time': int)
    requires LoopInvariant(ps, gantt, summary, order, done, time, busy)
    requires PickShortest(ps, done, time).None?
    requires FirstArrival(ps, done) == Some(next)
    requires gantt' == gantt + [Segment(IdleName, time, ps[next].arrival)] && time' == ps[next].arrival
    ensures LoopInvariant(ps, gantt', summary, order, done, time', busy)
    ensures time < time' <= MaxArrival(ps)
  {
    var free := FreeAt(summary, |summary|);
    assert time == free;
    assert Chart(summary) + Gap(free, time) == Chart(summary);
    assert !Ready(ps, done, time, next);
    AppendCovers(gantt, Segment(IdleName, time, time'));
    assert Ready(ps, done, time', next);
  }

  /** Running the chosen process `ps[m]` to completion keeps the invariant. */
  lemma {:induction false} RunStep(ps: seq<Process>, gantt: seq<Segment>, summary: seq<Record>, order: seq<nat>, done: set<int>,
                time: int, busy: int, m: nat,
                gantt': seq<Segment>, summary': seq<Record>, order': seq<nat>, done': set<int>, time': int, busy': int)
    requires UniqueIds(ps) && (forall j | 0 <= j < |ps| :: ps[j].burst > 0)
    requires LoopInvariant(ps, gantt, summary, order, done, time, busy)
    requires PickShortest(ps, done, time) == Some(m)
    requires gantt' == gantt + [RunSegment(StartedAt(ps[m], time))] && summary' == summary + [StartedAt(ps[m], time)]
    requires order' == order + [m] && done' == done + {ps[m].id}
    requires time' == time + ps[m].burst && busy' == busy + ps[m].burst
    ensures LoopInvariant(ps, gantt', summary', order', done', time', busy')
  {
    var rec := StartedAt(ps[m], time);
    var free := FreeAt(summary, |summary|);
    assert Consistent(rec) && ProcessOf(rec) == ps[m] && StartOf(rec) == time && CompletionOf(rec) == time';
    assert time == Max(free, rec.arrival) by {
      if time > free {
        assert ps[m].arrival >= time;
      }
    }
    TimelineStep(gantt, summary, time, rec, gantt', summary', time');
    assert ClockState(ps, gantt', summary', done', time') by {
      ClockSettled(ps, gantt', summary', done', time');
    }
    ConserveStep(ps, summary, done, m, rec, summary', done');
    BusyStep(summary, rec, busy, summary', busy');
    RecordsStep(ps, summary, order, m, rec, summary', order');
    PolicyStep(ps, summary, order, done, time, m, rec, summary', order');
  }

  /** The chart after the bar of `rec`, which starts when the clock says and the CPU is free. */
  lemma {:induction false} TimelineStep(gantt: seq<Segment>, summary: seq<Record>, time: int, rec: Record,
                     gantt': seq<Segment>, summary': seq<Record>, time': int)
    requires CoversFromZero(gantt) && EndOf(gantt) == time
    requires time >= FreeAt(summary, |summary|) && gantt == Chart(summary) + Gap(FreeAt(summary, |summary|), time)
    requires StartOf(rec) == time && CompletionOf(rec) == time' && time < time'
    requires time == Max(FreeAt(summary, |summary|), rec.arrival)
    requires gantt' == gantt + [RunSegment(rec)] && summary' == summary + [rec]
    ensures CoversFromZero(gantt') && EndOf(gantt') == time'
    ensures gantt' == Chart(summary') && time' == FreeAt(summary', |summary'|)
  {
    AppendCovers(gantt, RunSegment(rec));
    ChartAppend(summary, rec);
  }

  /** A chart that ends where the last record completes leaves the clock settled. */
  lemma {:induction false} ClockSettled(ps: seq<Process>, gantt: seq<Segment>, summary: seq<Record>, done: set<int>, time: int)
    requires gantt == Chart(summary) && time == FreeAt(summary, |summary|)
    ensures ClockState(ps, gantt, summary, done, time)
  {
    assert Gap(time, time) == [];
    assert Chart(summary) + [] == Chart(summary);
  }

  /** Serving the pending `ps[m]` moves it from the pending processes to the served ones. */
  lemma {:induction false} ConserveStep(ps: seq<Process>, summary: seq<Record>, done: set<int>, m: nat, rec: Record,
                     summary': seq<Record>, done': set<int>)
    requires UniqueIds(ps) && m < |ps| && ps[m].id !in done && ProcessOf(rec) == ps[m]
    requires multiset(Served(summary)) + multiset(Pending(ps, done)) == multiset(ps)
    requires summary' == summary + [rec] && done' == done + {ps[m].id}
    ensures multiset(Served(summary')) + multiset(Pending(ps, done')) == multiset(ps)
    ensures |summary'| <= |ps|
  {
    ServedAppend(summary, rec);
    PendingRemove(ps, done, m);
    assert |Served(summary')| + |Pending(ps, done')| == |ps| by {
      assert |multiset(Served(summary')) + multiset(Pending(ps, done'))| == |multiset(ps)|;
    }
  }

  lemma {:induction false} BusyStep(summary: seq<Record>, rec: Record, busy: int, summary': seq<Record>, busy': int)
    requires busy == SumBursts(Served(summary))
    requires summary' == summary + [rec] && busy' == busy + rec.burst
    ensures busy' == SumBursts(Served(summary'))
  {
    ServedAppend(summary, rec);
    assert Served(summary')[..|summary|] == Served(summary);
  }

  /** The new record is consistent and is the process at input position `m`. */
  lemma {:induction false} RecordsStep(ps: seq<Process>, summary: seq<Record>, order: seq<nat>, m: nat, rec: Record,
                    summary': seq<Record>, order': seq<nat>)
    requires |summary| == |order| && forall k | 0 <= k < |order| :: order[k] < |ps| && ProcessOf(summary[k]) == ps[order[k]]
    requires AllConsistent(summary) && Consistent(rec) && m < |ps| && ProcessOf(rec) == ps[m]
    requires summary' == summary + [rec] && order' == order + [m]
    ensures |summary'| == |order'| && forall k | 0 <= k < |order'| :: order'[k] < |ps| && ProcessOf(summary'[k]) == ps[order'[k]]
    ensures AllConsistent(summary')
  {
    forall k | 0 <= k < |order'| ensures order'[k] < |ps| && ProcessOf(summary'[k]) == ps[order'[k]] {
      if k < |order| { assert summary'[k] == summary[k] && order'[k] == order[k]; }
    }
    forall k | 0 <= k < |summary'| ensures Consistent(summary'[k]) {
      if k < |summary| { assert summary'[k] == summary[k]; }
    }
  }

  /** The policy facts for the records so far carry over, and hold for the new one. */
  lemma {:induction false} PolicyStep(ps: seq<Process>, summary: seq<Record>, order: seq<nat>, done: set<int>, time: int, m: nat, rec: Record,
                   summary': seq<Record>, order': seq<nat>)
    requires |summary| == |order| && forall k | 0 <= k < |order| :: order[k] < |ps| && ProcessOf(summary[k]) == ps[order[k]]
    requires ShortestJobOrder(summary, order) && PendingPassedOver(ps, summary, order, done)
    requires PickShortest(ps, done, time) == Some(m)
    requires summary' == summary + [rec] && order' == order + [m] && ProcessOf(rec) == ps[m]
    requires StartOf(rec) == time && time == Max(FreeAt(summary, |summary|), rec.arrival)
    requires time > FreeAt(summary, |summary|) ==> forall j | 0 <= j < |ps| && ps[j].id !in done :: ps[j].arrival >= time
    ensures |summary'| == |order'| && forall k | 0 <= k < |order'| :: order'[k] < |ps|
    ensures ShortestJobOrder(summary', order')
    ensures PendingPassedOver(ps, summary', order', done + {ps[m].id})
  {
    StartsWhenReadyAppend(summary, rec);
    PolicyIdle(ps, summary, order, done, time, m, rec, summary');
    PolicyRank(ps, summary, order, done, time, m, rec, summary', order');
    PolicyPending(ps, summary, order, done, time, m, rec, summary', order');
  }

  lemma {:induction false} PolicyIdle(ps: seq<Process>, summary: seq<Record>, order: seq<nat>, done: set<int>, time: int, m: nat, rec: Record,
                   summary': seq<Record>)
    requires |summary| == |order| && forall k | 0 <= k < |order| :: order[k] < |ps|
    requires ShortestJobOrder(summary, order) && PendingPassedOver(ps, summary, order, done)
    requires m < |ps| && ps[m].id !in done
    requires summary' == summary + [rec] && ProcessOf(rec) == ps[m]
    requires StartOf(rec) == time
    requires time > FreeAt(summary, |summary|) ==> forall j | 0 <= j < |ps| && ps[j].id !in done :: ps[j].arrival >= time
    ensures IdlesOnlyWhenEmpty(summary')
  {
    var n := |summary|;
    assert rec.arrival == ps[m].arrival;
    forall k, k' | 0 <= k <= k' < |summary'| && StartOf(summary'[k]) > FreeAt(summary', k)
      ensures summary'[k'].arrival >= StartOf(summary'[k])
    {
      if k < n {
        assert summary'[k] == summary[k] && FreeAt(summary', k) == FreeAt(summary, k);
        if k' < n {
          assert summary'[k'] == summary[k'];
        } else {
          assert ps[m].arrival >= StartOf(summary[k]);
        }
      } else {
        assert FreeAt(summary', k) == FreeAt(summary, n);
      }
    }
  }

  lemma {:induction false} PolicyRank(ps: seq<Process>, summary: seq<Record>, order: seq<nat>, done: set<int>, time: int, m: nat, rec: Record,
                   summary': seq<Record>, order': seq<nat>)
    requires |summary| == |order| && forall k | 0 <= k < |order| :: order[k] < |ps| && ProcessOf(summary[k]) == ps[order[k]]
    requires ShortestJobOrder(summary, order) && PendingPassedOver(ps, summary, order, done)
    requires m < |ps| && ps[m].id !in done
    requires summary' == summary + [rec] && order' == order + [m] && ProcessOf(rec) == ps[m]
    ensures forall k, k' | 0 <= k < k' < |summary'| && summary'[k'].arrival <= StartOf(summary'[k]) ::
              Before(ProcessOf(summary'[k]), order'[k], ProcessOf(summary'[k']), order'[k'])
  {
    var n := |summary|;
    forall k, k' | 0 <= k < k' < |summary'| && summary'[k'].arrival <= StartOf(summary'[k])
      ensures Before(ProcessOf(summary'[k]), order'[k], ProcessOf(summary'[k']), order'[k'])
    {
      assert summary'[k] == summary[k] && order'[k] == order[k];
      if k' < n {
        assert summary'[k'] == summary[k'] && order'[k'] == order[k'];
      } else {
        assert ShortestFirst(ps, order[k], m);
      }
    }
  }

  lemma {:induction false} PolicyPending(ps: seq<Process>, summary: seq<Record>, order: seq<nat>, done: set<int>, time: int, m: nat, rec: Record,
                      summary': seq<Record>, order': seq<nat>)
    requires |summary| == |order| && forall k | 0 <= k < |order| :: order[k] < |ps|
    requires PendingPassedOver(ps, summary, order, done)
    requires PickShortest(ps, done, time) == Some(m)
    requires summary' == summary + [rec] && order' == order + [m]
    requires StartOf(rec) == time
    requires time > FreeAt(summary, |summary|) ==> forall j | 0 <= j < |ps| && ps[j].id !in done :: ps[j].arrival >= time
    ensures |summary'| == |order'| && forall k | 0 <= k < |order'| :: order'[k] < |ps|
    ensures PendingPassedOver(ps, summary', order', done + {ps[m].id})
  {
    var n := |summary|;
    var done' := done + {ps[m].id};
    forall k, j | 0 <= k < |summary'| && 0 <= j < |ps| && ps[j].id !in done' && StartOf(summary'[k]) > FreeAt(summary', k)
      ensures ps[j].arrival >= StartOf(summary'[k])
    {
      if k < n {
        assert summary'[k] == summary[k] && FreeAt(summary', k) == FreeAt(summary, k);
      } else {
        assert FreeAt(summary', k) == FreeAt(summary, n);
      }
    }
    forall k, j | 0 <= k < |summary'| && 0 <= j < |ps| && ps[j].id !in done' && ps[j].arrival <= StartOf(summary'[k])
      ensures ShortestFirst(ps, order'[k], j)
    {
      if k < n {
        assert summary'[k] == summary[k] && order'[k] == order[k];
      } else {
        assert Ready(ps, done, time, j);
      }
    }
  }
}
