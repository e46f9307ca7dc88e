/**
 * The loop of `simulateRR` (src/utlis/algorithms.js) as a method over the
 * same variables as the source, proved to compute `LibRoundRobin.Outcome`:
 * at the top of every pass the variables satisfy `LibRoundRobin.Inv` and the
 * loop from there ends where it ends from the start. The source keeps no
 * completion times; the ghost `completion` records them for the proof, and
 * the summary is read off the chart by name, as the source does.
 */
module LibRoundRobinSimulator {
  import opened Scheduling
  import opened Work
  import opened LibRoundRobin

  /** `enqueueArrivals()`: visit the processes in input order and enqueue the newly arrived ones. */
  method EnqueueArrivals(ps: seq<Process>, remaining: seq<nat>, time: int, queue: seq<int>, arrived: set<int>)
    returns (queue': seq<int>, arrived': set<int>)
    requires |remaining| == |ps|
    ensures queue' == queue + Arrivals(ps, remaining, time, arrived, |ps|)
    ensures arrived' == arrived + Members(Arrivals(ps, remaining, time, arrived, |ps|))
  {
    queue', arrived' := queue, arrived;
    for k := 0 to |ps|
      invariant queue' == queue + Arrivals(ps, remaining, time, arrived, k)
      invariant arrived' == arrived + Members(Arrivals(ps, remaining, time, arrived, k))
    {
      var p := ps[k];
      if p.arrival <= time && p.id !in arrived' && remaining[k] > 0 {
        queue' := queue' + [p.id];
        arrived' := arrived' + {p.id};
      }
    }
  }

  method SimulateRR(processes: seq<Process>, quantum: int) returns (r: Simulation)
    requires Admissible(processes) && quantum > 0
    ensures r == Outcome(processes, quantum)
  {
    var procs := processes;
    var n := |procs|;
    var remaining: seq<nat> := Bursts(procs);
    ghost var completion := seq(n, i => 0);
    var gantt: seq<Segment> := [];
    var time := 0;
    var completed: nat := 0;
    var busy := 0;
    var queue: seq<int> := [];
    var arrived: set<int> := {};
    assert RRState(remaining, completion, gantt, queue, arrived, time, busy, completed) == Start(procs);
    StartKeeps(procs, quantum);

    while completed < n
      invariant Inv(procs, quantum, RRState(remaining, completion, gantt, queue, arrived, time, busy, completed))
      invariant Run(procs, quantum, RRState(remaining, completion, gantt, queue, arrived, time, busy, completed)) == Run(procs, quantum, Start(procs))
      decreases SumRemaining(remaining)
    {
      ghost var st0 := RRState(remaining, completion, gantt, queue, arrived, time, busy, completed);
      if |queue| == 0 {
        // jump to the next arrival
        var next := NextPending(procs, remaining);
        if next.None? {
          break;
        }
        if time < procs[next.value].arrival {
          gantt := gantt + [Segment(IdleName, time, procs[next.value].arrival)];
          time := procs[next.value].arrival;
        }
      }
      assert RRState(remaining, completion, gantt, queue, arrived, time, busy, completed) == Prepare(procs, st0);
      queue, arrived := EnqueueArrivals(procs, remaining, time, queue, arrived);
      ghost var ready := RRState(remaining, completion, gantt, queue, arrived, time, busy, completed);
      assert ready == Enqueued(procs, Prepare(procs, st0));
      remaining, completion, gantt, queue, arrived, time, busy, completed :=
        TakeTurn(procs, quantum, remaining, completion, gantt, queue, arrived, time, busy, completed);
      Advance(procs, quantum, st0, RRState(remaining, completion, gantt, queue, arrived, time, busy, completed));
    }
    var summary := SummaryByName(procs, gantt);
    r := Simulation(gantt, summary, EndOf(gantt), TotalsOf(summary), busy);
  }

  /** The body of the loop from `queue.shift()` on. */
  method TakeTurn(ps: seq<Process>, quantum: int, remaining: seq<nat>, ghost completion: seq<int>, gantt: seq<Segment>,
                  queue: seq<int>, arrived: set<int>, time: int, busy: int, completed: nat)
    returns (remaining': seq<nat>, ghost completion': seq<int>, gantt': seq<Segment>,
             queue': seq<int>, arrived': set<int>, time': int, busy': int, completed': nat)
    requires |remaining| == |ps| == |completion| && quantum > 0
    ensures RRState(remaining', completion', gantt', queue', arrived', time', busy', completed')
         == Turn(ps, quantum, RRState(remaining, completion, gantt, queue, arrived, time, busy, completed))
  {
    remaining', completion', gantt', queue', arrived', time', busy', completed' :=
      remaining, completion, gantt, queue, arrived, time, busy, completed;
    var pid: Option<int> := None;
    if queue' != [] {
      pid := Some(queue'[0]);
      queue' := queue'[1..];
    }
    var found := if pid.Some? then FindById(ps, pid.value) else None;
    if found.None? {
      return;
    }
    var i := found.value;
    ghost var rest := RRState(remaining', completion', gantt', queue', arrived', time', busy', completed');
    var use := Min(quantum, remaining'[i]);
    gantt' := gantt' + [Slice(ps[i], time', use)];
    remaining' := Consume(remaining', i, use);
    time' := time' + use;
    busy' := busy' + use;
    ghost var ran := RRState(remaining', completion', gantt', queue', arrived', time', busy', completed');
    assert ran == RunSlice(ps, quantum, rest, i);
    queue', arrived' := EnqueueArrivals(ps, remaining', time', queue', arrived');
    ghost var st1 := RRState(remaining', completion', gantt', queue', arrived', time', busy', completed');
    if remaining'[i] > 0 {
      queue' := queue' + [ps[i].id];
    } else {
      completion' := completion'[i := time'];
      completed' := completed' + 1;
    }
    assert RRState(remaining', completion', gantt', queue', arrived', time', busy', completed') == Settle(ps, st1, i);
  }

  /** A pass from a reachable state leads to a reachable state, with the same outcome, and leaves less work. */
  lemma {:induction false} Advance(ps: seq<Process>, quantum: int, st: RRState, st': RRState)
    requires Admissible(ps) && quantum > 0 && Inv(ps, quantum, st) && Running(ps, st)
    requires st' == Step(ps, quantum, st)
    requires Run(ps, quantum, st) == Run(ps, quantum, Start(ps))
    ensures Inv(ps, quantum, st')
    ensures Run(ps, quantum, st') == Run(ps, quantum, Start(ps))
    ensures SumRemaining(st'.remaining) < SumRemaining(st.remaining)
  {
    StepKeeps(ps, quantum, st);
    RunUnfold(ps, quantum, st, st');
  }
}
