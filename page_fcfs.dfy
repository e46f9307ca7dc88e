/**
 * First-come-first-serve as the Simulator page computes it (`simulateFCFS`
 * in src/pages/Simulation.jsx). Unlike the library version it sorts by
 * arrival alone (a stable sort, so equal arrivals keep their input order),
 * draws no bar for a gap in front of a late arrival (the clock just jumps),
 * and keeps the totals as running sums.
 */
module PageFCFS {
  import opened Scheduling
  import opened Sorting

  method SimulateFCFS(processes: seq<Process>) returns (r: Simulation)
    requires forall i | 0 <= i < |processes| :: processes[i].burst > 0
    // one record per process, by arrival, equal arrivals in input order
    ensures multiset(Served(r.summary)) == multiset(processes)
    ensures forall i, j | 0 <= i < j < |r.summary| :: r.summary[i].arrival <= r.summary[j].arrival
    ensures forall e :: Class(ByArrival, Served(r.summary), e) == Class(ByArrival, processes, e)
    // each starts as soon as it has arrived and the previous one is done
    ensures AllConsistent(r.summary)
    ensures StartsWhenReady(r.summary)
    // one bar per record, none for the gaps, never overlapping
    ensures r.gantt == Bars(r.summary) && InOrder(r.gantt)
    ensures r.totalTime == EndOf(r.gantt)
    ensures r.busyTime == SumBursts(processes)
    ensures r.totals == TotalsOf(r.summary)
  {
    var sorted := Sort(ByArrival, processes);
    SortedByArrival(processes);
    r := ServeInOrder(sorted);
    ServedInOrder(r.summary, sorted);
  }

  /** Sorting by arrival keeps the bursts, equal arrivals in input order and the total work. */
  lemma {:induction false} SortedByArrival(ps: seq<Process>)
    requires forall i | 0 <= i < |ps| :: ps[i].burst > 0
    ensures var sorted := Sort(ByArrival, ps);
      && (forall i | 0 <= i < |sorted| :: sorted[i].burst > 0)
      && (forall e :: Class(ByArrival, sorted, e) == Class(ByArrival, ps, e))
      && SumBursts(sorted) == SumBursts(ps)
  {
    var sorted := Sort(ByArrival, ps);
    forall i | 0 <= i < |sorted| ensures sorted[i].burst > 0 {
      PermutationMembers(ps, sorted, i);
    }
    forall e ensures Class(ByArrival, sorted, e) == Class(ByArrival, ps, e) {
      SortStable(ByArrival, ps, e);
    }
    SumBurstsPermutation(sorted, ps);
  }

  /** Records that serve a list sorted by arrival are in arrival order. */
  lemma {:induction false} ServedInOrder(summary: seq<Record>, sorted: seq<Process>)
    requires Served(summary) == sorted && Sorted(ByArrival, sorted)
    ensures forall i, j | 0 <= i < j < |summary| :: summary[i].arrival <= summary[j].arrival
  {
    forall i, j | 0 <= i < j < |summary| ensures summary[i].arrival <= summary[j].arrival {
      assert ProcessOf(summary[i]) == Served(summary)[i] == sorted[i];
      assert ProcessOf(summary[j]) == Served(summary)[j] == sorted[j];
    }
  }

  /** The `forEach` over the already sorted processes. */
  method ServeInOrder(sorted: seq<Process>) returns (r: Simulation)
    requires forall i | 0 <= i < |sorted| :: sorted[i].burst > 0
    ensures Served(r.summary) == sorted
    ensures AllConsistent(r.summary)
    ensures StartsWhenReady(r.summary)
    ensures r.gantt == Bars(r.summary) && InOrder(r.gantt)
    ensures r.totalTime == EndOf(r.gantt)
    ensures r.busyTime == SumBursts(sorted)
    ensures r.totals == TotalsOf(r.summary)
  {
    var currentTime := 0;
    var gantt: seq<Segment> := [];
    var summary: seq<Record> := [];
    var totalWaiting := 0;
    var totalTurnaround := 0;
    var busyTime := 0;

    for i := 0 to |sorted|
      invariant StepInvariant(sorted, i, gantt, summary, currentTime, busyTime)
      invariant totalWaiting == SumWaiting(summary) && totalTurnaround == SumTurnaround(summary)
    {
      var process := sorted[i];
      ghost var gantt0, summary0, time0, busy0 := gantt, summary, currentTime, busyTime;
      if currentTime < process.arrival {
        currentTime := process.arrival;
      }
      var start := currentTime;
      var end := currentTime + process.burst;
      var waiting := start - process.arrival;
      var turnaround := end - process.arrival;
      gantt := gantt + [Segment(process.name, start, end)];
      var rec := Record(process.id, process.name, process.arrival, process.burst, waiting, turnaround);
      summary := summary + [rec];
      assert summary[..|summary| - 1] == summary0;
      totalWaiting := totalWaiting + waiting;
      totalTurnaround := totalTurnaround + turnaround;
      busyTime := busyTime + process.burst;
      currentTime := end;
      Step(sorted, i, gantt0, summary0, time0, busy0, rec, gantt, summary, currentTime, busyTime);
    }
    ServedAll(sorted, gantt, summary, currentTime, busyTime);
    r := Simulation(gantt, summary, currentTime, Totals(totalWaiting, totalTurnaround), busyTime);
  }

  /** Once every sorted process is served: the records serve the list and the bars are in order. */
  lemma {:induction false} ServedAll(sorted: seq<Process>, gantt: seq<Segment>, summary: seq<Record>, time: int, busy: int)
    requires forall i | 0 <= i < |sorted| :: sorted[i].burst > 0
    requires StepInvariant(sorted, |sorted|, gantt, summary, time, busy)
    ensures Served(summary) == sorted && InOrder(gantt) && busy == SumBursts(sorted)
  {
    assert sorted[..|sorted|] == sorted;
    forall k | 0 <= k < |summary| ensures summary[k].burst > 0 {
      assert ProcessOf(summary[k]) == Served(summary)[k] == sorted[k];
    }
    BarsInOrder(summary);
  }

  /** What the `forEach` knows after serving the first `i` sorted processes. */
  ghost predicate StepInvariant(sorted: seq<Process>, i: nat, gantt: seq<Segment>, summary: seq<Record>, time: int, busy: int) {
    && i <= |sorted|
    && |summary| == i && Served(summary) == sorted[..i]
    && AllConsistent(summary)
    && StartsWhenReady(summary)
    && gantt == Bars(summary)
    && time == FreeAt(summary, i)
    && time == EndOf(gantt)
    && busy == SumBursts(sorted[..i])
  }

  /** Serving `sorted[i]` from `Max(time, arrival)` to that plus its burst. */
  lemma {:induction false} Step(sorted: seq<Process>, i: nat,
                gantt: seq<Segment>, summary: seq<Record>, time: int, busy: int,
                rec: Record, gantt': seq<Segment>, summary': seq<Record>, time': int, busy': int)
    requires StepInvariant(sorted, i, gantt, summary, time, busy)
    requires i < |sorted|
    requires var p, start := sorted[i], Max(time, sorted[i].arrival);
      && rec == Record(p.id, p.name, p.arrival, p.burst, start - p.arrival, start + p.burst - p.arrival)
      && gantt' == gantt + [Segment(p.name, start, start + p.burst)]
      && summary' == summary + [rec]
      && time' == start + p.burst && busy' == busy + p.burst
    ensures StepInvariant(sorted, i + 1, gantt', summary', time', busy')
  {
    assert summary'[i] == rec;
    assert ProcessOf(rec) == sorted[i];
    assert Served(summary') == sorted[..i + 1] && StartsWhenReady(summary') by {
      ServedAppend(summary, rec);
      assert sorted[..i + 1] == sorted[..i] + [sorted[i]];
      StartsWhenReadyAppend(summary, rec);
    }
    assert gantt' == Bars(summary') by {
      BarsAppend(summary, rec);
    }
    assert busy' == SumBursts(sorted[..i + 1]) by {
      assert sorted[..i + 1][..i] == sorted[..i];
    }
    assert AllConsistent(summary') by {
      forall k | 0 <= k < i + 1 ensures Consistent(summary'[k]) {
        if k < i { assert summary'[k] == summary[k]; }
      }
    }
  }
}
