/**
 * First-come-first-serve as the library behind the Home page computes it
 * (`simulateFCFS` in src/utlis/algorithms.js): processes are sorted by
 * arrival, then name, and run to completion one after the other; a gap
 * before the next arrival becomes one explicit Idle segment.
 */
module LibFCFS {
  import opened Scheduling
  import opened Sorting

  method SimulateFCFS(processes: seq<Process>) returns (r: Simulation)
    requires WellFormed(processes)
    // one record per process, in (arrival, name) order
    ensures multiset(Served(r.summary)) == multiset(processes)
    ensures forall i, j | 0 <= i < j < |r.summary| :: ArrivalNameBefore(ProcessOf(r.summary[i]), ProcessOf(r.summary[j]))
    // each starts as soon as it has arrived and the previous one is done
    ensures AllConsistent(r.summary)
    ensures StartsWhenReady(r.summary)
    // the chart tiles [0, totalTime) with one bar per process, Idle only in front of a bar
    ensures CoversFromZero(r.gantt) && r.gantt == Chart(r.summary)
    ensures r.totalTime == EndOf(r.gantt)
    ensures r.busyTime == SumBursts(processes)
    ensures r.totals == TotalsOf(r.summary)
  {
    var procs := Sort(ByArrivalThenName, processes);
    forall i | 0 <= i < |procs| ensures procs[i].burst > 0 {
      PermutationMembers(processes, procs, i);
    }
    r := RunInOrder(procs);
    SumBurstsPermutation(procs, processes);
    SortUniqueNames(ByArrivalThenName, processes);
    ArrivalNameStrict(procs);
    forall i, j | 0 <= i < j < |r.summary|
      ensures ArrivalNameBefore(ProcessOf(r.summary[i]), ProcessOf(r.summary[j]))
    {
      assert ProcessOf(r.summary[i]) == Served(r.summary)[i] == procs[i];
      assert ProcessOf(r.summary[j]) == Served(r.summary)[j] == procs[j];
    }
  }

  /** What the loop below knows after serving the first `i` sorted processes. */
  ghost predicate RunInvariant(procs: seq<Process>, i: nat, gantt: seq<Segment>, summary: seq<Record>, time: int, busy: int) {
    && i <= |procs|
    && |summary| == i && Served(summary) == procs[..i]
    && AllConsistent(summary)
    && StartsWhenReady(summary)
    && CoversFromZero(gantt) && gantt == Chart(summary)
    && time == EndOf(gantt)
    && time == FreeAt(summary, i)
    && busy == SumBursts(procs[..i])
  }

  /**
   * Serving the next process: `mid` and `start` are the chart and clock once
   * the Idle gap in front of it (if any) has been recorded.
   */
  lemma {:induction false} RunStep(procs: seq<Process>, i: nat,
                gantt: seq<Segment>, summary: seq<Record>, time: int, busy: int,
                mid: seq<Segment>, start: int,
                rec: Record, gantt': seq<Segment>, summary': seq<Record>, time': int, busy': int)
    requires RunInvariant(procs, i, gantt, summary, time, busy)
    requires i < |procs| && procs[i].burst > 0
    requires start == Max(time, procs[i].arrival)
    requires mid == if time < procs[i].arrival then gantt + [Segment(IdleName, time, procs[i].arrival)] else gantt
    requires gantt' == mid + [Segment(procs[i].name, start, start + procs[i].burst)]
    requires rec == Record(procs[i].id, procs[i].name, procs[i].arrival, procs[i].burst,
                           start - procs[i].arrival, start - procs[i].arrival + procs[i].burst)
    requires summary' == summary + [rec]
    requires time' == start + procs[i].burst && busy' == busy + procs[i].burst
    ensures RunInvariant(procs, i + 1, gantt', summary', time', busy')
  {
    var p := procs[i];
    assert summary'[i] == rec;
    assert gantt' == mid + [RunSegment(rec)];
    assert CoversFromZero(gantt') && gantt' == Chart(summary') && time' == EndOf(gantt') by {
      ChartStep(gantt, summary, time, p.arrival, mid, rec);
    }
    assert Served(summary') == procs[..i + 1] by {
      RecordStep(procs, i, summary, time, rec);
    }
    assert StartsWhenReady(summary') by {
      RecordStep(procs, i, summary, time, rec);
    }
    assert busy' == SumBursts(procs[..i + 1]) by {
      BurstsStep(procs, i);
    }
    assert AllConsistent(summary') by {
      forall k | 0 <= k < i + 1 ensures Consistent(summary'[k]) {
        if k < i { assert summary'[k] == summary[k]; }
      }
    }
  }

  lemma {:induction false} BurstsStep(procs: seq<Process>, i: nat)
    requires i < |procs|
    ensures SumBursts(procs[..i + 1]) == SumBursts(procs[..i]) + procs[i].burst
  {
    assert procs[..i + 1][..i] == procs[..i];
  }

  /** The chart after an optional Idle gap up to `arrival` and the bar of `rec`. */
  lemma {:induction false} ChartStep(gantt: seq<Segment>, summary: seq<Record>, time: int, arrival: int, mid: seq<Segment>, rec: Record)
    requires CoversFromZero(gantt) && gantt == Chart(summary) && time == EndOf(gantt) == FreeAt(summary, |summary|)
    requires mid == if time < arrival then gantt + [Segment(IdleName, time, arrival)] else gantt
    requires StartOf(rec) == Max(time, arrival) && StartOf(rec) < CompletionOf(rec)
    ensures CoversFromZero(mid + [RunSegment(rec)]) && mid + [RunSegment(rec)] == Chart(summary + [rec])
    ensures EndOf(mid + [RunSegment(rec)]) == CompletionOf(rec)
  {
    ChartAppend(summary, rec);
    if time < arrival {
      AppendCovers(gantt, Segment(IdleName, time, arrival));
    } else {
      assert gantt + Gap(time, StartOf(rec)) == gantt;
    }
    AppendCovers(mid, RunSegment(rec));
  }

  /** The records after the one of `procs[i]`, which starts at `Max(time, arrival)`. */
  lemma {:induction false} RecordStep(procs: seq<Process>, i: nat, summary: seq<Record>, time: int, rec: Record)
    requires i < |procs| && |summary| == i && Served(summary) == procs[..i]
    requires StartsWhenReady(summary)
    requires time == FreeAt(summary, i)
    requires ProcessOf(rec) == procs[i] && StartOf(rec) == Max(time, rec.arrival)
    ensures Served(summary + [rec]) == procs[..i + 1]
    ensures StartsWhenReady(summary + [rec])
  {
    var summary' := summary + [rec];
    ServedAppend(summary, rec);
    assert procs[..i + 1] == procs[..i] + [procs[i]];
    StartsWhenReadyAppend(summary, rec);
  }

  /** The `for (const p of procs)` loop over the already sorted processes. */
  method RunInOrder(procs: seq<Process>) returns (r: Simulation)
    requires forall i | 0 <= i < |procs| :: procs[i].burst > 0
    ensures Served(r.summary) == procs
    ensures AllConsistent(r.summary)
    ensures StartsWhenReady(r.summary)
    ensures CoversFromZero(r.gantt) && r.gantt == Chart(r.summary)
    ensures r.totalTime == EndOf(r.gantt)
    ensures r.busyTime == SumBursts(procs)
    ensures r.totals == TotalsOf(r.summary)
  {
    var gantt: seq<Segment> := [];
    var summary: seq<Record> := [];
    var time := 0;
    var busy := 0;

    for i := 0 to |procs|
      invariant RunInvariant(procs, i, gantt, summary, time, busy)
    {
      var p := procs[i];
      ghost var gantt0, summary0, time0, busy0 := gantt, summary, time, busy;
      if time < p.arrival {
        gantt := gantt + [Segment(IdleName, time, p.arrival)];
        time := p.arrival;
      }
      ghost var mid, start := gantt, time;
      gantt := gantt + [Segment(p.name, time, time + p.burst)];
      var waiting := time - p.arrival;
      var turnaround := waiting + p.burst;
      var rec := Record(p.id, p.name, p.arrival, p.burst, waiting, turnaround);
      summary := summary + [rec];
      time := time + p.burst;
      busy := busy + p.burst;
      RunStep(procs, i, gantt0, summary0, time0, busy0, mid, start, rec, gantt, summary, time, busy);
    }
    assert procs[..|procs|] == procs;
    r := Simulation(gantt, summary, time, TotalsOf(summary), busy);
  }
}
