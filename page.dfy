/**
 * The Simulator page's choice of simulator (the `simulation` value in
 * src/pages/Simulation.jsx): with no processes the result is empty,
 * otherwise the selected algorithm runs, and an unknown name falls back to
 * FCFS.
 */
module SimulatorPage {
  import opened Scheduling
  import opened Sorting
  import PageFCFS
  import PageSJF
  import PageSRTF
  import PageRR

  /** Every name other than these three selects FCFS. */
  predicate SelectsFCFS(algorithm: string) {
    algorithm != "SJF" && algorithm != "SRTF" && algorithm != "RR"
  }

  method Simulate(allProcesses: seq<Process>, algorithm: string, quantum: int) returns (r: Simulation)
    requires WellFormed(allProcesses)
    requires algorithm == "RR" ==> quantum > 0
    // nothing to simulate: no bars, no records, no time, and `totals` is `{}`
    ensures allProcesses == [] ==> r == Simulation([], [], 0, NoTotals, 0)
    // otherwise the selected simulator's result
    ensures allProcesses != [] && algorithm == "SJF" ==> r == PageSJF.Outcome(allProcesses)
    ensures allProcesses != [] && algorithm == "SRTF" ==> r == PageSRTF.Outcome(allProcesses)
    ensures allProcesses != [] && algorithm == "RR" ==> r == PageRR.Outcome(allProcesses, quantum)
    // FCFS: by arrival, equal arrivals in input order, each starting once it has
    // arrived and the previous one is done, one bar per record
    ensures allProcesses != [] && SelectsFCFS(algorithm) ==>
      && StartsWhenReady(r.summary)
      && (forall i, j | 0 <= i < j < |r.summary| :: r.summary[i].arrival <= r.summary[j].arrival)
      && (forall e :: Class(ByArrival, Served(r.summary), e) == Class(ByArrival, allProcesses, e))
      && r.gantt == Bars(r.summary)
    // whichever runs: one consistent record per process, bars in time order
    // ending at totalTime, the busy time is all the work, the totals sum the records
    ensures allProcesses != [] ==>
      && multiset(Served(r.summary)) == multiset(allProcesses)
      && AllConsistent(r.summary)
      && InOrder(r.gantt) && r.totalTime == EndOf(r.gantt)
      && r.busyTime == SumBursts(allProcesses)
      && r.totals == TotalsOf(r.summary)
  {
    if |allProcesses| == 0 {
      return Simulation([], [], 0, NoTotals, 0);
    }
    if algorithm == "SJF" {
      r := PageSJF.SimulateSJF(allProcesses);
      PageSJF.Schedule(allProcesses);
    } else if algorithm == "SRTF" {
      r := PageSRTF.SimulateSRTF(allProcesses);
      PageSRTF.Schedule(allProcesses);
    } else if algorithm == "RR" {
      r := PageRR.SimulateRR(allProcesses, quantum);
      PageRR.Schedule(allProcesses, quantum);
    } else {
      r := PageFCFS.SimulateFCFS(allProcesses);
    }
  }
}
