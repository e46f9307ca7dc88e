/**
 * Preemptive shortest-remaining-time-first as the Simulator page computes it
 * (`simulateSRTF` in src/pages/Simulation.jsx). The clock advances one tick
 * per pass. In each pass the arrived process with the least remaining time
 * runs for one tick; among equals the one listed first wins, since the sort
 * is stable. While the same process keeps the CPU its last bar is stretched,
 * otherwise a one-tick bar is pushed. When nothing is available the clock
 * moves one tick and nothing is drawn, so the chart has no Idle bars and may
 * have gaps. A record is pushed when its process completes, so the summary
 * is in completion order.
 */
module PageSRTF {
  import opened Scheduling
  import opened Work

  /**
   * The variables of the main loop: `remaining[i]` is `remainingTime` of the
   * i-th process (ids are unique, so an id stands for a position),
   * `completed` the size of the `completed` set and `last` the position of
   * `lastProcess`. The running totals are the sums over the summary.
   */
  datatype PageState = PageState(remaining: seq<nat>, gantt: seq<Segment>, summary: seq<Record>, time: int,
                                 completed: nat, busy: int, last: Option<nat>)

  /** The variables fit the process list, and a last process has a bar. */
  predicate Shaped(ps: seq<Process>, st: PageState) {
    && |st.remaining| == |ps|
    && (st.last.Some? ==> st.last.value < |ps| && st.gantt != [])
  }

  /** The filter `p.arrival <= currentTime && remainingTime[p.id] > 0`. */
  predicate Available(ps: seq<Process>, rem: seq<nat>, time: int, j: nat)
    requires j < |ps| <= |rem|
  {
    ps[j].arrival <= time && rem[j] > 0
  }

  /**
   * `available[0]` once `available` is sorted by remaining time, as a
   * position: the least remaining time, and among equals the first listed.
   */
  function Shortest(ps: seq<Process>, rem: seq<nat>, time: int): (r: Option<nat>)
    requires |ps| <= |rem|
    ensures r.None? <==> forall j | 0 <= j < |ps| :: !Available(ps, rem, time, j)
    ensures r.Some? ==> r.value < |ps| && Available(ps, rem, time, r.value)
    ensures r.Some? ==> forall j | 0 <= j < |ps| && Available(ps, rem, time, j) ::
      rem[r.value] < rem[j] || (rem[r.value] == rem[j] && r.value <= j)
  {
    ShortestIn(ps, rem, time, |ps|)
  }

  /** The same choice among the first `n` processes. */
  function ShortestIn(ps: seq<Process>, rem: seq<nat>, time: int, n: nat): (r: Option<nat>)
    requires n <= |ps| <= |rem|
    ensures r.None? <==> forall j | 0 <= j < n :: !Available(ps, rem, time, j)
    ensures r.Some? ==> r.value < n && Available(ps, rem, time, r.value)
    ensures r.Some? ==> forall j | 0 <= j < n && Available(ps, rem, time, j) ::
      rem[r.value] < rem[j] || (rem[r.value] == rem[j] && r.value <= j)
  {
    if n == 0 then None
    else
      var r := ShortestIn(ps, rem, time, n - 1);
      if Available(ps, rem, time, n - 1) && (r.None? || rem[n - 1] < rem[r.value]) then Some(n - 1) else r
  }

  /** `gantt[gantt.length - 1].end = e`. */
  function SetEnd(g: seq<Segment>, e: int): seq<Segment>
    requires g != []
  {
    g[|g| - 1 := g[|g| - 1].(end := e)]
  }

  // ---------------------------------------------------------------------
  // The main loop as a function of its variables

  function Start(ps: seq<Process>): (st: PageState)
    requires forall i | 0 <= i < |ps| :: ps[i].burst > 0
    ensures Shaped(ps, st)
  {
    PageState(Bursts(ps), [], [], 0, 0, 0, None)
  }

  /**
   * The chart after a tick of `ps[m]`: on a switch to it, the end of the
   * previous process's bar is set to the current time (when that process
   * still has work) and a one-tick bar is pushed; otherwise its bar is
   * stretched by one tick.
   */
  function TickChart(ps: seq<Process>, st: PageState, m: nat): seq<Segment>
    requires Shaped(ps, st) && m < |ps|
  {
    if st.last == Some(m) then SetEnd(st.gantt, st.time + 1)
    else
      var closed := if st.last.Some? && st.remaining[st.last.value] > 0 then SetEnd(st.gantt, st.time) else st.gantt;
      closed + [Segment(ps[m].name, st.time, st.time + 1)]
  }

  /** `ps[m]` runs for one tick; when its remaining time reaches 0 it completes at the new time. */
  function Tick(ps: seq<Process>, st: PageState, m: nat): (st': PageState)
    requires Shaped(ps, st) && m < |ps| && st.remaining[m] > 0
    ensures Shaped(ps, st')
  {
    var rem := st.remaining[m := st.remaining[m] - 1];
    if rem[m] == 0 then
      PageState(rem, TickChart(ps, st, m), st.summary + [RecordAt(ps[m], st.time + 1)], st.time + 1,
                st.completed + 1, st.busy + 1, Some(m))
    else
      PageState(rem, TickChart(ps, st, m), st.summary, st.time + 1, st.completed, st.busy + 1, Some(m))
  }

  /** One pass of the `while`: a tick of the shortest available process, or an empty tick. */
  function Step(ps: seq<Process>, st: PageState): (st': PageState)
    requires Shaped(ps, st)
    ensures Shaped(ps, st')
  {
    match Shortest(ps, st.remaining, st.time)
    case Some(m) => Tick(ps, st, m)
    case None => st.(time := st.time + 1)
  }

  /** A pass made progress: work was done, or the clock moved towards the last arrival. */
  predicate Progress(ps: seq<Process>, st: PageState, st': PageState) {
    || SumRemaining(st'.remaining) < SumRemaining(st.remaining)
    || (st'.remaining == st.remaining && st.time < st'.time <= MaxArrival(ps))
  }

  /** The loop from `st` on, until `completed.size < processes.length` fails. */
  ghost function Run(ps: seq<Process>, st: PageState): PageState
    requires Shaped(ps, st)
    decreases SumRemaining(st.remaining), MaxArrival(ps) - st.time
  {
    if st.completed >= |ps| then st
    else
      var st' := Step(ps, st);
      if Progress(ps, st, st') then Run(ps, st') else st
  }

  /** The simulation `simulateSRTF` returns. */
  ghost function Outcome(ps: seq<Process>): Simulation
    requires forall i | 0 <= i < |ps| :: ps[i].burst > 0
  {
    var st := Run(ps, Start(ps));
    Simulation(st.gantt, st.summary, st.time, TotalsOf(st.summary), st.busy)
  }

  method SimulateSRTF(processes: seq<Process>) returns (r: Simulation)
    requires WellFormed(processes)
    ensures r == Outcome(processes)
  {
    var currentTime := 0;
    var gantt: seq<Segment> := [];
    var summary: seq<Record> := [];
    var totalWaiting := 0;
    var totalTurnaround := 0;
    var busyTime := 0;
    var remainingTime := Bursts(processes);
    var completed: nat := 0;
    var lastProcess: Option<nat> := None;
    FinishedAll(remainingTime);

    while completed < |processes|
      invariant Shaped(processes, PageState(remainingTime, gantt, summary, currentTime, completed, busyTime, lastProcess))
      invariant completed == Finished(remainingTime)
      invariant Run(processes, PageState(remainingTime, gantt, summary, currentTime, completed, busyTime, lastProcess))
             == Run(processes, Start(processes))
      invariant totalWaiting == SumWaiting(summary) && totalTurnaround == SumTurnaround(summary)
      decreases SumRemaining(remainingTime), MaxArrival(processes) - currentTime
    {
      ghost var st0 := PageState(remainingTime, gantt, summary, currentTime, completed, busyTime, lastProcess);
      remainingTime, gantt, summary, currentTime, completed, busyTime, lastProcess, totalWaiting, totalTurnaround :=
        Pass(processes, remainingTime, gantt, summary, currentTime, completed, busyTime, lastProcess, totalWaiting, totalTurnaround);
      Advance(processes, st0, PageState(remainingTime, gantt, summary, currentTime, completed, busyTime, lastProcess));
    }
    r := Simulation(gantt, summary, currentTime, Totals(totalWaiting, totalTurnaround), busyTime);
  }

  /** The body of the `while`. */
  method Pass(processes: seq<Process>, remainingTime: seq<nat>, gantt: seq<Segment>, summary: seq<Record>,
              currentTime: int, completed: nat, busyTime: int, lastProcess: Option<nat>,
              totalWaiting: int, totalTurnaround: int)
    returns (remainingTime': seq<nat>, gantt': seq<Segment>, summary': seq<Record>,
             currentTime': int, completed': nat, busyTime': int, lastProcess': Option<nat>,
             totalWaiting': int, totalTurnaround': int)
    requires Shaped(processes, PageState(remainingTime, gantt, summary, currentTime, completed, busyTime, lastProcess))
    requires totalWaiting == SumWaiting(summary) && totalTurnaround == SumTurnaround(summary)
    ensures PageState(remainingTime', gantt', summary', currentTime', completed', busyTime', lastProcess')
         == Step(processes, PageState(remainingTime, gantt, summary, currentTime, completed, busyTime, lastProcess))
    ensures totalWaiting' == SumWaiting(summary') && totalTurnaround' == SumTurnaround(summary')
  {
    var shortest := FindShortest(processes, remainingTime, currentTime);
    if shortest.None? {
      remainingTime', gantt', summary', currentTime', completed', busyTime', lastProcess', totalWaiting', totalTurnaround' :=
        remainingTime, gantt, summary, currentTime + 1, completed, busyTime, lastProcess, totalWaiting, totalTurnaround;
      return;
    }
    remainingTime', gantt', summary', currentTime', completed', busyTime', lastProcess', totalWaiting', totalTurnaround' :=
      RunTick(processes, remainingTime, gantt, summary, currentTime, completed, busyTime, lastProcess,
              totalWaiting, totalTurnaround, shortest.value);
  }

  /** The filter and the sort: a scan for the first available process with the least remaining time. */
  method FindShortest(processes: seq<Process>, remainingTime: seq<nat>, currentTime: int) returns (shortest: Option<nat>)
    requires |processes| <= |remainingTime|
    ensures shortest == Shortest(processes, remainingTime, currentTime)
  {
    shortest := None;
    for i := 0 to |processes|
      invariant shortest == ShortestIn(processes, remainingTime, currentTime, i)
    {
      if processes[i].arrival <= currentTime && remainingTime[i] > 0 &&
         (shortest.None? || remainingTime[i] < remainingTime[shortest.value]) {
        shortest := Some(i);
      }
    }
  }

  /** A pass once `process = available[0]` is known: one tick of `processes[m]`. */
  method RunTick(processes: seq<Process>, remainingTime: seq<nat>, gantt: seq<Segment>, summary: seq<Record>,
                 currentTime: int, completed: nat, busyTime: int, lastProcess: Option<nat>,
                 totalWaiting: int, totalTurnaround: int, m: nat)
    returns (remainingTime': seq<nat>, gantt': seq<Segment>, summary': seq<Record>,
             currentTime': int, completed': nat, busyTime': int, lastProcess': Option<nat>,
             totalWaiting': int, totalTurnaround': int)
    requires Shaped(processes, PageState(remainingTime, gantt, summary, currentTime, completed, busyTime, lastProcess))
    requires m < |processes| && remainingTime[m] > 0
    requires totalWaiting == SumWaiting(summary) && totalTurnaround == SumTurnaround(summary)
    ensures PageState(remainingTime', gantt', summary', currentTime', completed', busyTime', lastProcess')
         == Tick(processes, PageState(remainingTime, gantt, summary, currentTime, completed, busyTime, lastProcess), m)
    ensures totalWaiting' == SumWaiting(summary') && totalTurnaround' == SumTurnaround(summary')
  {
    var process := processes[m];
    gantt' := gantt;
    if lastProcess.None? || lastProcess.value != m {
      if lastProcess.Some? && remainingTime[lastProcess.value] > 0 {
        gantt' := gantt'[|gantt'| - 1 := gantt'[|gantt'| - 1].(end := currentTime)];
      }
      gantt' := gantt' + [Segment(process.name, currentTime, currentTime + 1)];
      lastProcess' := Some(m);
    } else {
      gantt' := gantt'[|gantt'| - 1 := gantt'[|gantt'| - 1].(end := currentTime + 1)];
      lastProcess' := lastProcess;
    }
    remainingTime' := remainingTime[m := remainingTime[m] - 1];
    busyTime' := busyTime + 1;
    summary', completed', totalWaiting', totalTurnaround' := summary, completed, totalWaiting, totalTurnaround;
    if remainingTime'[m] == 0 {
      completed' := completed + 1;
      var turnaround := currentTime + 1 - process.arrival;
      var waiting := turnaround - process.burst;
      var rec := Record(process.id, process.name, process.arrival, process.burst, waiting, turnaround);
      assert rec == RecordAt(process, currentTime + 1);
      SumsAppend(summary, rec);
      summary' := summary + [rec];
      totalWaiting' := totalWaiting + waiting;
      totalTurnaround' := totalTurnaround + turnaround;
    }
    currentTime' := currentTime + 1;
  }

  /**
   * A pass with some process still unfinished makes progress, keeps the
   * count of finished processes, and continues the same run.
   */
  lemma {:induction false} Advance(ps: seq<Process>, st: PageState, st': PageState)
    requires Shaped(ps, st) && st.completed == Finished(st.remaining) && st.completed < |ps|
    requires st' == Step(ps, st)
    ensures st'.completed == Finished(st'.remaining) && Progress(ps, st, st') && Run(ps, st) == Run(ps, st')
  {
    match Shortest(ps, st.remaining, st.time)
    case Some(m) => TickProgress(ps, st, m);
    case None => IdleProgress(ps, st);
  }

  lemma {:induction false} TickProgress(ps: seq<Process>, st: PageState, m: nat)
    requires Shaped(ps, st) && st.completed == Finished(st.remaining) && m < |ps| && st.remaining[m] > 0
    ensures var st' := Tick(ps, st, m);
      st'.completed == Finished(st'.remaining) && SumRemaining(st'.remaining) < SumRemaining(st.remaining)
  {
    SumRemainingUpdate(st.remaining, m, st.remaining[m] - 1);
    FinishedUpdate(st.remaining, m, st.remaining[m] - 1);
  }

  lemma {:induction false} IdleProgress(ps: seq<Process>, st: PageState)
    requires Shaped(ps, st) && st.completed == Finished(st.remaining) && st.completed < |ps|
    requires Shortest(ps, st.remaining, st.time).None?
    ensures st.time < MaxArrival(ps)
  {
    FinishedAll(st.remaining);
    var j :| 0 <= j < |ps| && st.remaining[j] > 0;
    assert !Available(ps, st.remaining, st.time, j);
  }

  // ---------------------------------------------------------------------
  // What holds at the top of every pass

  /** What has run of the process at `i` ran after its arrival. */
  predicate WorkAt(ps: seq<Process>, st: PageState, i: nat)
    requires Shaped(ps, st) && i < |ps|
  {
    && st.remaining[i] <= ps[i].burst
    && (st.remaining[i] < ps[i].burst ==> ps[i].arrival + ps[i].burst - st.remaining[i] <= st.time)
  }

  /** The work done so far is the busy time; the last process to run has arrived. */
  predicate Worked(ps: seq<Process>, st: PageState)
    requires Shaped(ps, st)
  {
    && 0 <= st.time
    && (forall i | 0 <= i < |ps| :: WorkAt(ps, st, i))
    && st.busy + SumRemaining(st.remaining) == SumBursts(ps)
    && st.completed == Finished(st.remaining)
    && (st.last.Some? ==> ps[st.last.value].arrival < st.time)
  }

  /** The summary holds each finished process once, in completion order, none completing early. */
  predicate Logged(ps: seq<Process>, st: PageState)
    requires Shaped(ps, st)
  {
    && multiset(Served(st.summary)) + multiset(Unfinished(ps, st.remaining)) == multiset(ps)
    && AllConsistent(st.summary)
    && (forall k | 0 <= k < |st.summary| ::
          st.summary[k].arrival + st.summary[k].burst <= CompletionOf(st.summary[k]) <= st.time)
    && InCompletionOrder(st.summary)
  }

  /**
   * The bars run in time order without overlap and end by the clock; the
   * last one ends at the clock while its process has work left, and once
   * every process has completed; together they are the busy time.
   */
  predicate Drawn(ps: seq<Process>, st: PageState)
    requires Shaped(ps, st)
  {
    && InOrder(st.gantt) && EndOf(st.gantt) <= st.time
    && (st.gantt != [] ==> st.last.Some?)
    && (st.last.Some? && st.remaining[st.last.value] > 0 ==> EndOf(st.gantt) == st.time)
    && (st.completed == |ps| ==> EndOf(st.gantt) == st.time)
    && Length(st.gantt) == st.busy
  }

  /**
   * The last bar belongs to the last process; the bars of each process add
   * up to what of it has run, and adjacent bars carry different names
   * (meaningful when names are unique).
   */
  predicate Named(ps: seq<Process>, st: PageState)
    requires Shaped(ps, st)
  {
    && (st.last.Some? ==> st.gantt[|st.gantt| - 1].name == ps[st.last.value].name)
    && (forall i | 0 <= i < |ps| :: NamedLength(st.gantt, ps[i].name) == ps[i].burst - st.remaining[i])
    && Merged(st.gantt)
  }

  ghost predicate Inv(ps: seq<Process>, st: PageState) {
    Shaped(ps, st) && Worked(ps, st) && Logged(ps, st) && Drawn(ps, st) && Named(ps, st)
  }

  // ---------------------------------------------------------------------
  // The invariant is kept

  lemma {:induction false} StartKeeps(ps: seq<Process>)
    requires forall i | 0 <= i < |ps| :: ps[i].burst > 0
    ensures Inv(ps, Start(ps))
  {
    FreshKeeps(ps, Start(ps));
  }

  /** Nothing has run: every remaining time is the burst, and the chart and the summary are empty. */
  lemma {:induction false} FreshKeeps(ps: seq<Process>, st: PageState)
    requires forall i | 0 <= i < |ps| :: ps[i].burst > 0
    requires st == PageState(Bursts(ps), [], [], 0, 0, 0, None)
    ensures Inv(ps, st)
  {
    SumRemainingBursts(ps);
    FinishedAll(st.remaining);
    UnfinishedAll(ps, st.remaining);
    assert Served(st.summary) == [];
  }

  lemma {:induction false} IdleKeeps(ps: seq<Process>, st: PageState)
    requires Inv(ps, st) && st.completed < |ps| && Shortest(ps, st.remaining, st.time).None?
    ensures Inv(ps, st.(time := st.time + 1))
  {
    var st' := st.(time := st.time + 1);
    assert Worked(ps, st') by {
      forall i | 0 <= i < |ps| ensures WorkAt(ps, st', i) {
        assert WorkAt(ps, st, i);
      }
    }
    assert Drawn(ps, st') by {
      if st.last.Some? {
        assert !Available(ps, st.remaining, st.time, st.last.value);
      }
    }
  }

  lemma {:induction false} TickWorked(ps: seq<Process>, st: PageState, m: nat)
    requires Shaped(ps, st) && Worked(ps, st) && m < |ps| && Available(ps, st.remaining, st.time, m)
    ensures Worked(ps, Tick(ps, st, m))
  {
    var st' := Tick(ps, st, m);
    SumRemainingUpdate(st.remaining, m, st.remaining[m] - 1);
    FinishedUpdate(st.remaining, m, st.remaining[m] - 1);
    forall i | 0 <= i < |ps| ensures WorkAt(ps, st', i) {
      assert WorkAt(ps, st, i);
    }
  }

  lemma {:induction false} TickLogged(ps: seq<Process>, st: PageState, m: nat)
    requires Shaped(ps, st) && Logged(ps, st) && m < |ps| && Available(ps, st.remaining, st.time, m)
    requires WorkAt(ps, st, m)
    ensures Logged(ps, Tick(ps, st, m))
  {
    if st.remaining[m] == 1 {
      CompleteLogged(ps, st, m);
    } else {
      UnfinishedSame(ps, st.remaining, m, st.remaining[m] - 1);
    }
  }

  /** The tick that completes `ps[m]` logs it once, after every earlier completion. */
  lemma {:induction false} CompleteLogged(ps: seq<Process>, st: PageState, m: nat)
    requires Shaped(ps, st) && Logged(ps, st) && m < |ps| && Available(ps, st.remaining, st.time, m)
    requires WorkAt(ps, st, m) && st.remaining[m] == 1
    ensures Logged(ps, Tick(ps, st, m))
  {
    var rec := RecordAt(ps[m], st.time + 1);
    assert Tick(ps, st, m).summary == st.summary + [rec];
    assert Tick(ps, st, m).remaining == st.remaining[m := 0];
    UnfinishedDone(ps, st.remaining, m);
    ServedAppend(st.summary, rec);
    LogAppend(st.summary, rec, st.time);
  }

  lemma {:induction false} TickDrawn(ps: seq<Process>, st: PageState, m: nat)
    requires Shaped(ps, st) && Drawn(ps, st) && 0 <= st.time && m < |ps| && st.remaining[m] > 0
    ensures Drawn(ps, Tick(ps, st, m))
  {
    TickChartDrawn(ps, st, m);
  }

  /** A tick leaves the bars in order, the last ending one tick later, and one tick longer in total. */
  lemma {:induction false} TickChartDrawn(ps: seq<Process>, st: PageState, m: nat)
    requires Shaped(ps, st) && m < |ps| && st.remaining[m] > 0 && 0 <= st.time
    requires InOrder(st.gantt) && EndOf(st.gantt) <= st.time
    requires st.last.Some? && st.remaining[st.last.value] > 0 ==> EndOf(st.gantt) == st.time
    ensures var g := TickChart(ps, st, m);
      g != [] && InOrder(g) && EndOf(g) == st.time + 1 && Length(g) == Length(st.gantt) + 1
  {
    if st.last == Some(m) {
      SetEndInOrder(st.gantt, st.time + 1);
      SetEndLength(st.gantt, st.time + 1);
    } else {
      var s := Segment(ps[m].name, st.time, st.time + 1);
      if st.last.Some? && st.remaining[st.last.value] > 0 {
        SetEndSame(st.gantt, st.time);
      }
      assert TickChart(ps, st, m) == st.gantt + [s];
      AppendInOrder(st.gantt, s);
      LengthAppend(st.gantt, s);
    }
  }

  lemma {:induction false} TickNamed(ps: seq<Process>, st: PageState, m: nat)
    requires Shaped(ps, st) && Named(ps, st) && UniqueNames(ps) && m < |ps| && st.remaining[m] > 0
    requires st.gantt != [] ==> st.last.Some?
    requires st.last.Some? && st.remaining[st.last.value] > 0 ==> EndOf(st.gantt) == st.time
    ensures Named(ps, Tick(ps, st, m))
  {
    var st' := Tick(ps, st, m);
    if st.last == Some(m) {
      StretchNamed(ps, st, m);
    } else {
      SwitchNamed(ps, st, m);
    }
  }

  /** Stretching the bar of `ps[m]` by one tick adds one tick to its name alone. */
  lemma {:induction false} StretchNamed(ps: seq<Process>, st: PageState, m: nat)
    requires Shaped(ps, st) && Named(ps, st) && UniqueNames(ps) && m < |ps| && st.remaining[m] > 0
    requires st.last == Some(m) && EndOf(st.gantt) == st.time
    ensures var g := TickChart(ps, st, m);
      && g[|g| - 1].name == ps[m].name && Merged(g)
      && forall i | 0 <= i < |ps| :: NamedLength(g, ps[i].name) == ps[i].burst - st.remaining[m := st.remaining[m] - 1][i]
  {
    var g := TickChart(ps, st, m);
    forall i | 0 <= i < |ps| ensures NamedLength(g, ps[i].name) == ps[i].burst - st.remaining[m := st.remaining[m] - 1][i] {
      SetEndNamedLength(st.gantt, st.time + 1, ps[i].name);
    }
    SetEndMerged(st.gantt, st.time + 1);
  }

  /** A one-tick bar for `ps[m]` after another process's bar adds one tick to its name alone. */
  lemma {:induction false} SwitchNamed(ps: seq<Process>, st: PageState, m: nat)
    requires Shaped(ps, st) && Named(ps, st) && UniqueNames(ps) && m < |ps| && st.remaining[m] > 0
    requires st.last != Some(m) && (st.gantt != [] ==> st.last.Some?)
    requires st.last.Some? && st.remaining[st.last.value] > 0 ==> EndOf(st.gantt) == st.time
    ensures var g := TickChart(ps, st, m);
      && g[|g| - 1].name == ps[m].name && Merged(g)
      && forall i | 0 <= i < |ps| :: NamedLength(g, ps[i].name) == ps[i].burst - st.remaining[m := st.remaining[m] - 1][i]
  {
    var s := Segment(ps[m].name, st.time, st.time + 1);
    if st.last.Some? && st.remaining[st.last.value] > 0 {
      SetEndSame(st.gantt, st.time);
    }
    var g := st.gantt + [s];
    assert TickChart(ps, st, m) == g;
    forall i | 0 <= i < |ps| ensures NamedLength(g, ps[i].name) == ps[i].burst - st.remaining[m := st.remaining[m] - 1][i] {
      NamedLengthAppend(st.gantt, s, ps[i].name);
    }
    assert Merged(g) by {
      forall k | 0 <= k < |g| - 1 ensures g[k].name != g[k + 1].name {
        if k < |st.gantt| - 1 {
          assert g[k] == st.gantt[k] && g[k + 1] == st.gantt[k + 1];
        } else {
          assert g[k] == st.gantt[|st.gantt| - 1] && g[k + 1] == s;
          assert ps[st.last.value].name != ps[m].name;
        }
      }
    }
  }

  lemma {:induction false} StepKeeps(ps: seq<Process>, st: PageState)
    requires Inv(ps, st) && UniqueNames(ps) && st.completed < |ps|
    ensures Inv(ps, Step(ps, st))
  {
    match Shortest(ps, st.remaining, st.time)
    case Some(m) =>
      TickWorked(ps, st, m);
      assert WorkAt(ps, st, m);
      TickLogged(ps, st, m);
      TickDrawn(ps, st, m);
      TickNamed(ps, st, m);
    case None =>
      IdleKeeps(ps, st);
  }

  /** The loop keeps the invariant to its end, where every process has completed. */
  lemma {:induction false} RunKeeps(ps: seq<Process>, st: PageState)
    requires Inv(ps, st) && UniqueNames(ps)
    ensures Inv(ps, Run(ps, st)) && Run(ps, st).completed >= |ps|
    decreases SumRemaining(st.remaining), MaxArrival(ps) - st.time
  {
    if st.completed < |ps| {
      Advance(ps, st, Step(ps, st));
      StepKeeps(ps, st);
      RunKeeps(ps, Step(ps, st));
    }
  }

  /**
   * For every well-formed input: the summary holds every process once, in
   * completion order, none completing before arrival + burst or after
   * totalTime; the bars run in time order without overlap and the last
   * ends at totalTime; the busy time is the sum of the bursts and the
   * length of the bars; each process's bars add up to its burst and no two
   * adjacent bars carry the same name.
   */
  lemma {:induction false} Schedule(ps: seq<Process>)
    requires WellFormed(ps)
    ensures var r := Outcome(ps);
      && multiset(Served(r.summary)) == multiset(ps)
      && AllConsistent(r.summary)
      && InCompletionOrder(r.summary)
      && (forall k | 0 <= k < |r.summary| ::
            r.summary[k].arrival + r.summary[k].burst <= CompletionOf(r.summary[k]) <= r.totalTime)
      && InOrder(r.gantt) && r.totalTime == EndOf(r.gantt)
      && r.busyTime == SumBursts(ps) && Length(r.gantt) == r.busyTime
      && Merged(r.gantt)
      && (forall i | 0 <= i < |ps| :: NamedLength(r.gantt, ps[i].name) == ps[i].burst)
  {
    StartKeeps(ps);
    RunKeeps(ps, Start(ps));
    Finish(ps, Run(ps, Start(ps)));
  }

  /** Once every process has completed, nothing is pending and all the work is drawn. */
  lemma {:induction false} Finish(ps: seq<Process>, st: PageState)
    requires Inv(ps, st) && st.completed >= |ps|
    ensures multiset(Served(st.summary)) == multiset(ps)
    ensures st.busy == SumBursts(ps) && EndOf(st.gantt) == st.time
    ensures forall i | 0 <= i < |ps| :: NamedLength(st.gantt, ps[i].name) == ps[i].burst
  {
    FinishedAll(st.remaining);
    SumRemainingZero(st.remaining);
    UnfinishedNone(ps, st.remaining);
  }

  // ---------------------------------------------------------------------
  // Helpers

  /** Setting the end the last bar already has changes nothing. */
  lemma {:induction false} SetEndSame(g: seq<Segment>, e: int)
    requires g != [] && EndOf(g) == e
    ensures SetEnd(g, e) == g
  {
  }

  lemma {:induction false} SetEndInOrder(g: seq<Segment>, e: int)
    requires InOrder(g) && g != [] && EndOf(g) <= e
    ensures InOrder(SetEnd(g, e)) && EndOf(SetEnd(g, e)) == e
  {
    var g' := SetEnd(g, e);
    assert forall k | 0 <= k < |g| - 1 :: g'[k] == g[k];
  }

  lemma {:induction false} SetEndLength(g: seq<Segment>, e: int)
    requires g != []
    ensures Length(SetEnd(g, e)) == Length(g) + (e - EndOf(g))
  {
    assert SetEnd(g, e)[..|g| - 1] == g[..|g| - 1];
  }

  lemma {:induction false} SetEndNamedLength(g: seq<Segment>, e: int, name: string)
    requires g != []
    ensures NamedLength(SetEnd(g, e), name) == NamedLength(g, name) + (if g[|g| - 1].name == name then e - EndOf(g) else 0)
  {
    assert SetEnd(g, e)[..|g| - 1] == g[..|g| - 1];
  }

  lemma {:induction false} SetEndMerged(g: seq<Segment>, e: int)
    requires g != [] && Merged(g)
    ensures Merged(SetEnd(g, e))
  {
    var g' := SetEnd(g, e);
    assert forall k | 0 <= k < |g| :: g'[k].name == g[k].name;
  }
}
