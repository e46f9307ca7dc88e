/**
 * Preemptive shortest-remaining-time-first as the library behind the Home
 * page computes it (`simulateSRTF` in src/utlis/algorithms.js). The clock
 * advances one tick per pass; in each pass the available process with the
 * least remaining time (ties: earlier arrival, then input order) runs for
 * one tick. The bar of the running process stays open while it keeps the
 * CPU and is closed when another process takes over or when it completes.
 * When nothing is available the clock jumps to the earliest pending arrival
 * behind one Idle bar.
 */
module LibSRTF {
  import opened Scheduling
  import opened Work

  /**
   * The variables of the main loop: `remaining[i]` and `completion[i]`
   * belong to the i-th process; `current` is the position of the process
   * whose bar is open, which opened at `segmentStart`.
   */
  datatype SRTFState = SRTFState(remaining: seq<nat>, completion: seq<int>, gantt: seq<Segment>, time: int,
                                 completed: nat, busy: int, current: Option<nat>, segmentStart: int)

  /** The loop variables fit the process list. */
  predicate Shaped(ps: seq<Process>, st: SRTFState) {
    && |st.remaining| == |ps| && |st.completion| == |ps|
    && (st.current.Some? ==> st.current.value < |ps|)
  }

  /** `p.arrival <= time && p.remaining > 0` for the process at `j`. */
  predicate Available(ps: seq<Process>, rem: seq<nat>, time: int, j: nat)
    requires j < |ps| <= |rem|
  {
    ps[j].arrival <= time && rem[j] > 0
  }

  /**
   * `ps[m]` comes first in
   * `available.sort((a, b) => a.remaining - b.remaining || a.arrival - b.arrival)`
   * when both are available: less remaining time, then earlier arrival,
   * then input order (the sort is stable).
   */
  predicate Sooner(ps: seq<Process>, rem: seq<nat>, m: nat, j: nat)
    requires m < |ps| <= |rem| && j < |ps|
  {
    rem[m] < rem[j] || (rem[m] == rem[j] && (ps[m].arrival < ps[j].arrival || (ps[m].arrival == ps[j].arrival && m <= j)))
  }

  /** `available[0]` after the sort, as a position in `ps`; None when nothing is available. */
  function Shortest(ps: seq<Process>, rem: seq<nat>, time: int): (r: Option<nat>)
    requires |ps| <= |rem|
    ensures r.None? <==> forall j | 0 <= j < |ps| :: !Available(ps, rem, time, j)
    ensures r.Some? ==> r.value < |ps| && Available(ps, rem, time, r.value)
    ensures r.Some? ==> forall j | 0 <= j < |ps| && Available(ps, rem, time, j) :: Sooner(ps, rem, r.value, j)
  {
    ShortestIn(ps, rem, time, |ps|)
  }

  /** The same choice among the first `n` processes. */
  function ShortestIn(ps: seq<Process>, rem: seq<nat>, time: int, n: nat): (r: Option<nat>)
    requires n <= |ps| <= |rem|
    ensures r.None? <==> forall j | 0 <= j < n :: !Available(ps, rem, time, j)
    ensures r.Some? ==> r.value < n && Available(ps, rem, time, r.value)
    ensures r.Some? ==> forall j | 0 <= j < n && Available(ps, rem, time, j) :: Sooner(ps, rem, r.value, j)
  {
    if n == 0 then None
    else
      var r := ShortestIn(ps, rem, time, n - 1);
      var m := n - 1;
      if Available(ps, rem, time, m) &&
         (r.None? || rem[m] < rem[r.value] || (rem[m] == rem[r.value] && ps[m].arrival < ps[r.value].arrival))
      then Some(m)
      else r
  }

  /** The state before the loop: nothing has run and no bar is open. */
  function Start(ps: seq<Process>): (st: SRTFState)
    requires forall i | 0 <= i < |ps| :: ps[i].burst > 0
    ensures Shaped(ps, st)
  {
    SRTFState(Bursts(ps), seq(|ps|, i => 0), [], 0, 0, 0, None, 0)
  }

  /**
   * `if (!current || current.id !== shortest.id)`: when another process
   * takes over, the open bar (if any) is closed at the current time and a
   * bar for `ps[m]` opens. Ids are unique, so comparing ids is comparing
   * positions.
   */
  function Switch(ps: seq<Process>, st: SRTFState, m: nat): SRTFState
    requires Shaped(ps, st)
  {
    if st.current == Some(m) then st
    else
      var closed := if st.current.Some? then [Segment(ps[st.current.value].name, st.segmentStart, st.time)] else [];
      st.(gantt := st.gantt + closed, current := Some(m), segmentStart := st.time)
  }

  /**
   * `ps[m]` runs for one tick; when its remaining time reaches 0 it
   * completes at the new time and its bar is closed.
   */
  function Tick(ps: seq<Process>, st: SRTFState, m: nat): (st': SRTFState)
    requires Shaped(ps, st) && m < |ps| && st.remaining[m] > 0
    ensures Shaped(ps, st')
  {
    var sw := Switch(ps, st, m);
    var rem := st.remaining[m := st.remaining[m] - 1];
    var time := st.time + 1;
    if rem[m] == 0 then
      sw.(remaining := rem, completion := st.completion[m := time],
          gantt := sw.gantt + [Segment(ps[m].name, sw.segmentStart, time)],
          time := time, completed := st.completed + 1, busy := st.busy + 1, current := None)
    else
      sw.(remaining := rem, time := time, busy := st.busy + 1)
  }

  /** Nothing is available and nothing has work left: `Math.min()` has no argument. */
  predicate Stalled(ps: seq<Process>, st: SRTFState)
    requires Shaped(ps, st)
  {
    Shortest(ps, st.remaining, st.time).None? && NextPending(ps, st.remaining).None?
  }

  /**
   * One pass of the main loop: one tick of the shortest available process,
   * or a jump over an Idle bar to the earliest arrival among the processes
   * with work left.
   */
  function Step(ps: seq<Process>, st: SRTFState): (st': SRTFState)
    requires Shaped(ps, st)
    ensures Shaped(ps, st')
    ensures Stalled(ps, st) || SumRemaining(st'.remaining) < SumRemaining(st.remaining) ||
            (st'.remaining == st.remaining && st.time < st'.time <= MaxArrival(ps))
  {
    match Shortest(ps, st.remaining, st.time)
    case Some(m) =>
      SumRemainingUpdate(st.remaining, m, st.remaining[m] - 1);
      Tick(ps, st, m)
    case None =>
      match NextPending(ps, st.remaining)
      case None => st
      case Some(j) =>
        assert !Available(ps, st.remaining, st.time, j);
        st.(gantt := st.gantt + [Segment(IdleName, st.time, ps[j].arrival)], time := ps[j].arrival)
  }

  /** The loop from state `st` on, until `completed < n` fails. */
  ghost function Run(ps: seq<Process>, st: SRTFState): (st': SRTFState)
    requires Shaped(ps, st)
    ensures Shaped(ps, st')
    decreases SumRemaining(st.remaining), MaxArrival(ps) - st.time
  {
    if st.completed >= |ps| || Stalled(ps, st) then st else Run(ps, Step(ps, st))
  }

  /** The simulation `simulateSRTF` returns, from the state the loop ends in. */
  ghost function Outcome(ps: seq<Process>): Simulation
    requires forall i | 0 <= i < |ps| :: ps[i].burst > 0
  {
    var st := Run(ps, Start(ps));
    var summary := Summary(ps, st.completion);
    Simulation(st.gantt, summary, st.time, TotalsOf(summary), st.busy)
  }

  method SimulateSRTF(processes: seq<Process>) returns (r: Simulation)
    requires WellFormed(processes)
    ensures r == Outcome(processes)
  {
    var procs := processes;
    var n := |procs|;
    var remaining := Bursts(procs);
    var completion := seq(n, i => 0);
    var gantt: seq<Segment> := [];
    var time := 0;
    var completed: nat := 0;
    var busy := 0;
    var current: Option<nat> := None;
    var segmentStart := 0;
    FinishedAll(remaining);

    while completed < n
      invariant Shaped(procs, SRTFState(remaining, completion, gantt, time, completed, busy, current, segmentStart))
      invariant completed == Finished(remaining)
      invariant Run(procs, SRTFState(remaining, completion, gantt, time, completed, busy, current, segmentStart))
             == Run(procs, Start(procs))
      decreases SumRemaining(remaining), MaxArrival(procs) - time
    {
      ghost var st0 := SRTFState(remaining, completion, gantt, time, completed, busy, current, segmentStart);
      var shortest := Shortest(procs, remaining, time);
      if shortest.None? {
        // some process still has work, and none of them has arrived
        FinishedAll(remaining);
        var next := NextPending(procs, remaining);
        var nextArrival := procs[next.value].arrival;
        assert !Available(procs, remaining, time, next.value);
        gantt := gantt + [Segment(IdleName, time, nextArrival)];
        time := nextArrival;
      } else {
        SumRemainingUpdate(remaining, shortest.value, remaining[shortest.value] - 1);
        FinishedUpdate(remaining, shortest.value, remaining[shortest.value] - 1);
        remaining, completion, gantt, time, completed, busy, current, segmentStart :=
          RunTick(procs, remaining, completion, gantt, time, completed, busy, current, segmentStart, shortest.value);
      }
      Advance(procs, st0, SRTFState(remaining, completion, gantt, time, completed, busy, current, segmentStart));
    }
    var summary := Summary(procs, completion);
    r := Simulation(gantt, summary, time, TotalsOf(summary), busy);
  }

  /** The body of the loop once `shortest` is found: one tick of `procs[m]`. */
  method RunTick(procs: seq<Process>, remaining: seq<nat>, completion: seq<int>, gantt: seq<Segment>, time: int,
                 completed: nat, busy: int, current: Option<nat>, segmentStart: int, m: nat)
    returns (remaining': seq<nat>, completion': seq<int>, gantt': seq<Segment>, time': int,
             completed': nat, busy': int, current': Option<nat>, segmentStart': int)
    requires Shaped(procs, SRTFState(remaining, completion, gantt, time, completed, busy, current, segmentStart))
    requires m < |procs| && remaining[m] > 0
    ensures SRTFState(remaining', completion', gantt', time', completed', busy', current', segmentStart')
         == Tick(procs, SRTFState(remaining, completion, gantt, time, completed, busy, current, segmentStart), m)
    ensures remaining' == remaining[m := remaining[m] - 1]
    ensures completed' == completed + (if remaining[m] == 1 then 1 else 0)
  {
    ghost var st0 := SRTFState(remaining, completion, gantt, time, completed, busy, current, segmentStart);
    remaining', completion', gantt', time', completed', busy', current', segmentStart' :=
      remaining, completion, gantt, time, completed, busy, current, segmentStart;
    if current'.None? || current'.value != m {
      if current'.Some? {
        gantt' := gantt' + [Segment(procs[current'.value].name, segmentStart', time')];
      }
      current' := Some(m);
      segmentStart' := time';
    }
    assert SRTFState(remaining', completion', gantt', time', completed', busy', current', segmentStart') == Switch(procs, st0, m);
    remaining' := remaining'[m := remaining'[m] - 1];
    time' := time' + 1;
    busy' := busy' + 1;
    if remaining'[m] == 0 {
      completion' := completion'[m := time'];
      completed' := completed' + 1;
      gantt' := gantt' + [Segment(procs[m].name, segmentStart', time')];
      current' := None;
    }
  }

  /** A pass from a state the loop can make one in continues the same run. */
  lemma {:induction false} Advance(ps: seq<Process>, st: SRTFState, st': SRTFState)
    requires Shaped(ps, st) && st.completed < |ps| && !Stalled(ps, st)
    requires st' == Step(ps, st)
    ensures Run(ps, st') == Run(ps, st)
  {
  }

  // ---------------------------------------------------------------------
  // What holds at the top of every pass

  /** Where the closed bars end: the start of the open bar, or the clock when none is open. */
  function Frontier(st: SRTFState): int {
    if st.current.Some? then st.segmentStart else st.time
  }

  /** The ticks the open bar already covers. */
  function Open(st: SRTFState, i: nat): int {
    if st.current == Some(i) then st.time - st.segmentStart else 0
  }

  /** What has run of the process at `i` ran after its arrival, and once finished it completed in time. */
  predicate WorkAt(ps: seq<Process>, st: SRTFState, i: nat)
    requires Shaped(ps, st) && i < |ps|
  {
    && st.remaining[i] <= ps[i].burst
    && (st.remaining[i] < ps[i].burst ==> ps[i].arrival + ps[i].burst - st.remaining[i] <= st.time)
    && (st.remaining[i] == 0 ==> ps[i].arrival + ps[i].burst <= st.completion[i] <= st.time)
  }

  /** The work done so far, and the process whose bar is open. */
  predicate Worked(ps: seq<Process>, st: SRTFState)
    requires Shaped(ps, st)
  {
    && (forall i | 0 <= i < |ps| :: WorkAt(ps, st, i))
    && st.busy + SumRemaining(st.remaining) == SumBursts(ps)
    && st.completed == Finished(st.remaining)
    && (st.current.Some? ==> Available(ps, st.remaining, st.time, st.current.value) && st.segmentStart < st.time)
  }

  /** The closed bars tile [0, Frontier), and the busy ones with the open bar make up the busy time. */
  predicate Drawn(ps: seq<Process>, st: SRTFState) {
    && 0 <= Frontier(st) <= st.time
    && CoversFromZero(st.gantt) && EndOf(st.gantt) == Frontier(st)
    && (NoneNamedIdle(ps) ==> BusyLength(st.gantt) + (if st.current.Some? then st.time - st.segmentStart else 0) == st.busy)
  }

  /** Under unique names and none named Idle: the bars of each process, with its open bar, add up to what of it has run. */
  predicate Measured(ps: seq<Process>, st: SRTFState)
    requires Shaped(ps, st)
  {
    UniqueNames(ps) && NoneNamedIdle(ps) ==>
      forall i | 0 <= i < |ps| :: NamedLength(st.gantt, ps[i].name) + Open(st, i) == ps[i].burst - st.remaining[i]
  }

  /**
   * The next bar will not carry the last bar's name: the open bar belongs
   * to another process; with none open, the last bar is Idle and something
   * is available, or it is a bar of a process no available one shares its name with.
   */
  predicate Fresh(ps: seq<Process>, st: SRTFState)
    requires Shaped(ps, st)
  {
    st.gantt != [] ==>
      var last := st.gantt[|st.gantt| - 1];
      match st.current
      case Some(c) => last.name != ps[c].name
      case None =>
        && (last.name == IdleName ==> Shortest(ps, st.remaining, st.time).Some?)
        && forall j | 0 <= j < |ps| && Available(ps, st.remaining, st.time, j) :: ps[j].name != last.name
  }

  predicate Separated(ps: seq<Process>, st: SRTFState)
    requires Shaped(ps, st)
  {
    UniqueNames(ps) && NoneNamedIdle(ps) ==> Merged(st.gantt) && Fresh(ps, st)
  }

  ghost predicate Inv(ps: seq<Process>, st: SRTFState) {
    Shaped(ps, st) && Worked(ps, st) && Drawn(ps, st) && Measured(ps, st) && Separated(ps, st)
  }

  // ---------------------------------------------------------------------
  // The invariant is kept

  lemma {:induction false} StartKeeps(ps: seq<Process>)
    requires forall i | 0 <= i < |ps| :: ps[i].burst > 0
    ensures Inv(ps, Start(ps))
  {
    var st := Start(ps);
    assert Worked(ps, st) by {
      SumRemainingBursts(ps);
      FinishedAll(st.remaining);
      assert forall i | 0 <= i < |ps| :: WorkAt(ps, st, i);
    }
    assert Drawn(ps, st);
    assert Measured(ps, st) by {
      assert forall i | 0 <= i < |ps| :: NamedLength(st.gantt, ps[i].name) + Open(st, i) == 0;
    }
    assert Separated(ps, st);
  }

  /** The Idle jump: nothing has arrived, so the clock moves to the earliest arrival among those with work left. */
  lemma {:induction false} IdleKeeps(ps: seq<Process>, st: SRTFState, j: nat)
    requires Inv(ps, st)
    requires Shortest(ps, st.remaining, st.time).None? && NextPending(ps, st.remaining) == Some(j)
    ensures Inv(ps, st.(gantt := st.gantt + [Segment(IdleName, st.time, ps[j].arrival)], time := ps[j].arrival))
  {
    var idle := Segment(IdleName, st.time, ps[j].arrival);
    var st' := st.(gantt := st.gantt + [idle], time := ps[j].arrival);
    assert st.current.None?;
    assert !Available(ps, st.remaining, st.time, j);
    IdleDrawn(ps, st, j);
    if UniqueNames(ps) && NoneNamedIdle(ps) {
      IdleNamed(ps, st, j);
    }
  }

  /** The Idle jump keeps the account of the work done and the chart in step with the clock. */
  lemma {:induction false} IdleDrawn(ps: seq<Process>, st: SRTFState, j: nat)
    requires Shaped(ps, st) && Worked(ps, st) && Drawn(ps, st) && st.current.None?
    requires j < |ps| && st.time < ps[j].arrival
    ensures var st' := st.(gantt := st.gantt + [Segment(IdleName, st.time, ps[j].arrival)], time := ps[j].arrival);
      Worked(ps, st') && Drawn(ps, st')
  {
    var idle := Segment(IdleName, st.time, ps[j].arrival);
    var st' := st.(gantt := st.gantt + [idle], time := ps[j].arrival);
    forall i | 0 <= i < |ps| ensures WorkAt(ps, st', i) {
      assert WorkAt(ps, st, i);
    }
    AppendCovers(st.gantt, idle);
    BusyLengthAppend(st.gantt, [idle]);
    assert BusyLength([idle]) == 0 by { assert [idle][..0] == []; }
  }

  /** The Idle jump keeps each process's bars and keeps adjacent bars apart. */
  lemma {:induction false} IdleNamed(ps: seq<Process>, st: SRTFState, j: nat)
    requires Shaped(ps, st) && Measured(ps, st) && Separated(ps, st) && st.current.None?
    requires UniqueNames(ps) && NoneNamedIdle(ps)
    requires Shortest(ps, st.remaining, st.time).None?
    requires j < |ps| && st.remaining[j] > 0 && st.time < ps[j].arrival
    ensures var st' := st.(gantt := st.gantt + [Segment(IdleName, st.time, ps[j].arrival)], time := ps[j].arrival);
      Measured(ps, st') && Separated(ps, st')
  {
    var idle := Segment(IdleName, st.time, ps[j].arrival);
    var st' := st.(gantt := st.gantt + [idle], time := ps[j].arrival);
    assert Available(ps, st'.remaining, st'.time, j);
    forall i | 0 <= i < |ps| ensures NamedLength(st'.gantt, ps[i].name) + Open(st', i) == ps[i].burst - st'.remaining[i] {
      NamedLengthAppend(st.gantt, idle, ps[i].name);
    }
    if st.gantt != [] {
      assert st.gantt[|st.gantt| - 1].name != IdleName;
      assert st'.gantt[|st'.gantt| - 2] == st.gantt[|st.gantt| - 1];
    }
    forall k | 0 <= k < |st'.gantt| - 1 ensures st'.gantt[k].name != st'.gantt[k + 1].name {
      if k < |st.gantt| - 1 { assert st'.gantt[k] == st.gantt[k] && st'.gantt[k + 1] == st.gantt[k + 1]; }
    }
  }

  /** One tick of `ps[m]` keeps the account of the work done. */
  lemma {:induction false} TickWorked(ps: seq<Process>, st: SRTFState, m: nat)
    requires Shaped(ps, st) && Worked(ps, st) && m < |ps| && Available(ps, st.remaining, st.time, m)
    ensures var st' := Tick(ps, st, m); Worked(ps, st')
  {
    var st' := Tick(ps, st, m);
    var rem' := st.remaining[m := st.remaining[m] - 1];
    assert st'.remaining == rem' && st'.time == st.time + 1 && st'.busy == st.busy + 1;
    SumRemainingUpdate(st.remaining, m, st.remaining[m] - 1);
    FinishedUpdate(st.remaining, m, st.remaining[m] - 1);
    assert WorkAt(ps, st, m);
    forall i | 0 <= i < |ps| ensures WorkAt(ps, st', i) {
      assert WorkAt(ps, st, i);
      if i != m {
        assert st'.remaining[i] == st.remaining[i] && st'.completion[i] == st.completion[i];
      }
    }
  }

  /** What the switch does to the chart: nothing, or it closes the open bar of another process. */
  lemma {:induction false} SwitchShape(ps: seq<Process>, st: SRTFState, m: nat)
    requires Shaped(ps, st)
    ensures var sw := Switch(ps, st, m);
      && sw.current == Some(m) && sw.remaining == st.remaining && sw.completion == st.completion
      && sw.time == st.time && sw.busy == st.busy && sw.completed == st.completed
      && (st.current == Some(m) ==> sw == st)
      && (st.current.None? ==> sw.gantt == st.gantt && sw.segmentStart == st.time)
      && (st.current.Some? && st.current != Some(m) ==>
            sw.gantt == st.gantt + [Segment(ps[st.current.value].name, st.segmentStart, st.time)] && sw.segmentStart == st.time)
  {
    if st.current.None? {
      assert st.gantt + [] == st.gantt;
    }
  }

  /** One tick of `ps[m]` keeps the chart in step with the clock and the busy time. */
  lemma {:induction false} TickDrawn(ps: seq<Process>, st: SRTFState, m: nat)
    requires Inv(ps, st) && Shortest(ps, st.remaining, st.time) == Some(m)
    ensures var st' := Tick(ps, st, m); Drawn(ps, st')
  {
    var st' := Tick(ps, st, m);
    var sw := Switch(ps, st, m);
    SwitchShape(ps, st, m);
    SwitchDrawn(ps, st, m);
    if st.remaining[m] == 1 {
      var s := Segment(ps[m].name, sw.segmentStart, st.time + 1);
      assert st'.gantt == sw.gantt + [s] && st'.current.None?;
      AppendCovers(sw.gantt, s);
      if NoneNamedIdle(ps) {
        BusyLengthAppend(sw.gantt, [s]);
        assert [s][..0] == [];
      }
    } else {
      assert st'.gantt == sw.gantt && st'.current == Some(m) && st'.segmentStart == sw.segmentStart;
    }
  }

  /** Closing the previous process's bar keeps the chart covering [0, segmentStart) and the busy time. */
  lemma {:induction false} SwitchDrawn(ps: seq<Process>, st: SRTFState, m: nat)
    requires Inv(ps, st) && Shortest(ps, st.remaining, st.time) == Some(m)
    ensures var sw := Switch(ps, st, m);
      && CoversFromZero(sw.gantt) && EndOf(sw.gantt) == sw.segmentStart && sw.segmentStart <= st.time
      && (NoneNamedIdle(ps) ==> BusyLength(sw.gantt) + (st.time - sw.segmentStart) == st.busy)
  {
    var sw := Switch(ps, st, m);
    SwitchShape(ps, st, m);
    if st.current != Some(m) && st.current.Some? {
      var s := Segment(ps[st.current.value].name, st.segmentStart, st.time);
      AppendCovers(st.gantt, s);
      if NoneNamedIdle(ps) {
        assert s.name != IdleName;
        BusyLengthAppend(st.gantt, [s]);
        assert [s][..0] == [];
      }
    }
  }

  /** Names tell processes apart. */
  lemma {:induction false} NamesDiffer(ps: seq<Process>, i: nat, j: nat)
    requires UniqueNames(ps) && i < |ps| && j < |ps| && i != j
    ensures ps[i].name != ps[j].name
  {
    if i < j { assert ps[i].name != ps[j].name; } else { assert ps[j].name != ps[i].name; }
  }

  /** After the switch, what ran of every process is still on the chart or in the open bar. */
  lemma {:induction false} SwitchMeasured(ps: seq<Process>, st: SRTFState, m: nat)
    requires Shaped(ps, st) && Measured(ps, st) && UniqueNames(ps) && NoneNamedIdle(ps)
    ensures var sw := Switch(ps, st, m);
      forall i | 0 <= i < |ps| :: NamedLength(sw.gantt, ps[i].name) + Open(sw, i) == ps[i].burst - st.remaining[i]
  {
    var sw := Switch(ps, st, m);
    SwitchShape(ps, st, m);
    forall i | 0 <= i < |ps| ensures NamedLength(sw.gantt, ps[i].name) + Open(sw, i) == ps[i].burst - st.remaining[i] {
      assert NamedLength(st.gantt, ps[i].name) + Open(st, i) == ps[i].burst - st.remaining[i];
      if st.current != Some(m) && st.current.Some? {
        var c := st.current.value;
        NamedLengthAppend(st.gantt, Segment(ps[c].name, st.segmentStart, st.time), ps[i].name);
        if i != c { NamesDiffer(ps, i, c); }
      }
    }
  }

  /** One tick of `ps[m]` keeps each process's bars in step with what of it has run. */
  lemma {:induction false} TickMeasured(ps: seq<Process>, st: SRTFState, m: nat)
    requires Shaped(ps, st) && m < |ps| && st.remaining[m] > 0 && Measured(ps, st)
    requires UniqueNames(ps) && NoneNamedIdle(ps)
    ensures var st' := Tick(ps, st, m); Measured(ps, st')
  {
    var st' := Tick(ps, st, m);
    var sw := Switch(ps, st, m);
    SwitchShape(ps, st, m);
    SwitchMeasured(ps, st, m);
    var done := st.remaining[m] == 1;
    var s := Segment(ps[m].name, sw.segmentStart, st.time + 1);
    assert st'.remaining == st.remaining[m := st.remaining[m] - 1] && st'.time == st.time + 1;
    assert done ==> st'.gantt == sw.gantt + [s] && st'.current.None?;
    assert !done ==> st'.gantt == sw.gantt && st'.current == Some(m) && st'.segmentStart == sw.segmentStart;
    forall i | 0 <= i < |ps| ensures NamedLength(st'.gantt, ps[i].name) + Open(st', i) == ps[i].burst - st'.remaining[i] {
      assert NamedLength(sw.gantt, ps[i].name) + Open(sw, i) == ps[i].burst - st.remaining[i];
      if i != m { NamesDiffer(ps, i, m); }
      if done {
        NamedLengthAppend(sw.gantt, s, ps[i].name);
      }
    }
  }

  /** One tick of `ps[m]` keeps adjacent bars apart. */
  lemma {:induction false} TickSeparated(ps: seq<Process>, st: SRTFState, m: nat)
    requires Shaped(ps, st) && m < |ps| && Available(ps, st.remaining, st.time, m)
    requires UniqueNames(ps) && NoneNamedIdle(ps) && Merged(st.gantt) && Fresh(ps, st)
    ensures var st' := Tick(ps, st, m); Merged(st'.gantt) && Fresh(ps, st')
  {
    var st' := Tick(ps, st, m);
    var sw := Switch(ps, st, m);
    SwitchShape(ps, st, m);
    var done := st.remaining[m] == 1;
    // after the switch the last bar does not carry the name of `ps[m]`
    assert Merged(sw.gantt) && (sw.gantt != [] ==> sw.gantt[|sw.gantt| - 1].name != ps[m].name) by {
      if st.current != Some(m) && st.current.Some? {
        var c := st.current.value;
        NamesDiffer(ps, c, m);
        forall k | 0 <= k < |sw.gantt| - 1 ensures sw.gantt[k].name != sw.gantt[k + 1].name {
          assert sw.gantt[k] == st.gantt[k];
          if k < |st.gantt| - 1 { assert sw.gantt[k + 1] == st.gantt[k + 1]; }
        }
      }
    }
    if done {
      var s := Segment(ps[m].name, sw.segmentStart, st.time + 1);
      assert st'.gantt == sw.gantt + [s];
      forall k | 0 <= k < |st'.gantt| - 1 ensures st'.gantt[k].name != st'.gantt[k + 1].name {
        assert st'.gantt[k] == sw.gantt[k];
        if k < |sw.gantt| - 1 { assert st'.gantt[k + 1] == sw.gantt[k + 1]; }
      }
      forall j | 0 <= j < |ps| && Available(ps, st'.remaining, st'.time, j) ensures ps[j].name != ps[m].name {
        assert j != m;
      }
    }
  }

  lemma {:induction false} StepKeeps(ps: seq<Process>, st: SRTFState)
    requires Inv(ps, st)
    ensures Inv(ps, Step(ps, st))
  {
    match Shortest(ps, st.remaining, st.time)
    case Some(m) =>
      TickWorked(ps, st, m);
      TickDrawn(ps, st, m);
      if UniqueNames(ps) && NoneNamedIdle(ps) {
        TickMeasured(ps, st, m);
        TickSeparated(ps, st, m);
      }
    case None =>
      match NextPending(ps, st.remaining)
      case None =>
      case Some(j) => IdleKeeps(ps, st, j);
  }

  /** The loop keeps the invariant to its end, where every process is complete. */
  lemma {:induction false} RunKeeps(ps: seq<Process>, st: SRTFState)
    requires Inv(ps, st)
    ensures Inv(ps, Run(ps, st)) && forall i | 0 <= i < |ps| :: Run(ps, st).remaining[i] == 0
    decreases SumRemaining(st.remaining), MaxArrival(ps) - st.time
  {
    if st.completed >= |ps| || Stalled(ps, st) {
      FinishedAll(st.remaining);
    } else {
      StepKeeps(ps, st);
      RunKeeps(ps, Step(ps, st));
    }
  }

  /**
   * For every input with positive bursts: one record per process in input
   * order, none completing before arrival + burst or after totalTime; the
   * chart tiles [0, totalTime); the busy time is the sum of the bursts and
   * the length of the non-Idle bars; and, when names identify processes,
   * each process's bars add up to its burst and no two adjacent bars carry
   * the same name.
   */
  lemma {:induction false} Schedule(ps: seq<Process>)
    requires forall i | 0 <= i < |ps| :: ps[i].burst > 0
    ensures var r := Outcome(ps);
      && Served(r.summary) == ps
      && AllConsistent(r.summary)
      && (forall i | 0 <= i < |ps| :: ps[i].arrival + ps[i].burst <= CompletionOf(r.summary[i]) <= r.totalTime)
      && CoversFromZero(r.gantt) && r.totalTime == EndOf(r.gantt)
      && r.busyTime == SumBursts(ps)
      && (NoneNamedIdle(ps) ==> BusyLength(r.gantt) == r.busyTime)
      && (UniqueNames(ps) && NoneNamedIdle(ps) ==>
            Merged(r.gantt) && forall i | 0 <= i < |ps| :: NamedLength(r.gantt, ps[i].name) == ps[i].burst)
  {
    StartKeeps(ps);
    RunKeeps(ps, Start(ps));
    var st := Run(ps, Start(ps));
    SumRemainingZero(st.remaining);
    assert st.current.None?;
    var summary := Summary(ps, st.completion);
    forall i | 0 <= i < |ps| ensures Consistent(summary[i]) && ps[i].arrival + ps[i].burst <= CompletionOf(summary[i]) <= st.time {
      assert WorkAt(ps, st, i);
    }
    assert Served(summary) == ps;
  }
}
