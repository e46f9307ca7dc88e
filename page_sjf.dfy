/**
 * Shortest-job-first as the Simulator page computes it (`simulateSJF` in
 * src/pages/Simulation.jsx). The page keeps an `arrived` list: each pass of
 * the main loop appends, in input order, every process that has arrived and
 * is neither completed nor listed yet, sorts the list by burst with a stable
 * sort and runs its head to completion. With nothing listed the clock
 * advances by one tick and no bar is drawn. Completed processes are a set
 * of ids, and the loop runs until that set is as large as the input.
 */
module PageSJF {
  import opened Scheduling
  import opened Sorting

  // ---------------------------------------------------------------------
  // The `arrived` list

  /** `p` joins the list at `time`: it has arrived and its id is not in `seen` (completed or listed). */
  predicate Joins(p: Process, time: int, seen: set<int>) {
    p.arrival <= time && p.id !in seen
  }

  /** The processes of `ps` that join the list at `time`, in input order. */
  function NewArrivals(ps: seq<Process>, time: int, seen: set<int>): (r: seq<Process>)
    ensures |r| <= |ps| && forall k | 0 <= k < |r| :: Joins(r[k], time, seen)
  {
    if ps == [] then []
    else
      var x := ps[|ps| - 1];
      NewArrivals(ps[..|ps| - 1], time, seen) + (if Joins(x, time, seen) then [x] else [])
  }

  /** Everything that joins comes from `ps`... */
  lemma {:induction false} NewArrivalsWithin(ps: seq<Process>, time: int, seen: set<int>, x: Process)
    requires x in NewArrivals(ps, time, seen)
    ensures x in ps
  {
    var h := ps[..|ps| - 1];
    if x in NewArrivals(h, time, seen) {
      NewArrivalsWithin(h, time, seen, x);
      var i :| 0 <= i < |h| && h[i] == x;
      assert ps[i] == x;
    }
  }

  /** ...and every process of `ps` that may join does. */
  lemma {:induction false} NewArrivalsComplete(ps: seq<Process>, time: int, seen: set<int>)
    ensures forall j | 0 <= j < |ps| && Joins(ps[j], time, seen) :: ps[j] in NewArrivals(ps, time, seen)
  {
    if ps != [] {
      var h := ps[..|ps| - 1];
      NewArrivalsComplete(h, time, seen);
      forall j | 0 <= j < |h| ensures h[j] == ps[j] {}
    }
  }

  /** The processes of `ps` not in `seen` that have not arrived by `time`. */
  function Later(ps: seq<Process>, time: int, seen: set<int>): seq<Process> {
    if ps == [] then []
    else
      var x := ps[|ps| - 1];
      Later(ps[..|ps| - 1], time, seen) + (if x.arrival > time && x.id !in seen then [x] else [])
  }

  /** The processes of `ps` whose id is not in `seen`: neither completed nor listed. */
  function Unseen(ps: seq<Process>, seen: set<int>): (r: seq<Process>)
    ensures |r| <= |ps| && forall k | 0 <= k < |r| :: r[k].id !in seen
  {
    if ps == [] then []
    else
      var x := ps[|ps| - 1];
      Unseen(ps[..|ps| - 1], seen) + (if x.id !in seen then [x] else [])
  }

  lemma {:induction false} UnseenWithin(ps: seq<Process>, seen: set<int>, x: Process)
    requires x in Unseen(ps, seen)
    ensures x in ps
  {
    var h := ps[..|ps| - 1];
    if x in Unseen(h, seen) {
      UnseenWithin(h, seen, x);
      var i :| 0 <= i < |h| && h[i] == x;
      assert ps[i] == x;
    }
  }

  /**
   * The `processes.forEach` that tops up the list. Its `find` looks at the
   * list as it grows; with distinct ids that is the same as looking at the
   * list it started from.
   */
  method Admit(processes: seq<Process>, currentTime: int, completed: set<int>, arrived: seq<Process>)
    returns (arrived': seq<Process>)
    requires UniqueIds(processes)
    ensures arrived' == arrived + NewArrivals(processes, currentTime, completed + Ids(arrived))
  {
    ghost var seen := completed + Ids(arrived);
    arrived' := arrived;
    for i := 0 to |processes|
      invariant arrived' == arrived + NewArrivals(processes[..i], currentTime, seen)
    {
      var p := processes[i];
      AlreadyListed(processes, i, currentTime, seen, arrived, arrived');
      if p.arrival <= currentTime && p.id !in completed && !(exists k | 0 <= k < |arrived'| :: arrived'[k].id == p.id) {
        arrived' := arrived' + [p];
      }
      assert processes[..i + 1][..i] == processes[..i];
    }
    assert processes[..|processes|] == processes;
  }

  /**
   * Within the visit, `processes[i]` is on the list as it has grown exactly
   * when it was on the list to start with: what the visit added so far
   * came from earlier positions, whose ids differ.
   */
  lemma {:induction false} AlreadyListed(processes: seq<Process>, i: nat, currentTime: int, seen: set<int>,
                                         arrived: seq<Process>, arrived': seq<Process>)
    requires UniqueIds(processes) && i < |processes|
    requires arrived' == arrived + NewArrivals(processes[..i], currentTime, seen)
    ensures (exists k | 0 <= k < |arrived'| :: arrived'[k].id == processes[i].id) <==> processes[i].id in Ids(arrived)
  {
    var p := processes[i];
    forall k | |arrived| <= k < |arrived'| ensures arrived'[k].id != p.id {
      NewArrivalsWithin(processes[..i], currentTime, seen, arrived'[k]);
      var j :| 0 <= j < i && processes[..i][j] == arrived'[k];
    }
    if p.id in Ids(arrived) {
      var k :| 0 <= k < |arrived| && arrived[k].id == p.id;
      assert arrived'[k] == arrived[k];
    }
  }

  // ---------------------------------------------------------------------
  // The main loop as a function of its variables

  /** The variables of `simulateSJF` (the running totals are `SumWaiting`/`SumTurnaround` of the summary). */
  datatype PageState = PageState(time: int, gantt: seq<Segment>, summary: seq<Record>,
                                 completed: set<int>, arrived: seq<Process>, busy: int)

  function Start(): PageState {
    PageState(0, [], [], {}, [], 0)
  }

  /** The state once the list has been topped up. */
  function Admitted(ps: seq<Process>, st: PageState): PageState {
    st.(arrived := st.arrived + NewArrivals(ps, st.time, st.completed + Ids(st.arrived)))
  }

  /** The state once `p` has run to completion from the current time, with `rest` still listed. */
  function Picked(st: PageState, p: Process, rest: seq<Process>): PageState {
    var rec := StartedAt(p, st.time);
    PageState(st.time + p.burst, st.gantt + [RunSegment(rec)], st.summary + [rec],
              st.completed + {p.id}, rest, st.busy + p.burst)
  }

  /** One pass of the `while`: top up the list, then run its shortest job or let one tick pass. */
  function Step(ps: seq<Process>, st: PageState): PageState {
    var listed := Admitted(ps, st).arrived;
    if listed == [] then st.(time := st.time + 1)
    else
      var sorted := Sort(ByBurst, listed);
      Picked(st, sorted[0], sorted[1..])
  }

  /** A pass made progress: one more process completed, or the clock moved towards the last arrival. */
  predicate Progress(ps: seq<Process>, st: PageState, st': PageState) {
    || |st'.completed| > |st.completed|
    || (st'.completed == st.completed && st.time < st'.time <= MaxArrival(ps))
  }

  /** The loop from `st` on, until the completed set is as large as the input. */
  ghost function Run(ps: seq<Process>, st: PageState): PageState
    decreases |ps| - |st.completed|, MaxArrival(ps) - st.time
  {
    if |st.completed| >= |ps| then st
    else
      var st' := Step(ps, st);
      if Progress(ps, st, st') then Run(ps, st') else st
  }

  /** The simulation `simulateSJF` returns. */
  ghost function Outcome(ps: seq<Process>): Simulation {
    var st := Run(ps, Start());
    Simulation(st.gantt, st.summary, st.time, TotalsOf(st.summary), st.busy)
  }

  method SimulateSJF(processes: seq<Process>) returns (r: Simulation)
    requires WellFormed(processes)
    ensures r == Outcome(processes)
  {
    var currentTime := 0;
    var gantt: seq<Segment> := [];
    var summary: seq<Record> := [];
    var totalWaiting := 0;
    var totalTurnaround := 0;
    var busyTime := 0;
    var completed: set<int> := {};
    var arrived: seq<Process> := [];
    StartListed(processes);

    while |completed| < |processes|
      invariant Listed(processes, PageState(currentTime, gantt, summary, completed, arrived, busyTime))
      invariant Run(processes, PageState(currentTime, gantt, summary, completed, arrived, busyTime)) == Run(processes, Start())
      invariant totalWaiting == SumWaiting(summary) && totalTurnaround == SumTurnaround(summary)
      decreases |processes| - |completed|, MaxArrival(processes) - currentTime
    {
      ghost var st0 := PageState(currentTime, gantt, summary, completed, arrived, busyTime);
      currentTime, gantt, summary, completed, arrived, busyTime, totalWaiting, totalTurnaround :=
        Pass(processes, currentTime, gantt, summary, completed, arrived, busyTime, totalWaiting, totalTurnaround);
      Advance(processes, st0, PageState(currentTime, gantt, summary, completed, arrived, busyTime));
    }
    r := Simulation(gantt, summary, currentTime, Totals(totalWaiting, totalTurnaround), busyTime);
  }

  /** One pass of the `while`: top up the list, then idle for one tick or run the shortest listed job. */
  method Pass(processes: seq<Process>, currentTime: int, gantt: seq<Segment>, summary: seq<Record>, completed: set<int>,
              arrived: seq<Process>, busyTime: int, totalWaiting: int, totalTurnaround: int)
    returns (currentTime': int, gantt': seq<Segment>, summary': seq<Record>, completed': set<int>,
             arrived': seq<Process>, busyTime': int, totalWaiting': int, totalTurnaround': int)
    requires UniqueIds(processes)
    requires totalWaiting == SumWaiting(summary) && totalTurnaround == SumTurnaround(summary)
    ensures PageState(currentTime', gantt', summary', completed', arrived', busyTime')
      == Step(processes, PageState(currentTime, gantt, summary, completed, arrived, busyTime))
    ensures totalWaiting' == SumWaiting(summary') && totalTurnaround' == SumTurnaround(summary')
  {
    ghost var st0 := PageState(currentTime, gantt, summary, completed, arrived, busyTime);
    arrived' := Admit(processes, currentTime, completed, arrived);
    if |arrived'| == 0 {
      currentTime', gantt', summary', completed', busyTime', totalWaiting', totalTurnaround' :=
        currentTime + 1, gantt, summary, completed, busyTime, totalWaiting, totalTurnaround;
      return;
    }
    currentTime', gantt', summary', completed', arrived', busyTime', totalWaiting', totalTurnaround' :=
      RunShortest(currentTime, gantt, summary, completed, arrived', busyTime, totalWaiting, totalTurnaround);
  }

  /** The `else` branch of a pass: run the listed process with the shortest burst to completion. */
  method RunShortest(currentTime: int, gantt: seq<Segment>, summary: seq<Record>, completed: set<int>,
                     arrived: seq<Process>, busyTime: int, totalWaiting: int, totalTurnaround: int)
    returns (currentTime': int, gantt': seq<Segment>, summary': seq<Record>, completed': set<int>,
             arrived': seq<Process>, busyTime': int, totalWaiting': int, totalTurnaround': int)
    requires |arrived| > 0
    requires totalWaiting == SumWaiting(summary) && totalTurnaround == SumTurnaround(summary)
    ensures var sorted := Sort(ByBurst, arrived);
      PageState(currentTime', gantt', summary', completed', arrived', busyTime')
        == Picked(PageState(currentTime, gantt, summary, completed, arrived, busyTime), sorted[0], sorted[1..])
    ensures totalWaiting' == SumWaiting(summary') && totalTurnaround' == SumTurnaround(summary')
  {
    arrived' := Sort(ByBurst, arrived);
    var process := arrived'[0];
    arrived' := arrived'[1..];
    var bar, rec := Serve(process, currentTime);
    gantt' := gantt + [bar];
    SumsAppend(summary, rec);
    summary' := summary + [rec];
    totalWaiting' := totalWaiting + rec.waiting;
    totalTurnaround' := totalTurnaround + rec.turnaround;
    busyTime' := busyTime + process.burst;
    currentTime' := currentTime + process.burst;
    completed' := completed + {process.id};
  }

  /** The bar and the record for running `process` to completion from `currentTime`. */
  method Serve(process: Process, currentTime: int) returns (bar: Segment, rec: Record)
    ensures rec == StartedAt(process, currentTime) && bar == RunSegment(rec)
    ensures bar.start == currentTime && bar.end == currentTime + process.burst
  {
    var start := currentTime;
    var end := currentTime + process.burst;
    var waiting := start - process.arrival;
    var turnaround := end - process.arrival;
    bar := Segment(process.name, start, end);
    rec := Record(process.id, process.name, process.arrival, process.burst, waiting, turnaround);
  }

  // ---------------------------------------------------------------------
  // What the loop keeps

  /** Every record k' after record k whose process had arrived when k started has a burst no shorter. */
  ghost predicate ShortestAmongArrived(summary: seq<Record>) {
    forall k, k' | 0 <= k < k' < |summary| && summary[k'].arrival <= StartOf(summary[k]) ::
      summary[k].burst <= summary[k'].burst
  }

  /** Each process is served, listed or unseen, exactly once. */
  ghost predicate Bag(ps: seq<Process>, st: PageState) {
    multiset(Served(st.summary)) + multiset(st.arrived) + multiset(Unseen(ps, st.completed + Ids(st.arrived))) == multiset(ps)
  }

  /** The list holds distinct, arrived, uncompleted processes. */
  predicate ListOk(st: PageState) {
    && UniqueIds(st.arrived)
    && forall k | 0 <= k < |st.arrived| :: st.arrived[k].id !in st.completed && st.arrived[k].arrival <= st.time
  }

  /** The bookkeeping the loop needs to make progress; each record completed one id. */
  ghost predicate Listed(ps: seq<Process>, st: PageState) {
    Bag(ps, st) && |st.completed| == |st.summary| && ListOk(st)
  }

  /**
   * The records start when ready and the chart is in step; the clock stands
   * at the last completion, or has ticked past it while nothing uncompleted
   * had arrived.
   */
  ghost predicate Timed(ps: seq<Process>, st: PageState) {
    var free := FreeAt(st.summary, |st.summary|);
    && AllConsistent(st.summary)
    && StartsWhenReady(st.summary)
    && st.gantt == Bars(st.summary)
    && st.busy == SumBursts(Served(st.summary))
    && st.time >= free
    && (st.time > free ==> st.arrived == [] && |st.completed| < |ps| && Waiting(ps, st))
  }

  /** Nothing uncompleted arrives before the clock. */
  ghost predicate Waiting(ps: seq<Process>, st: PageState) {
    forall j | 0 <= j < |ps| && ps[j].id !in st.completed :: ps[j].arrival >= st.time
  }

  /** The records so far follow the policy, and so will every process not yet completed. */
  ghost predicate Chosen(ps: seq<Process>, st: PageState) {
    && IdlesOnlyWhenEmpty(st.summary)
    && ShortestAmongArrived(st.summary)
    && (forall k, j | 0 <= k < |st.summary| && 0 <= j < |ps| && ps[j].id !in st.completed &&
          StartOf(st.summary[k]) > FreeAt(st.summary, k) :: ps[j].arrival >= StartOf(st.summary[k]))
    && (forall k, j | 0 <= k < |st.summary| && 0 <= j < |ps| && ps[j].id !in st.completed &&
          ps[j].arrival <= StartOf(st.summary[k]) :: st.summary[k].burst <= ps[j].burst)
  }

  ghost predicate Inv(ps: seq<Process>, st: PageState) {
    Listed(ps, st) && Timed(ps, st) && Chosen(ps, st)
  }

  /**
   * What `simulateSJF` promises: every process is served exactly once, each
   * as soon as the CPU is free and it has arrived, the CPU idles only while
   * nothing uncompleted has arrived, and each served process has the
   * shortest burst among those that had arrived; one bar per record.
   */
  lemma {:induction false} Schedule(ps: seq<Process>)
    requires WellFormed(ps)
    ensures var r := Outcome(ps);
      && multiset(Served(r.summary)) == multiset(ps)
      && AllConsistent(r.summary)
      && StartsWhenReady(r.summary)
      && IdlesOnlyWhenEmpty(r.summary)
      && ShortestAmongArrived(r.summary)
      && r.gantt == Bars(r.summary) && InOrder(r.gantt)
      && r.totalTime == EndOf(r.gantt)
      && r.busyTime == SumBursts(ps)
  {
    StartListed(ps);
    assert Served([]) == [];
    RunKeeps(ps, Start());
    FinalState(ps, Run(ps, Start()));
  }

  /** Where the loop ends: what `Schedule` promises, stated of the final state. */
  lemma {:induction false} FinalState(ps: seq<Process>, st: PageState)
    requires WellFormed(ps) && Inv(ps, st) && |st.completed| >= |ps|
    ensures multiset(Served(st.summary)) == multiset(ps)
    ensures AllConsistent(st.summary) && StartsWhenReady(st.summary)
    ensures IdlesOnlyWhenEmpty(st.summary) && ShortestAmongArrived(st.summary)
    ensures st.gantt == Bars(st.summary) && InOrder(st.gantt)
    ensures st.time == EndOf(st.gantt) && st.busy == SumBursts(ps)
  {
    Finish(ps, st);
    forall k | 0 <= k < |st.summary| ensures st.summary[k].burst > 0 {
      var p := Served(st.summary)[k];
      assert p in multiset(ps);
      var j :| 0 <= j < |ps| && ps[j] == p;
    }
    BarsInOrder(st.summary);
    SumBurstsPermutation(Served(st.summary), ps);
  }

  lemma {:induction false} StartListed(ps: seq<Process>)
    ensures Listed(ps, Start())
  {
    var st := Start();
    assert Served(st.summary) == [];
    assert st.completed + Ids(st.arrived) == {};
    UnseenNone(ps);
    assert Unseen(ps, st.completed + Ids(st.arrived)) == ps;
  }

  /** The loop ends with every process served and the clock at the last completion. */
  lemma {:induction false} Finish(ps: seq<Process>, st: PageState)
    requires Listed(ps, st) && Timed(ps, st) && |st.completed| >= |ps|
    ensures multiset(Served(st.summary)) == multiset(ps)
    ensures st.time == EndOf(st.gantt)
  {
    var rest := Unseen(ps, st.completed + Ids(st.arrived));
    assert |multiset(Served(st.summary))| + |multiset(st.arrived)| + |multiset(rest)| == |multiset(ps)|;
    assert st.arrived == [] && rest == [];
  }

  /** The loop keeps its invariant and ends with the completed set as large as the input. */
  lemma {:induction false} RunKeeps(ps: seq<Process>, st: PageState)
    requires WellFormed(ps) && Inv(ps, st)
    ensures Inv(ps, Run(ps, st)) && |Run(ps, st).completed| >= |ps|
    decreases |ps| - |st.completed|, MaxArrival(ps) - st.time
  {
    if |st.completed| < |ps| {
      ListedProgress(ps, st);
      StepKeeps(ps, st);
      RunKeeps(ps, Step(ps, st));
    }
  }

  /** One pass of the method's loop leaves the run to come unchanged. */
  lemma {:induction false} Advance(ps: seq<Process>, st: PageState, st': PageState)
    requires WellFormed(ps) && Listed(ps, st) && |st.completed| < |ps| && st' == Step(ps, st)
    ensures Listed(ps, st') && Progress(ps, st, st') && Run(ps, st) == Run(ps, st')
  {
    ListedProgress(ps, st);
  }

  /** Each pass keeps the bookkeeping and makes progress. */
  lemma {:induction false} ListedProgress(ps: seq<Process>, st: PageState)
    requires WellFormed(ps) && Listed(ps, st) && |st.completed| < |ps|
    ensures Listed(ps, Step(ps, st)) && Progress(ps, st, Step(ps, st))
  {
    AdmittedBag(ps, st);
    AdmittedList(ps, st);
    if Admitted(ps, st).arrived == [] {
      IdleListed(ps, st);
    } else {
      PickListed(ps, st);
    }
  }

  lemma {:induction false} IdleListed(ps: seq<Process>, st: PageState)
    requires UniqueIds(ps) && Bag(ps, st) && Bag(ps, Admitted(ps, st)) && |st.completed| == |st.summary| < |ps|
    requires Admitted(ps, st).arrived == []
    ensures Listed(ps, Step(ps, st)) && Progress(ps, st, Step(ps, st))
  {
    AdmittedAll(ps, st);
    IdleProgress(ps, Admitted(ps, st));
  }

  lemma {:induction false} PickListed(ps: seq<Process>, st: PageState)
    requires WellFormed(ps) && Bag(ps, Admitted(ps, st)) && ListOk(Admitted(ps, st)) && |st.completed| == |st.summary|
    requires Admitted(ps, st).arrived != []
    ensures Listed(ps, Step(ps, st)) && Progress(ps, st, Step(ps, st))
  {
    var mid := Admitted(ps, st);
    var sorted := Sort(ByBurst, mid.arrived);
    var p, rest := sorted[0], sorted[1..];
    SortedSplit(mid.arrived);
    SortedHead(mid.arrived);
    PickBag(ps, st, p, rest);
    PickPositive(ps, mid, p);
    PickList(mid, p, rest);
    assert Step(ps, st) == Picked(st, p, rest);
    PickedListed(ps, st, Picked(st, p, rest), p);
  }

  /** A listed process is one of the input's, so its burst is positive. */
  lemma {:induction false} PickPositive(ps: seq<Process>, st: PageState, p: Process)
    requires WellFormed(ps) && Bag(ps, st) && p in st.arrived
    ensures p.burst > 0
  {
    assert p in multiset(st.arrived);
    assert p in multiset(ps);
    var j :| 0 <= j < |ps| && ps[j] == p;
  }

  /** Serving `p` keeps the bookkeeping and completes one more process. */
  lemma {:induction false} PickedListed(ps: seq<Process>, st: PageState, st': PageState, p: Process)
    requires |st.completed| == |st.summary| && p.id !in st.completed
    requires st'.completed == st.completed + {p.id} && st'.summary == st.summary + [StartedAt(p, st.time)]
    requires Bag(ps, st') && ListOk(st')
    ensures Listed(ps, st') && Progress(ps, st, st')
  {
  }

  /** The policy facts survive each pass. */
  lemma {:induction false} StepKeeps(ps: seq<Process>, st: PageState)
    requires WellFormed(ps) && Inv(ps, st) && |st.completed| < |ps|
    ensures Timed(ps, Step(ps, st)) && Chosen(ps, Step(ps, st))
  {
    if Admitted(ps, st).arrived == [] {
      IdleStepKeeps(ps, st);
    } else {
      PickStepKeeps(ps, st);
    }
  }

  /** A pass that finds nothing arrived only moves the clock. */
  lemma {:induction false} IdleStepKeeps(ps: seq<Process>, st: PageState)
    requires WellFormed(ps) && Inv(ps, st) && |st.completed| < |ps|
    requires Admitted(ps, st).arrived == []
    ensures Timed(ps, Step(ps, st)) && Chosen(ps, Step(ps, st))
  {
    AdmittedBag(ps, st);
    AdmittedList(ps, st);
    AdmittedAll(ps, st);
    if st.time > FreeAt(st.summary, |st.summary|) {
      AdmittedAtTime(ps, st);
    }
    IdleTimed(ps, st);
  }

  /** A pass that serves the shortest arrived process keeps the invariant. */
  lemma {:induction false} PickStepKeeps(ps: seq<Process>, st: PageState)
    requires WellFormed(ps) && Inv(ps, st) && |st.completed| < |ps|
    requires Admitted(ps, st).arrived != []
    ensures Timed(ps, Step(ps, st)) && Chosen(ps, Step(ps, st))
  {
    var mid := Admitted(ps, st);
    AdmittedBag(ps, st);
    AdmittedList(ps, st);
    AdmittedAll(ps, st);
    if st.time > FreeAt(st.summary, |st.summary|) {
      AdmittedAtTime(ps, st);
    }
    var sorted := Sort(ByBurst, mid.arrived);
    var p, rest := sorted[0], sorted[1..];
    SortedHead(mid.arrived);
    assert p in multiset(mid.arrived);
    assert p in multiset(ps);
    var j :| 0 <= j < |ps| && ps[j] == p;
    PickTimed(ps, st, p, rest, j);
    PickChosen(ps, st, mid.arrived, p, rest, j);
  }

  /** Topping up the list keeps every process served, listed or unseen exactly once. */
  lemma {:induction false} AdmittedBag(ps: seq<Process>, st: PageState)
    requires UniqueIds(ps) && Bag(ps, st)
    ensures Bag(ps, Admitted(ps, st))
  {
    var seen := st.completed + Ids(st.arrived);
    var joining := NewArrivals(ps, st.time, seen);
    var listed := st.arrived + joining;
    UnseenSplit(ps, st.time, seen);
    UnseenAfter(ps, st.time, seen);
    IdsAppend(st.arrived, joining);
    assert st.completed + Ids(listed) == seen + Ids(joining);
    assert multiset(listed) == multiset(st.arrived) + multiset(joining);
  }

  /** Topping up the list keeps it distinct, arrived and uncompleted. */
  lemma {:induction false} AdmittedList(ps: seq<Process>, st: PageState)
    requires UniqueIds(ps) && ListOk(st)
    ensures ListOk(Admitted(ps, st))
  {
    var seen := st.completed + Ids(st.arrived);
    var joining := NewArrivals(ps, st.time, seen);
    var listed := st.arrived + joining;
    NewArrivalsUnique(ps, st.time, seen);
    forall i, j | 0 <= i < j < |listed| ensures listed[i].id != listed[j].id {
      if j >= |st.arrived| {
        assert listed[j] == joining[j - |st.arrived|];
        if i < |st.arrived| {
          assert listed[i].id in Ids(st.arrived);
        } else {
          assert listed[i] == joining[i - |st.arrived|];
        }
      }
    }
    forall k | 0 <= k < |listed| ensures listed[k].id !in st.completed && listed[k].arrival <= st.time {
      if k >= |st.arrived| {
        assert listed[k] == joining[k - |st.arrived|];
      }
    }
  }

  /** After topping up, every uncompleted process that has arrived is listed. */
  lemma {:induction false} AdmittedAll(ps: seq<Process>, st: PageState)
    requires UniqueIds(ps) && Bag(ps, st)
    ensures forall j | 0 <= j < |ps| && ps[j].id !in st.completed && ps[j].arrival <= st.time :: ps[j] in Admitted(ps, st).arrived
  {
    var listed := Admitted(ps, st).arrived;
    NewArrivalsComplete(ps, st.time, st.completed + Ids(st.arrived));
    forall j | 0 <= j < |ps| && ps[j].id !in st.completed && ps[j].arrival <= st.time ensures ps[j] in listed {
      if ps[j].id in Ids(st.arrived) {
        var k :| 0 <= k < |st.arrived| && st.arrived[k].id == ps[j].id;
        assert st.arrived[k] in multiset(st.arrived);
        assert st.arrived[k] in multiset(ps);
        var j' :| 0 <= j' < |ps| && ps[j'] == st.arrived[k];
        assert listed[k] == ps[j];
      }
    }
  }

  /** After idle ticks, whatever is listed arrived just now. */
  lemma {:induction false} AdmittedAtTime(ps: seq<Process>, st: PageState)
    requires Bag(ps, Admitted(ps, st)) && ListOk(Admitted(ps, st)) && Waiting(ps, st)
    ensures forall x | x in Admitted(ps, st).arrived :: x.arrival == st.time
  {
    var listed := Admitted(ps, st).arrived;
    forall x | x in listed ensures x.arrival == st.time {
      var k :| 0 <= k < |listed| && listed[k] == x;
      assert x in multiset(listed);
      assert x in multiset(ps);
      var j :| 0 <= j < |ps| && ps[j] == x;
    }
  }

  /** With nothing listed, some uncompleted process is still to arrive. */
  lemma {:induction false} IdleProgress(ps: seq<Process>, st: PageState)
    requires Bag(ps, st) && |st.completed| == |st.summary| < |ps| && st.arrived == []
    requires forall j | 0 <= j < |ps| && ps[j].id !in st.completed && ps[j].arrival <= st.time :: ps[j] in st.arrived
    ensures st.time + 1 <= MaxArrival(ps)
  {
    var rest := Unseen(ps, st.completed + Ids(st.arrived));
    assert |multiset(Served(st.summary))| + |multiset(st.arrived)| + |multiset(rest)| == |multiset(ps)|;
    UnseenWithin(ps, st.completed + Ids(st.arrived), rest[0]);
    var j :| 0 <= j < |ps| && ps[j] == rest[0];
    assert ps[j].arrival <= MaxArrival(ps);
  }

  /** With nothing listed, the clock ticks past a moment when nothing uncompleted had arrived. */
  lemma {:induction false} IdleTimed(ps: seq<Process>, st: PageState)
    requires Timed(ps, st) && |st.completed| < |ps| && st.arrived == []
    requires forall j | 0 <= j < |ps| && ps[j].id !in st.completed && ps[j].arrival <= st.time :: ps[j] in st.arrived
    ensures Timed(ps, st.(time := st.time + 1))
  {
    assert Waiting(ps, st.(time := st.time + 1));
  }

  /** The list sorted by burst is its head and the rest, with distinct ids. */
  lemma {:induction false} SortedSplit(listed: seq<Process>)
    requires UniqueIds(listed) && listed != []
    ensures var s := Sort(ByBurst, listed);
      && multiset(listed) == multiset{s[0]} + multiset(s[1..])
      && UniqueIds(s[1..]) && s[0].id !in Ids(s[1..])
      && Ids(listed) == Ids(s[1..]) + {s[0].id}
  {
    var s := Sort(ByBurst, listed);
    SortUniqueIds(ByBurst, listed);
    IdsPermutation(s, listed);
    HeadSplit(s);
  }

  /** A list of distinct ids is its head followed by the distinct rest. */
  lemma {:induction false} HeadSplit(s: seq<Process>)
    requires UniqueIds(s) && s != []
    ensures multiset(s) == multiset{s[0]} + multiset(s[1..])
    ensures UniqueIds(s[1..]) && s[0].id !in Ids(s[1..])
    ensures Ids(s) == Ids(s[1..]) + {s[0].id}
  {
    assert s == [s[0]] + s[1..];
    IdsAppend([s[0]], s[1..]);
    IdsOne(s[0]);
    forall k | 0 <= k < |s[1..]| ensures s[1..][k].id != s[0].id {
      assert s[1..][k] == s[k + 1];
    }
  }

  /** The head of the list sorted by burst has the shortest burst listed. */
  lemma {:induction false} SortedHead(listed: seq<Process>)
    requires listed != []
    ensures var s := Sort(ByBurst, listed); s[0] in listed && forall x | x in listed :: s[0].burst <= x.burst
  {
    var s := Sort(ByBurst, listed);
    assert s[0] in multiset(listed);
    forall x | x in listed ensures s[0].burst <= x.burst {
      assert x in multiset(s);
      var m :| 0 <= m < |s| && s[m] == x;
      if m > 0 { assert Le(ByBurst, s[0], s[m]); }
    }
  }

  lemma {:induction false} PickBag(ps: seq<Process>, st: PageState, p: Process, rest: seq<Process>)
    requires Bag(ps, Admitted(ps, st))
    requires multiset(Admitted(ps, st).arrived) == multiset{p} + multiset(rest)
    requires Ids(Admitted(ps, st).arrived) == Ids(rest) + {p.id}
    ensures Bag(ps, Picked(st, p, rest))
  {
    ServedAppend(st.summary, StartedAt(p, st.time));
    assert st.completed + {p.id} + Ids(rest) == st.completed + Ids(Admitted(ps, st).arrived);
  }

  lemma {:induction false} PickList(st: PageState, p: Process, rest: seq<Process>)
    requires ListOk(st) && p.burst > 0
    requires multiset(st.arrived) == multiset{p} + multiset(rest)
    requires UniqueIds(rest) && p.id !in Ids(rest)
    ensures ListOk(Picked(st, p, rest)) && p.id !in st.completed
  {
    assert p in multiset(st.arrived);
    var i :| 0 <= i < |st.arrived| && st.arrived[i] == p;
    forall k | 0 <= k < |rest| ensures rest[k].id !in st.completed + {p.id} && rest[k].arrival <= st.time + p.burst {
      assert rest[k] in multiset(rest);
      assert rest[k] in multiset(st.arrived);
      var i :| 0 <= i < |st.arrived| && st.arrived[i] == rest[k];
      assert rest[k].id in Ids(rest);
    }
  }

  lemma {:induction false} PickTimed(ps: seq<Process>, st: PageState, p: Process, rest: seq<Process>, j: nat)
    requires Timed(ps, st) && j < |ps| && ps[j] == p && p.arrival <= st.time
    requires st.time > FreeAt(st.summary, |st.summary|) ==> p.arrival == st.time
    ensures Timed(ps, Picked(st, p, rest))
  {
    var rec := StartedAt(p, st.time);
    var st' := Picked(st, p, rest);
    StartsWhenReadyAppend(st.summary, rec);
    BarsAppend(st.summary, rec);
    ServedAppend(st.summary, rec);
    assert ProcessOf(rec) == p;
    assert (Served(st.summary) + [p])[..|st.summary|] == Served(st.summary);
    assert AllConsistent(st'.summary) by {
      forall k | 0 <= k < |st'.summary| ensures Consistent(st'.summary[k]) {
        if k < |st.summary| { assert st'.summary[k] == st.summary[k]; }
      }
    }
  }

  lemma {:induction false} PickChosen(ps: seq<Process>, st: PageState, listed: seq<Process>, p: Process, rest: seq<Process>, j: nat)
    requires Chosen(ps, st) && j < |ps| && ps[j] == p && p.id !in st.completed && p.arrival <= st.time
    requires forall i | 0 <= i < |ps| && ps[i].id !in st.completed && ps[i].arrival <= st.time :: ps[i] in listed
    requires forall x | x in listed :: p.burst <= x.burst
    requires st.time > FreeAt(st.summary, |st.summary|) ==> p.arrival == st.time && Waiting(ps, st)
    ensures Chosen(ps, Picked(st, p, rest))
  {
    var rec := StartedAt(p, st.time);
    var n := |st.summary|;
    var s' := Picked(st, p, rest).summary;
    assert forall k | 0 <= k < n :: s'[k] == st.summary[k];
    assert forall k | 0 <= k <= n :: FreeAt(s', k) == FreeAt(st.summary, k);
    assert s'[n] == rec && StartOf(rec) == st.time;
    assert IdlesOnlyWhenEmpty(s') by {
      forall k, k' | 0 <= k <= k' < |s'| && StartOf(s'[k]) > FreeAt(s', k) ensures s'[k'].arrival >= StartOf(s'[k]) {
        if k' < n {
          assert s'[k'] == st.summary[k'];
        }
      }
    }
    assert ShortestAmongArrived(s') by {
      forall k, k' | 0 <= k < k' < |s'| && s'[k'].arrival <= StartOf(s'[k]) ensures s'[k].burst <= s'[k'].burst {
        if k' < n {
          assert s'[k'] == st.summary[k'];
        }
      }
    }
  }

  // ---------------------------------------------------------------------
  // Lemmas about the list's bookkeeping

  lemma {:induction false} IdsAppend(a: seq<Process>, b: seq<Process>)
    ensures Ids(a + b) == Ids(a) + Ids(b)
  {
    forall x | x in Ids(a + b) ensures x in Ids(a) + Ids(b) {
      var i :| 0 <= i < |a + b| && (a + b)[i].id == x;
      if i >= |a| { assert b[i - |a|].id == x; }
    }
    forall x | x in Ids(a) + Ids(b) ensures x in Ids(a + b) {
      if x in Ids(a) {
        var i :| 0 <= i < |a| && a[i].id == x;
        assert (a + b)[i].id == x;
      } else {
        var i :| 0 <= i < |b| && b[i].id == x;
        assert (a + b)[|a| + i].id == x;
      }
    }
  }

  lemma {:induction false} IdsOne(p: Process)
    ensures Ids([p]) == {p.id}
  {
    assert [p][0] == p;
  }

  lemma {:induction false} UnseenNone(ps: seq<Process>)
    ensures Unseen(ps, {}) == ps
  {
    if ps != [] {
      UnseenNone(ps[..|ps| - 1]);
    }
  }

  /** The unseen processes are the ones that join now and the ones still to arrive. */
  lemma {:induction false} UnseenSplit(ps: seq<Process>, time: int, seen: set<int>)
    ensures multiset(Unseen(ps, seen)) == multiset(NewArrivals(ps, time, seen)) + multiset(Later(ps, time, seen))
  {
    if ps != [] {
      UnseenSplit(ps[..|ps| - 1], time, seen);
    }
  }

  lemma {:induction false} UnseenSame(ps: seq<Process>, seen: set<int>, id: int)
    requires forall j | 0 <= j < |ps| :: ps[j].id != id
    ensures Unseen(ps, seen + {id}) == Unseen(ps, seen)
  {
    if ps != [] {
      UnseenSame(ps[..|ps| - 1], seen, id);
    }
  }

  /** Once the new arrivals are listed, what stays unseen is what has not arrived. */
  lemma {:induction false} UnseenAfter(ps: seq<Process>, time: int, seen: set<int>)
    requires UniqueIds(ps)
    ensures Unseen(ps, seen + Ids(NewArrivals(ps, time, seen))) == Later(ps, time, seen)
  {
    if ps != [] {
      var h, x := ps[..|ps| - 1], ps[|ps| - 1];
      var joining := NewArrivals(h, time, seen);
      assert UniqueIds(h);
      UnseenAfter(h, time, seen);
      forall j | 0 <= j < |h| ensures h[j].id != x.id {
        assert h[j] == ps[j];
      }
      assert x.id !in Ids(joining) by {
        forall y | y in joining ensures y.id != x.id {
          NewArrivalsWithin(h, time, seen, y);
          var j :| 0 <= j < |h| && h[j] == y;
        }
      }
      var extra := if Joins(x, time, seen) then [x] else [];
      IdsAppend(joining, extra);
      if Joins(x, time, seen) {
        IdsOne(x);
        UnseenSame(h, seen + Ids(joining), x.id);
        assert seen + Ids(joining + extra) == (seen + Ids(joining)) + {x.id};
      } else {
        var none: seq<Process> := [];
        assert Ids(none) == {};
        assert seen + Ids(joining + extra) == seen + Ids(joining);
      }
    }
  }

  lemma {:induction false} NewArrivalsUnique(ps: seq<Process>, time: int, seen: set<int>)
    requires UniqueIds(ps)
    ensures UniqueIds(NewArrivals(ps, time, seen))
  {
    if ps != [] {
      var h, x := ps[..|ps| - 1], ps[|ps| - 1];
      var joining := NewArrivals(h, time, seen);
      assert UniqueIds(h);
      NewArrivalsUnique(h, time, seen);
      forall y | y in joining ensures y.id != x.id {
        NewArrivalsWithin(h, time, seen, y);
        var j :| 0 <= j < |h| && h[j] == y;
        assert ps[j] == y;
      }
      if Joins(x, time, seen) {
        var r := joining + [x];
        forall i, k | 0 <= i < k < |r| ensures r[i].id != r[k].id {
          if k == |joining| { assert r[i] in joining; }
        }
      }
    }
  }
}
