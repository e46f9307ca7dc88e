/**
 * Round Robin as the Simulator page computes it (`simulateRR` in
 * src/pages/Simulation.jsx). The queue holds the processes themselves, here
 * their positions. The head of the queue runs for `min(quantum, remaining)`
 * ticks behind one bar. Then the processes that arrived during that slice
 * join the tail, followed by the head again if it has work left. When the
 * queue is empty the clock moves one tick and the processes arriving at that
 * tick join; nothing is drawn for such a tick.
 */
module PageRR {
  import opened Scheduling
  import opened Work

  /**
   * The variables of the main loop: `remaining[i]` is `remainingTime` of the
   * i-th process (ids are unique, so an id stands for a position), `queue`
   * holds positions and `completed` is the size of the `completed` set. The
   * running totals are the sums over the summary.
   */
  datatype PageState = PageState(remaining: seq<nat>, gantt: seq<Segment>, summary: seq<Record>, queue: seq<nat>,
                                 time: int, completed: nat, busy: int)

  predicate Shaped(ps: seq<Process>, st: PageState) {
    |st.remaining| == |ps| && forall k | 0 <= k < |st.queue| :: st.queue[k] < |ps|
  }

  /**
   * What the `filter` in front of each push of arrivals asks of `ps[j]`: it
   * arrived in `(lo, hi]`, is not completed (has work left), is not queued
   * and is not the process that just ran.
   */
  predicate Joins(ps: seq<Process>, rem: seq<nat>, lo: int, hi: int, queue: seq<nat>, cur: Option<nat>, j: nat)
    requires j < |ps| == |rem|
  {
    lo < ps[j].arrival <= hi && rem[j] > 0 && j !in queue && cur != Some(j)
  }

  /** The positions that filter picks, in input order (`JoiningArrived` says what they are). */
  function Joining(ps: seq<Process>, rem: seq<nat>, lo: int, hi: int, queue: seq<nat>, cur: Option<nat>): (r: seq<nat>)
    requires |ps| == |rem|
    ensures forall k | 0 <= k < |r| :: r[k] < |ps|
  {
    JoiningIn(ps, rem, lo, hi, queue, cur, |ps|)
  }

  /** The same among the first `n` processes. */
  function JoiningIn(ps: seq<Process>, rem: seq<nat>, lo: int, hi: int, queue: seq<nat>, cur: Option<nat>, n: nat): (r: seq<nat>)
    requires n <= |ps| == |rem|
    ensures forall k | 0 <= k < |r| :: r[k] < n
  {
    if n == 0 then []
    else JoiningIn(ps, rem, lo, hi, queue, cur, n - 1) + (if Joins(ps, rem, lo, hi, queue, cur, n - 1) then [n - 1] else [])
  }

  // ---------------------------------------------------------------------
  // The main loop as a function of its variables

  /** Before the loop: every process arriving at 0 is queued, in input order. */
  function Start(ps: seq<Process>): (st: PageState)
    requires forall i | 0 <= i < |ps| :: ps[i].burst > 0
    ensures Shaped(ps, st)
  {
    PageState(Bursts(ps), [], [], Joining(ps, Bursts(ps), -1, 0, [], None), 0, 0, 0)
  }

  /** An empty queue: one tick passes and the processes arriving at the new tick join. */
  function Idle(ps: seq<Process>, st: PageState): (st': PageState)
    requires Shaped(ps, st)
    ensures Shaped(ps, st')
  {
    st.(time := st.time + 1, queue := st.queue + Joining(ps, st.remaining, st.time, st.time + 1, st.queue, None))
  }

  /**
   * The head of the queue runs for `min(quantum, remaining)` ticks; the
   * arrivals of that slice join, then the head itself if it has work left,
   * and otherwise it completes at the new time.
   */
  function Turn(ps: seq<Process>, quantum: int, st: PageState): (st': PageState)
    requires Shaped(ps, st) && st.queue != []
    ensures Shaped(ps, st')
  {
    var i := st.queue[0];
    var rest := st.queue[1..];
    var exec := Min(quantum, st.remaining[i]);
    var time := st.time + exec;
    var rem := st.remaining[i := st.remaining[i] - exec];
    var gantt := st.gantt + [Segment(ps[i].name, st.time, time)];
    var queue := rest + Joining(ps, rem, st.time, time, rest, Some(i));
    if rem[i] > 0 then PageState(rem, gantt, st.summary, queue + [i], time, st.completed, st.busy + exec)
    else PageState(rem, gantt, st.summary + [RecordAt(ps[i], time)], queue, time, st.completed + 1, st.busy + exec)
  }

  /** One pass of the `while`. */
  function Step(ps: seq<Process>, quantum: int, st: PageState): (st': PageState)
    requires Shaped(ps, st)
    ensures Shaped(ps, st')
  {
    if st.queue == [] then Idle(ps, st) else Turn(ps, quantum, st)
  }

  /** A pass made progress: work was done, or the clock moved towards the last arrival. */
  predicate Progress(ps: seq<Process>, st: PageState, st': PageState) {
    || SumRemaining(st'.remaining) < SumRemaining(st.remaining)
    || (st'.remaining == st.remaining && st.time < st'.time <= MaxArrival(ps))
  }

  /** The loop from `st` on, until `completed.size < processes.length` fails. */
  ghost function Run(ps: seq<Process>, quantum: int, st: PageState): PageState
    requires Shaped(ps, st)
    decreases SumRemaining(st.remaining), MaxArrival(ps) - st.time
  {
    if st.completed >= |ps| then st
    else
      var st' := Step(ps, quantum, st);
      if Progress(ps, st, st') then Run(ps, quantum, st') else st
  }

  /** The simulation `simulateRR` returns. */
  ghost function Outcome(ps: seq<Process>, quantum: int): Simulation
    requires forall i | 0 <= i < |ps| :: ps[i].burst > 0
  {
    var st := Run(ps, quantum, Start(ps));
    Simulation(st.gantt, st.summary, st.time, TotalsOf(st.summary), st.busy)
  }

  method SimulateRR(processes: seq<Process>, quantum: int) returns (r: Simulation)
    requires WellFormed(processes) && quantum > 0
    ensures r == Outcome(processes, quantum)
  {
    var currentTime := 0;
    var gantt: seq<Segment> := [];
    var summary: seq<Record> := [];
    var totalWaiting := 0;
    var totalTurnaround := 0;
    var busyTime := 0;
    var remainingTime := Bursts(processes);
    var queue: seq<nat> := [];
    var completed: nat := 0;
    queue := Arrived(processes);
    assert PageState(remainingTime, gantt, summary, queue, currentTime, completed, busyTime) == Start(processes);
    FinishedAll(remainingTime);
    StartLined(processes);

    while completed < |processes|
      invariant Shaped(processes, PageState(remainingTime, gantt, summary, queue, currentTime, completed, busyTime))
      invariant completed == Finished(remainingTime)
      invariant Lined(processes, PageState(remainingTime, gantt, summary, queue, currentTime, completed, busyTime))
      invariant Run(processes, quantum, PageState(remainingTime, gantt, summary, queue, currentTime, completed, busyTime))
             == Run(processes, quantum, Start(processes))
      invariant totalWaiting == SumWaiting(summary) && totalTurnaround == SumTurnaround(summary)
      decreases SumRemaining(remainingTime), MaxArrival(processes) - currentTime
    {
      ghost var st0 := PageState(remainingTime, gantt, summary, queue, currentTime, completed, busyTime);
      remainingTime, gantt, summary, queue, currentTime, completed, busyTime, totalWaiting, totalTurnaround :=
        Pass(processes, quantum, remainingTime, gantt, summary, queue, currentTime, completed, busyTime, totalWaiting, totalTurnaround);
      Advance(processes, quantum, st0, PageState(remainingTime, gantt, summary, queue, currentTime, completed, busyTime));
    }
    r := Simulation(gantt, summary, currentTime, Totals(totalWaiting, totalTurnaround), busyTime);
  }

  /**
   * The queue before the loop: every process that has arrived at time 0
   * (arrivals are never negative, so these are the arrivals in `(-1, 0]`).
   */
  method Arrived(processes: seq<Process>) returns (queue: seq<nat>)
    requires forall i | 0 <= i < |processes| :: processes[i].burst > 0
    ensures queue == Joining(processes, Bursts(processes), -1, 0, [], None)
  {
    queue := [];
    for i := 0 to |processes|
      invariant queue == JoiningIn(processes, Bursts(processes), -1, 0, [], None, i)
    {
      if processes[i].arrival <= 0 {
        queue := queue + [i];
      }
    }
  }

  /** `processes.filter(...).forEach((p) => queue.push(p))` for the arrivals in `(lo, hi]`. */
  method Enqueue(processes: seq<Process>, remainingTime: seq<nat>, lo: int, hi: int, queue: seq<nat>, cur: Option<nat>)
    returns (queue': seq<nat>)
    requires |processes| == |remainingTime|
    ensures queue' == queue + Joining(processes, remainingTime, lo, hi, queue, cur)
  {
    queue' := queue;
    for i := 0 to |processes|
      invariant queue' == queue + JoiningIn(processes, remainingTime, lo, hi, queue, cur, i)
    {
      var p := processes[i];
      if lo < p.arrival <= hi && remainingTime[i] > 0 && i !in queue && cur != Some(i) {
        queue' := queue' + [i];
      }
    }
  }

  /** The body of the `while`. */
  method Pass(processes: seq<Process>, quantum: int, remainingTime: seq<nat>, gantt: seq<Segment>, summary: seq<Record>,
              queue: seq<nat>, currentTime: int, completed: nat, busyTime: int, totalWaiting: int, totalTurnaround: int)
    returns (remainingTime': seq<nat>, gantt': seq<Segment>, summary': seq<Record>,
             queue': seq<nat>, currentTime': int, completed': nat, busyTime': int, totalWaiting': int, totalTurnaround': int)
    requires Shaped(processes, PageState(remainingTime, gantt, summary, queue, currentTime, completed, busyTime))
    requires totalWaiting == SumWaiting(summary) && totalTurnaround == SumTurnaround(summary)
    ensures PageState(remainingTime', gantt', summary', queue', currentTime', completed', busyTime')
         == Step(processes, quantum, PageState(remainingTime, gantt, summary, queue, currentTime, completed, busyTime))
    ensures totalWaiting' == SumWaiting(summary') && totalTurnaround' == SumTurnaround(summary')
  {
    if |queue| == 0 {
      remainingTime', gantt', summary', completed', busyTime', totalWaiting', totalTurnaround' :=
        remainingTime, gantt, summary, completed, busyTime, totalWaiting, totalTurnaround;
      currentTime' := currentTime + 1;
      queue' := Enqueue(processes, remainingTime, currentTime, currentTime', queue, None);
      return;
    }
    remainingTime', gantt', summary', queue', currentTime', completed', busyTime', totalWaiting', totalTurnaround' :=
      TakeTurn(processes, quantum, remainingTime, gantt, summary, queue, currentTime, completed, busyTime, totalWaiting, totalTurnaround);
  }

  /** `queue.shift()` and one slice of the process it returns. */
  method TakeTurn(processes: seq<Process>, quantum: int, remainingTime: seq<nat>, gantt: seq<Segment>, summary: seq<Record>,
                  queue: seq<nat>, currentTime: int, completed: nat, busyTime: int, totalWaiting: int, totalTurnaround: int)
    returns (remainingTime': seq<nat>, gantt': seq<Segment>, summary': seq<Record>,
             queue': seq<nat>, currentTime': int, completed': nat, busyTime': int, totalWaiting': int, totalTurnaround': int)
    requires Shaped(processes, PageState(remainingTime, gantt, summary, queue, currentTime, completed, busyTime))
    requires queue != []
    requires totalWaiting == SumWaiting(summary) && totalTurnaround == SumTurnaround(summary)
    ensures PageState(remainingTime', gantt', summary', queue', currentTime', completed', busyTime')
         == Turn(processes, quantum, PageState(remainingTime, gantt, summary, queue, currentTime, completed, busyTime))
    ensures totalWaiting' == SumWaiting(summary') && totalTurnaround' == SumTurnaround(summary')
  {
    var process := queue[0];
    queue' := queue[1..];
    var executionTime := Min(quantum, remainingTime[process]);
    gantt' := gantt + [Segment(processes[process].name, currentTime, currentTime + executionTime)];
    remainingTime' := remainingTime[process := remainingTime[process] - executionTime];
    busyTime' := busyTime + executionTime;
    currentTime' := currentTime + executionTime;
    queue' := Enqueue(processes, remainingTime', currentTime, currentTime', queue', Some(process));
    summary', completed', totalWaiting', totalTurnaround' := summary, completed, totalWaiting, totalTurnaround;
    if remainingTime'[process] > 0 {
      queue' := queue' + [process];
    } else {
      completed' := completed + 1;
      var p := processes[process];
      var turnaround := currentTime' - p.arrival;
      var waiting := turnaround - p.burst;
      var rec := Record(p.id, p.name, p.arrival, p.burst, waiting, turnaround);
      assert rec == RecordAt(p, currentTime');
      SumsAppend(summary, rec);
      summary' := summary + [rec];
      totalWaiting' := totalWaiting + waiting;
      totalTurnaround' := totalTurnaround + turnaround;
    }
  }

  // ---------------------------------------------------------------------
  // The queue

  /**
   * The queue holds each arrived process with work left exactly once, and
   * nothing else.
   */
  predicate Lined(ps: seq<Process>, st: PageState)
    requires Shaped(ps, st)
  {
    LinedAt(ps, st.remaining, st.time, st.queue)
  }

  predicate LinedAt(ps: seq<Process>, rem: seq<nat>, time: int, q: seq<nat>)
    requires |rem| == |ps|
  {
    && Distinct(q)
    && (forall j: nat | j in q :: j < |ps| && ps[j].arrival <= time && rem[j] > 0)
    && (forall j: nat | j < |ps| && ps[j].arrival <= time && rem[j] > 0 :: j in q)
  }

  lemma {:induction false} JoiningComplete(ps: seq<Process>, rem: seq<nat>, lo: int, hi: int, queue: seq<nat>,
                                           cur: Option<nat>, n: nat, j: nat)
    requires n <= |ps| == |rem| && j < n && Joins(ps, rem, lo, hi, queue, cur, j)
    ensures j in JoiningIn(ps, rem, lo, hi, queue, cur, n)
  {
    var before := JoiningIn(ps, rem, lo, hi, queue, cur, n - 1);
    var last := if Joins(ps, rem, lo, hi, queue, cur, n - 1) then [n - 1] else [];
    assert JoiningIn(ps, rem, lo, hi, queue, cur, n) == before + last;
    if j < n - 1 {
      JoiningComplete(ps, rem, lo, hi, queue, cur, n - 1, j);
      assert j in before;
    } else {
      assert j in last;
    }
  }

  lemma {:induction false} DistinctAppend(a: seq<nat>, b: seq<nat>)
    requires Distinct(a) && Distinct(b) && forall k | 0 <= k < |b| :: b[k] !in a
    ensures Distinct(a + b)
  {
    var c := a + b;
    forall s, t | 0 <= s < t < |c| ensures c[s] != c[t] {
      if s < |a| && t >= |a| {
        assert c[t] == b[t - |a|] && c[s] == a[s];
      }
    }
  }

  /** Every process the filter picks has arrived by `hi` and has work left, and none is picked twice. */
  lemma {:induction false} JoiningArrived(ps: seq<Process>, rem: seq<nat>, lo: int, hi: int, queue: seq<nat>, cur: Option<nat>)
    requires |ps| == |rem|
    ensures var joined := Joining(ps, rem, lo, hi, queue, cur);
      && Distinct(joined)
      && forall j: nat | j in joined :: j < |ps| && lo < ps[j].arrival <= hi && rem[j] > 0 && j !in queue && cur != Some(j)
  {
    JoiningInArrived(ps, rem, lo, hi, queue, cur, |ps|);
  }

  lemma {:induction false} JoiningInArrived(ps: seq<Process>, rem: seq<nat>, lo: int, hi: int, queue: seq<nat>,
                                            cur: Option<nat>, n: nat)
    requires n <= |ps| == |rem|
    ensures var joined := JoiningIn(ps, rem, lo, hi, queue, cur, n);
      && Distinct(joined)
      && forall j: nat | j in joined :: j < n && Joins(ps, rem, lo, hi, queue, cur, j)
  {
    if n > 0 {
      JoiningInArrived(ps, rem, lo, hi, queue, cur, n - 1);
      var before := JoiningIn(ps, rem, lo, hi, queue, cur, n - 1);
      if Joins(ps, rem, lo, hi, queue, cur, n - 1) {
        assert JoiningIn(ps, rem, lo, hi, queue, cur, n) == before + [n - 1];
        DistinctAppend(before, [n - 1]);
      } else {
        assert JoiningIn(ps, rem, lo, hi, queue, cur, n) == before;
      }
    }
  }

  /** Every arrival in `(lo, hi]` with work left, not queued and not `cur`, is picked. */
  lemma {:induction false} JoiningAll(ps: seq<Process>, rem: seq<nat>, lo: int, hi: int, queue: seq<nat>, cur: Option<nat>)
    requires |ps| == |rem|
    ensures forall j: nat | j < |ps| && Joins(ps, rem, lo, hi, queue, cur, j) :: j in Joining(ps, rem, lo, hi, queue, cur)
  {
    forall j: nat | j < |ps| && Joins(ps, rem, lo, hi, queue, cur, j) ensures j in Joining(ps, rem, lo, hi, queue, cur) {
      JoiningComplete(ps, rem, lo, hi, queue, cur, |ps|, j);
    }
  }

  lemma {:induction false} StartLined(ps: seq<Process>)
    requires forall i | 0 <= i < |ps| :: ps[i].burst > 0
    ensures Lined(ps, Start(ps))
  {
    var st := Start(ps);
    JoiningArrived(ps, st.remaining, -1, 0, [], None);
    JoiningAll(ps, st.remaining, -1, 0, [], None);
  }

  lemma {:induction false} IdleLined(ps: seq<Process>, st: PageState)
    requires Shaped(ps, st) && Lined(ps, st) && st.queue == []
    ensures Lined(ps, Idle(ps, st))
  {
    var st' := Idle(ps, st);
    assert st'.queue == Joining(ps, st.remaining, st.time, st.time + 1, [], None);
    JoiningArrived(ps, st.remaining, st.time, st.time + 1, [], None);
    JoiningAll(ps, st.remaining, st.time, st.time + 1, [], None);
  }

  /** The queue before the loop holds exactly the processes that arrive at time 0. */
  lemma {:induction false} StartQueue(ps: seq<Process>)
    requires forall i | 0 <= i < |ps| :: ps[i].burst > 0
    ensures forall j: nat | j < |ps| :: j in Start(ps).queue <==> ps[j].arrival == 0
  {
    JoiningArrived(ps, Bursts(ps), -1, 0, [], None);
    JoiningAll(ps, Bursts(ps), -1, 0, [], None);
  }

  /**
   * With the queue empty, a pass queues exactly the processes that arrive at
   * the new tick and still have work.
   */
  lemma {:induction false} IdleQueue(ps: seq<Process>, st: PageState)
    requires Shaped(ps, st) && st.queue == []
    ensures forall j: nat | j < |ps| :: j in Idle(ps, st).queue <==> ps[j].arrival == st.time + 1 && st.remaining[j] > 0
  {
    assert Idle(ps, st).queue == Joining(ps, st.remaining, st.time, st.time + 1, [], None);
    JoiningArrived(ps, st.remaining, st.time, st.time + 1, [], None);
    JoiningAll(ps, st.remaining, st.time, st.time + 1, [], None);
    forall j: nat | j < |ps| && ps[j].arrival == st.time + 1 && st.remaining[j] > 0
      ensures j in Idle(ps, st).queue
    {
      assert Joins(ps, st.remaining, st.time, st.time + 1, [], None, j);
    }
  }

  /** After `shift`, the rest of the queue is distinct, without the head, and arrived with work left. */
  lemma {:induction false} ShiftLined(ps: seq<Process>, rem: seq<nat>, time: int, q: seq<nat>)
    requires |rem| == |ps| && LinedAt(ps, rem, time, q) && q != []
    ensures Distinct(q[1..]) && q[0] !in q[1..]
    ensures forall j: nat | j in q[1..] :: j < |ps| && ps[j].arrival <= time && rem[j] > 0
    ensures forall j: nat | j < |ps| && ps[j].arrival <= time && rem[j] > 0 && j != q[0] :: j in q[1..]
  {
    var rest := q[1..];
    forall k | 0 <= k < |rest| ensures rest[k] != q[0] {
      assert rest[k] == q[k + 1];
    }
    forall j: nat | j < |ps| && ps[j].arrival <= time && rem[j] > 0 && j != q[0] ensures j in rest {
      var k :| 0 <= k < |q| && q[k] == j;
      assert rest[k - 1] == j;
    }
  }

  /** The rest of the queue followed by the arrivals of the slice. */
  lemma {:induction false} RejoinLined(ps: seq<Process>, rem: seq<nat>, time: int, rest: seq<nat>, i: nat, v: nat, time': int)
    requires |rem| == |ps| && i < |ps| && time <= time' && v <= rem[i]
    requires Distinct(rest) && i !in rest
    requires forall j: nat | j in rest :: j < |ps| && ps[j].arrival <= time && rem[j] > 0
    requires forall j: nat | j < |ps| && ps[j].arrival <= time && rem[j] > 0 && j != i :: j in rest
    ensures var rem' := rem[i := v];
      var queue := rest + Joining(ps, rem', time, time', rest, Some(i));
      && Distinct(queue) && i !in queue
      && (forall j: nat | j in queue :: j < |ps| && ps[j].arrival <= time' && rem'[j] > 0)
      && (forall j: nat | j < |ps| && ps[j].arrival <= time' && rem'[j] > 0 && j != i :: j in queue)
  {
    var rem' := rem[i := v];
    var joined := Joining(ps, rem', time, time', rest, Some(i));
    JoiningArrived(ps, rem', time, time', rest, Some(i));
    JoiningAll(ps, rem', time, time', rest, Some(i));
    forall k | 0 <= k < |joined| ensures joined[k] !in rest {
      assert joined[k] in joined;
    }
    DistinctAppend(rest, joined);
  }

  lemma {:induction false} TurnLined(ps: seq<Process>, quantum: int, st: PageState)
    requires Shaped(ps, st) && Lined(ps, st) && st.queue != [] && quantum > 0
    ensures Lined(ps, Turn(ps, quantum, st))
  {
    var i := st.queue[0];
    var rest := st.queue[1..];
    var exec := Min(quantum, st.remaining[i]);
    var time := st.time + exec;
    var rem := st.remaining[i := st.remaining[i] - exec];
    var queue := rest + Joining(ps, rem, st.time, time, rest, Some(i));
    ShiftLined(ps, st.remaining, st.time, st.queue);
    RejoinLined(ps, st.remaining, st.time, rest, i, st.remaining[i] - exec, time);
    if rem[i] > 0 {
      assert Turn(ps, quantum, st).queue == queue + [i];
      DistinctAppend(queue, [i]);
    } else {
      assert Turn(ps, quantum, st).queue == queue;
    }
  }

  /**
   * The order a turn leaves the queue in: the rest of the queue first, then
   * the processes that arrived during the slice, then the head again if it
   * has work left; a completed head is not queued again.
   */
  lemma {:induction false} TurnOrder(ps: seq<Process>, quantum: int, st: PageState)
    requires Shaped(ps, st) && Lined(ps, st) && st.queue != [] && quantum > 0
    ensures var i, st' := st.queue[0], Turn(ps, quantum, st);
      var n := |st.queue| - 1;
      && st'.remaining[i] == st.remaining[i] - Min(quantum, st.remaining[i])
      && n <= |st'.queue| && st'.queue[..n] == st.queue[1..]
      && (st'.remaining[i] > 0 ==>
            && st'.queue[|st'.queue| - 1] == i
            && forall k | n <= k < |st'.queue| - 1 :: st.time < ps[st'.queue[k]].arrival <= st'.time)
      && (st'.remaining[i] == 0 ==>
            && i !in st'.queue
            && forall k | n <= k < |st'.queue| :: st.time < ps[st'.queue[k]].arrival <= st'.time)
  {
    var i := st.queue[0];
    var rest := st.queue[1..];
    var exec := Min(quantum, st.remaining[i]);
    var time := st.time + exec;
    var rem := st.remaining[i := st.remaining[i] - exec];
    var joined := Joining(ps, rem, st.time, time, rest, Some(i));
    JoiningArrived(ps, rem, st.time, time, rest, Some(i));
    ShiftLined(ps, st.remaining, st.time, st.queue);
    var st' := Turn(ps, quantum, st);
    if rem[i] > 0 {
      assert st'.queue == rest + joined + [i];
      forall k | |rest| <= k < |st'.queue| - 1 ensures st.time < ps[st'.queue[k]].arrival <= time {
        assert st'.queue[k] == joined[k - |rest|];
      }
    } else {
      assert st'.queue == rest + joined;
      forall k | |rest| <= k < |st'.queue| ensures st.time < ps[st'.queue[k]].arrival <= time {
        assert st'.queue[k] == joined[k - |rest|];
      }
    }
  }

  // ---------------------------------------------------------------------
  // Progress

  /**
   * A pass with some process unfinished makes progress, keeps the queue and
   * the count of finished processes, and continues the same run.
   */
  lemma {:induction false} Advance(ps: seq<Process>, quantum: int, st: PageState, st': PageState)
    requires Shaped(ps, st) && st.completed == Finished(st.remaining) && Lined(ps, st) && st.completed < |ps|
    requires quantum > 0 && st' == Step(ps, quantum, st)
    ensures st'.completed == Finished(st'.remaining) && Lined(ps, st')
    ensures Progress(ps, st, st') && Run(ps, quantum, st) == Run(ps, quantum, st')
  {
    if st.queue == [] {
      IdleProgress(ps, st);
      IdleLined(ps, st);
    } else {
      TurnProgress(ps, quantum, st);
      TurnLined(ps, quantum, st);
    }
  }

  lemma {:induction false} TurnProgress(ps: seq<Process>, quantum: int, st: PageState)
    requires Shaped(ps, st) && st.completed == Finished(st.remaining) && Lined(ps, st) && st.queue != [] && quantum > 0
    ensures var st' := Turn(ps, quantum, st);
      st'.completed == Finished(st'.remaining) && SumRemaining(st'.remaining) < SumRemaining(st.remaining)
  {
    var i := st.queue[0];
    var exec := Min(quantum, st.remaining[i]);
    SumRemainingUpdate(st.remaining, i, st.remaining[i] - exec);
    FinishedUpdate(st.remaining, i, st.remaining[i] - exec);
  }

  lemma {:induction false} IdleProgress(ps: seq<Process>, st: PageState)
    requires Shaped(ps, st) && st.completed == Finished(st.remaining) && Lined(ps, st) && st.completed < |ps|
    requires st.queue == []
    ensures st.time < MaxArrival(ps)
  {
    FinishedAll(st.remaining);
    var j :| 0 <= j < |ps| && st.remaining[j] > 0;
    assert j !in st.queue;
  }

  // ---------------------------------------------------------------------
  // What holds at the top of every pass

  /** What has run of the process at `i` ran after its arrival. */
  predicate WorkAt(ps: seq<Process>, st: PageState, i: nat)
    requires Shaped(ps, st) && i < |ps|
  {
    && st.remaining[i] <= ps[i].burst
    && (st.remaining[i] < ps[i].burst ==> ps[i].arrival + ps[i].burst - st.remaining[i] <= st.time)
  }

  /** The work done so far is the busy time. */
  predicate Worked(ps: seq<Process>, st: PageState)
    requires Shaped(ps, st)
  {
    && 0 <= st.time
    && (forall i | 0 <= i < |ps| :: WorkAt(ps, st, i))
    && st.busy + SumRemaining(st.remaining) == SumBursts(ps)
    && st.completed == Finished(st.remaining)
  }

  /** The summary holds each finished process once, in completion order, none completing early. */
  predicate Logged(ps: seq<Process>, st: PageState)
    requires Shaped(ps, st)
  {
    && multiset(Served(st.summary)) + multiset(Unfinished(ps, st.remaining)) == multiset(ps)
    && AllConsistent(st.summary)
    && (forall k | 0 <= k < |st.summary| ::
          st.summary[k].arrival + st.summary[k].burst <= CompletionOf(st.summary[k]) <= st.time)
    && InCompletionOrder(st.summary)
  }

  /** No slice is longer than the quantum. */
  predicate Sliced(g: seq<Segment>, quantum: int) {
    forall k | 0 <= k < |g| :: g[k].end - g[k].start <= quantum
  }

  /**
   * The bars run in time order without overlap, none longer than the
   * quantum, and end by the clock (at the clock once every process has
   * completed); together they are the busy time.
   */
  predicate Drawn(ps: seq<Process>, quantum: int, st: PageState) {
    && InOrder(st.gantt) && Sliced(st.gantt, quantum) && EndOf(st.gantt) <= st.time
    && (st.completed == |ps| ==> EndOf(st.gantt) == st.time)
    && Length(st.gantt) == st.busy
  }

  /** The bars of each process add up to what of it has run (meaningful when names are unique). */
  predicate Named(ps: seq<Process>, st: PageState)
    requires Shaped(ps, st)
  {
    forall i | 0 <= i < |ps| :: NamedLength(st.gantt, ps[i].name) == ps[i].burst - st.remaining[i]
  }

  ghost predicate Inv(ps: seq<Process>, quantum: int, st: PageState) {
    Shaped(ps, st) && Worked(ps, st) && Logged(ps, st) && Drawn(ps, quantum, st) && Named(ps, st)
  }

  // ---------------------------------------------------------------------
  // The invariant is kept

  lemma {:induction false} StartKeeps(ps: seq<Process>, quantum: int)
    requires forall i | 0 <= i < |ps| :: ps[i].burst > 0
    ensures Inv(ps, quantum, Start(ps))
  {
    FreshKeeps(ps, quantum, Start(ps));
  }

  /** Nothing has run: every remaining time is the burst, and the chart and the summary are empty. */
  lemma {:induction false} FreshKeeps(ps: seq<Process>, quantum: int, st: PageState)
    requires forall i | 0 <= i < |ps| :: ps[i].burst > 0
    requires Shaped(ps, st) && st.remaining == Bursts(ps) && st.gantt == [] && st.summary == []
    requires st.time == 0 && st.completed == 0 && st.busy == 0
    ensures Inv(ps, quantum, st)
  {
    FreshWorked(ps, st);
    FreshLogged(ps, st);
    EmptyDrawn(ps, quantum, st);
    assert Named(ps, st);
  }

  lemma {:induction false} FreshWorked(ps: seq<Process>, st: PageState)
    requires forall i | 0 <= i < |ps| :: ps[i].burst > 0
    requires Shaped(ps, st) && st.remaining == Bursts(ps) && st.time == 0 && st.completed == 0 && st.busy == 0
    ensures Worked(ps, st)
  {
    SumRemainingBursts(ps);
    FinishedAll(st.remaining);
  }

  lemma {:induction false} FreshLogged(ps: seq<Process>, st: PageState)
    requires forall i | 0 <= i < |ps| :: ps[i].burst > 0
    requires Shaped(ps, st) && st.remaining == Bursts(ps) && st.summary == []
    ensures Logged(ps, st)
  {
    UnfinishedAll(ps, st.remaining);
    assert Served(st.summary) == [];
  }

  lemma {:induction false} EmptyDrawn(ps: seq<Process>, quantum: int, st: PageState)
    requires st.gantt == [] && st.time == 0 && st.busy == 0
    ensures Drawn(ps, quantum, st)
  {
  }

  lemma {:induction false} IdleKeeps(ps: seq<Process>, quantum: int, st: PageState)
    requires Inv(ps, quantum, st) && st.completed < |ps| && st.queue == []
    ensures Inv(ps, quantum, Idle(ps, st))
  {
    var st' := Idle(ps, st);
    assert Worked(ps, st') by {
      forall i | 0 <= i < |ps| ensures WorkAt(ps, st', i) {
        assert WorkAt(ps, st, i);
      }
    }
  }

  lemma {:induction false} TurnWorked(ps: seq<Process>, quantum: int, st: PageState)
    requires Shaped(ps, st) && Worked(ps, st) && st.queue != [] && quantum > 0
    requires ps[st.queue[0]].arrival <= st.time && st.remaining[st.queue[0]] > 0
    ensures Worked(ps, Turn(ps, quantum, st))
  {
    var i := st.queue[0];
    var exec := Min(quantum, st.remaining[i]);
    var st' := Turn(ps, quantum, st);
    SumRemainingUpdate(st.remaining, i, st.remaining[i] - exec);
    FinishedUpdate(st.remaining, i, st.remaining[i] - exec);
    forall j | 0 <= j < |ps| ensures WorkAt(ps, st', j) {
      assert WorkAt(ps, st, j);
    }
  }

  lemma {:induction false} TurnLogged(ps: seq<Process>, quantum: int, st: PageState)
    requires Shaped(ps, st) && Logged(ps, st) && st.queue != [] && quantum > 0
    requires WorkAt(ps, st, st.queue[0]) && ps[st.queue[0]].arrival <= st.time && st.remaining[st.queue[0]] > 0
    ensures Logged(ps, Turn(ps, quantum, st))
  {
    var i := st.queue[0];
    var st' := Turn(ps, quantum, st);
    if st.remaining[i] <= quantum {
      assert st'.remaining == st.remaining[i := 0] && st'.time == st.time + st.remaining[i];
      assert st'.summary == st.summary + [RecordAt(ps[i], st.time + st.remaining[i])];
      CompleteLogged(ps, st, st', i);
    } else {
      assert st'.remaining == st.remaining[i := st.remaining[i] - quantum] && st'.time == st.time + quantum;
      assert st'.summary == st.summary;
      SliceLogged(ps, st, st', i);
    }
  }

  /** A slice that leaves work logs nothing. */
  lemma {:induction false} SliceLogged(ps: seq<Process>, st: PageState, st': PageState, i: nat)
    requires Shaped(ps, st) && Shaped(ps, st') && Logged(ps, st)
    requires i < |ps| && st.remaining[i] > 0 && st'.remaining == st.remaining[i := st'.remaining[i]] && st'.remaining[i] > 0
    requires st'.summary == st.summary && st.time <= st'.time
    ensures Logged(ps, st')
  {
    UnfinishedSame(ps, st.remaining, i, st'.remaining[i]);
  }

  /** The slice that completes a process logs it once, after every earlier completion. */
  lemma {:induction false} CompleteLogged(ps: seq<Process>, st: PageState, st': PageState, i: nat)
    requires Shaped(ps, st) && Shaped(ps, st') && Logged(ps, st)
    requires i < |ps| && 0 < st.remaining[i] <= ps[i].burst && ps[i].arrival <= st.time
    requires st.remaining[i] < ps[i].burst ==> ps[i].arrival + ps[i].burst - st.remaining[i] <= st.time
    requires st'.remaining == st.remaining[i := 0] && st'.time == st.time + st.remaining[i]
    requires st'.summary == st.summary + [RecordAt(ps[i], st'.time)]
    ensures Logged(ps, st')
  {
    var rec := RecordAt(ps[i], st'.time);
    UnfinishedDone(ps, st.remaining, i);
    ServedAppend(st.summary, rec);
    LogAppend(st.summary, rec, st.time);
  }

  lemma {:induction false} TurnDrawn(ps: seq<Process>, quantum: int, st: PageState)
    requires Shaped(ps, st) && Drawn(ps, quantum, st) && 0 <= st.time && st.queue != [] && quantum > 0
    requires st.remaining[st.queue[0]] > 0
    ensures Drawn(ps, quantum, Turn(ps, quantum, st))
  {
    var i := st.queue[0];
    var s := Segment(ps[i].name, st.time, st.time + Min(quantum, st.remaining[i]));
    assert Turn(ps, quantum, st).gantt == st.gantt + [s];
    AppendInOrder(st.gantt, s);
    LengthAppend(st.gantt, s);
  }

  lemma {:induction false} TurnNamed(ps: seq<Process>, quantum: int, st: PageState)
    requires Shaped(ps, st) && Named(ps, st) && UniqueNames(ps) && st.queue != []
    ensures Named(ps, Turn(ps, quantum, st))
  {
    var i := st.queue[0];
    var s := Segment(ps[i].name, st.time, st.time + Min(quantum, st.remaining[i]));
    var st' := Turn(ps, quantum, st);
    assert st'.gantt == st.gantt + [s];
    forall j | 0 <= j < |ps| ensures NamedLength(st'.gantt, ps[j].name) == ps[j].burst - st'.remaining[j] {
      NamedLengthAppend(st.gantt, s, ps[j].name);
    }
  }

  lemma {:induction false} StepKeeps(ps: seq<Process>, quantum: int, st: PageState)
    requires Inv(ps, quantum, st) && Lined(ps, st) && UniqueNames(ps) && st.completed < |ps| && quantum > 0
    ensures Inv(ps, quantum, Step(ps, quantum, st))
  {
    if st.queue == [] {
      IdleKeeps(ps, quantum, st);
    } else {
      assert st.queue[0] in st.queue;
      assert WorkAt(ps, st, st.queue[0]);
      TurnWorked(ps, quantum, st);
      TurnLogged(ps, quantum, st);
      TurnDrawn(ps, quantum, st);
      TurnNamed(ps, quantum, st);
    }
  }

  /** The loop keeps the invariant to its end, where every process has completed. */
  lemma {:induction false} RunKeeps(ps: seq<Process>, quantum: int, st: PageState)
    requires Inv(ps, quantum, st) && Lined(ps, st) && UniqueNames(ps) && quantum > 0
    ensures Inv(ps, quantum, Run(ps, quantum, st)) && Run(ps, quantum, st).completed >= |ps|
    decreases SumRemaining(st.remaining), MaxArrival(ps) - st.time
  {
    if st.completed < |ps| {
      Advance(ps, quantum, st, Step(ps, quantum, st));
      StepKeeps(ps, quantum, st);
      RunKeeps(ps, quantum, Step(ps, quantum, st));
    }
  }

  /**
   * For every well-formed input and positive quantum: the summary holds
   * every process once, in completion order, none completing before
   * arrival + burst or after totalTime; the bars run in time order without
   * overlap, each at most one quantum long, and the last ends at totalTime;
   * the busy time is the sum of the bursts and the length of the bars; and
   * each process's bars add up to its burst.
   */
  lemma {:induction false} Schedule(ps: seq<Process>, quantum: int)
    requires WellFormed(ps) && quantum > 0
    ensures var r := Outcome(ps, quantum);
      && multiset(Served(r.summary)) == multiset(ps)
      && AllConsistent(r.summary)
      && InCompletionOrder(r.summary)
      && (forall k | 0 <= k < |r.summary| ::
            r.summary[k].arrival + r.summary[k].burst <= CompletionOf(r.summary[k]) <= r.totalTime)
      && InOrder(r.gantt) && Sliced(r.gantt, quantum) && r.totalTime == EndOf(r.gantt)
      && r.busyTime == SumBursts(ps) && Length(r.gantt) == r.busyTime
      && (forall i | 0 <= i < |ps| :: NamedLength(r.gantt, ps[i].name) == ps[i].burst)
  {
    StartKeeps(ps, quantum);
    StartLined(ps);
    RunKeeps(ps, quantum, Start(ps));
    Finish(ps, quantum, Run(ps, quantum, Start(ps)));
  }

  /** Once every process has completed, nothing is pending and all the work is drawn. */
  lemma {:induction false} Finish(ps: seq<Process>, quantum: int, st: PageState)
    requires Inv(ps, quantum, st) && st.completed >= |ps|
    ensures multiset(Served(st.summary)) == multiset(ps)
    ensures st.busy == SumBursts(ps) && EndOf(st.gantt) == st.time
    ensures forall i | 0 <= i < |ps| :: NamedLength(st.gantt, ps[i].name) == ps[i].burst
  {
    FinishedAll(st.remaining);
    SumRemainingZero(st.remaining);
    UnfinishedNone(ps, st.remaining);
  }
}
