/**
 * Shared data model of the CPU-scheduling simulators: the process
 * descriptors they take, the Gantt segments, per-process summary records
 * and totals they return, and the facts about sums and timelines that every
 * simulator's contract is stated with.
 */
module Scheduling {

  datatype Option<T> = None | Some(value: T)

  /** Name given to a stretch of the timeline in which no process runs. */
  const IdleName: string := "Idle"

  /** A process as entered by the user; the display colour is left out. */
  datatype Process = Process(id: int, name: string, arrival: nat, burst: int)

  /** One bar of the Gantt chart: `name` runs over [start, end). */
  datatype Segment = Segment(name: string, start: int, end: int)

  /** One row of the summary table. */
  datatype Record = Record(id: int, name: string, arrival: nat, burst: int, waiting: int, turnaround: int)

  /** Summed waiting and turnaround; `NoTotals` is the empty object `{}`. */
  datatype Totals = Totals(totalWaiting: int, totalTurnaround: int) | NoTotals

  /** What every simulator returns. */
  datatype Simulation = Simulation(gantt: seq<Segment>, summary: seq<Record>, totalTime: int, totals: Totals, busyTime: int)

  function Max(a: int, b: int): int { if a < b then b else a }
  function Min(a: int, b: int): int { if a < b then a else b }

  // ---------------------------------------------------------------------
  // Input validity

  predicate UniqueIds(ps: seq<Process>) {
    forall i, j | 0 <= i < j < |ps| :: ps[i].id != ps[j].id
  }

  predicate UniqueNames(ps: seq<Process>) {
    forall i, j | 0 <= i < j < |ps| :: ps[i].name != ps[j].name
  }

  /** The input every simulator relies on: positive bursts, unique ids and names. */
  predicate WellFormed(ps: seq<Process>) {
    (forall i | 0 <= i < |ps| :: ps[i].burst > 0) && UniqueIds(ps) && UniqueNames(ps)
  }

  /** No process carries the name used for idle segments. */
  predicate NoneNamedIdle(ps: seq<Process>) {
    forall i | 0 <= i < |ps| :: ps[i].name != IdleName
  }

  function Ids(ps: seq<Process>): set<int> {
    set i | 0 <= i < |ps| :: ps[i].id
  }

  function SumBursts(ps: seq<Process>): int {
    if ps == [] then 0 else SumBursts(ps[..|ps| - 1]) + ps[|ps| - 1].burst
  }

  /** The latest arrival, 0 for no processes. */
  function MaxArrival(ps: seq<Process>): (r: nat)
    ensures forall j | 0 <= j < |ps| :: ps[j].arrival <= r
  {
    if ps == [] then 0 else Max(MaxArrival(ps[..|ps| - 1]), ps[|ps| - 1].arrival)
  }

  /** Index of the process with identity `id`, as `procs.find(x => x.id === id)`. */
  function FindById(ps: seq<Process>, id: int): (r: Option<nat>)
    ensures r.Some? ==> r.value < |ps| && ps[r.value].id == id
    ensures r.None? <==> id !in Ids(ps)
    ensures r.Some? ==> forall j | 0 <= j < r.value :: ps[j].id != id
  {
    if ps == [] then None
    else if ps[0].id == id then Some(0)
    else
      var r := FindById(ps[1..], id);
      assert Ids(ps) == {ps[0].id} + Ids(ps[1..]) by {
        forall x | x in Ids(ps) ensures x in {ps[0].id} + Ids(ps[1..]) {
          var i :| 0 <= i < |ps| && ps[i].id == x;
          if i > 0 { assert ps[1..][i - 1].id == x; }
        }
      }
      if r.None? then None else Some(r.value + 1)
  }

  // ---------------------------------------------------------------------
  // Summary records

  function ProcessOf(r: Record): Process {
    Process(r.id, r.name, r.arrival, r.burst)
  }

  /** The processes the summary speaks about, in summary order. */
  function Served(rs: seq<Record>): seq<Process> {
    seq(|rs|, k requires 0 <= k < |rs| => ProcessOf(rs[k]))
  }

  function StartOf(r: Record): int { r.arrival + r.waiting }

  function CompletionOf(r: Record): int { r.arrival + r.turnaround }

  /** waiting is never negative and turnaround = waiting + burst. */
  predicate Consistent(r: Record) {
    r.waiting >= 0 && r.turnaround == r.waiting + r.burst
  }

  predicate AllConsistent(rs: seq<Record>) {
    forall k | 0 <= k < |rs| :: Consistent(rs[k])
  }

  /** The record of `p` given its completion tick. */
  function RecordAt(p: Process, completion: int): (r: Record)
    ensures ProcessOf(r) == p && CompletionOf(r) == completion
    ensures r.waiting == r.turnaround - p.burst
  {
    Record(p.id, p.name, p.arrival, p.burst, completion - p.arrival - p.burst, completion - p.arrival)
  }

  function SumWaiting(rs: seq<Record>): int {
    if rs == [] then 0 else SumWaiting(rs[..|rs| - 1]) + rs[|rs| - 1].waiting
  }

  function SumTurnaround(rs: seq<Record>): int {
    if rs == [] then 0 else SumTurnaround(rs[..|rs| - 1]) + rs[|rs| - 1].turnaround
  }

  /** Appending a record adds its waiting and turnaround times to the sums. */
  lemma SumsAppend(rs: seq<Record>, r: Record)
    ensures SumWaiting(rs + [r]) == SumWaiting(rs) + r.waiting
    ensures SumTurnaround(rs + [r]) == SumTurnaround(rs) + r.turnaround
  {
    assert (rs + [r])[..|rs|] == rs;
  }

  /** The `totals` object, as the two `reduce` calls compute it. */
  function TotalsOf(rs: seq<Record>): Totals {
    Totals(SumWaiting(rs), SumTurnaround(rs))
  }

  /** When the CPU is free for the k-th record of a run-to-completion order: 0, or the previous completion. */
  function FreeAt(rs: seq<Record>, k: nat): int
    requires k <= |rs|
  {
    if k == 0 then 0 else CompletionOf(rs[k - 1])
  }

  /**
   * Each record starts as soon as the CPU is free (at 0, or when the record
   * before it completes) and its process has arrived.
   */
  ghost predicate StartsWhenReady(rs: seq<Record>) {
    && (|rs| > 0 ==> StartOf(rs[0]) == rs[0].arrival)
    && forall i, j | 0 <= i < j < |rs| && j == i + 1 :: StartOf(rs[j]) == Max(CompletionOf(rs[i]), rs[j].arrival)
  }

  lemma {:induction false} StartsWhenReadyAppend(rs: seq<Record>, r: Record)
    requires StartsWhenReady(rs) && StartOf(r) == Max(FreeAt(rs, |rs|), r.arrival)
    ensures StartsWhenReady(rs + [r])
  {
    var rs' := rs + [r];
    forall i, j | 0 <= i < j < |rs'| && j == i + 1 ensures StartOf(rs'[j]) == Max(CompletionOf(rs'[i]), rs'[j].arrival) {
      assert rs'[i] == rs[i];
      if j < |rs| { assert rs'[j] == rs[j]; }
    }
  }

  /** The bar a non-preemptive run of `r` occupies. */
  function RunSegment(r: Record): Segment {
    Segment(r.name, StartOf(r), CompletionOf(r))
  }

  // ---------------------------------------------------------------------
  // Timelines

  /** Every segment has positive length. */
  predicate Positive(g: seq<Segment>) {
    forall i | 0 <= i < |g| :: g[i].start < g[i].end
  }

  /** Each segment starts where the previous one ended. */
  predicate Contiguous(g: seq<Segment>) {
    forall i | 0 <= i < |g| - 1 :: g[i].end == g[i + 1].start
  }

  function EndOf(g: seq<Segment>): int {
    if g == [] then 0 else g[|g| - 1].end
  }

  /** The segments tile [0, EndOf(g)) without gap or overlap. */
  predicate CoversFromZero(g: seq<Segment>) {
    Positive(g) && Contiguous(g) && (g != [] ==> g[0].start == 0)
  }

  /** The segments are non-empty, start at or after 0 and never overlap. */
  predicate InOrder(g: seq<Segment>) {
    Positive(g) && (forall i | 0 <= i < |g| - 1 :: g[i].end <= g[i + 1].start) && (g != [] ==> g[0].start >= 0)
  }

  /** Total length of all segments. */
  function Length(g: seq<Segment>): int {
    if g == [] then 0 else Length(g[..|g| - 1]) + (g[|g| - 1].end - g[|g| - 1].start)
  }

  /** Total length of the segments not named Idle. */
  function BusyLength(g: seq<Segment>): int {
    if g == [] then 0
    else BusyLength(g[..|g| - 1]) + (if g[|g| - 1].name == IdleName then 0 else g[|g| - 1].end - g[|g| - 1].start)
  }

  lemma {:induction false} AppendCovers(g: seq<Segment>, s: Segment)
    requires CoversFromZero(g) && s.start == EndOf(g) && s.start < s.end
    ensures CoversFromZero(g + [s]) && EndOf(g + [s]) == s.end
  {
  }

  lemma {:induction false} AppendInOrder(g: seq<Segment>, s: Segment)
    requires InOrder(g) && EndOf(g) <= s.start && 0 <= s.start < s.end
    ensures InOrder(g + [s]) && EndOf(g + [s]) == s.end
  {
  }

  /** A timeline that tiles [0, T) has total length T. */
  lemma {:induction false} CoveredLength(g: seq<Segment>)
    requires CoversFromZero(g)
    ensures Length(g) == EndOf(g)
  {
    if g != [] {
      var h := g[..|g| - 1];
      assert CoversFromZero(h);
      CoveredLength(h);
      if h == [] { assert g[0].start == 0; } else { assert g[|g| - 2].end == g[|g| - 1].start; }
    }
  }

  /** Segments that never overlap take no more room than [0, end of the last). */
  lemma {:induction false} OrderedLength(g: seq<Segment>)
    requires InOrder(g)
    ensures 0 <= Length(g) <= EndOf(g)
  {
    if g != [] {
      var h := g[..|g| - 1];
      assert InOrder(h);
      OrderedLength(h);
      if h != [] { assert g[|g| - 2].end <= g[|g| - 1].start; }
    }
  }

  /** The busy part of a timeline is never longer than the timeline. */
  lemma {:induction false} BusyWithinLength(g: seq<Segment>)
    requires Positive(g)
    ensures 0 <= BusyLength(g) <= Length(g)
  {
    if g != [] {
      assert Positive(g[..|g| - 1]);
      BusyWithinLength(g[..|g| - 1]);
    }
  }

  // ---------------------------------------------------------------------
  // Sums

  lemma {:induction false} SumBurstsAppend(a: seq<Process>, b: seq<Process>)
    ensures SumBursts(a + b) == SumBursts(a) + SumBursts(b)
  {
    if b != [] {
      assert (a + b)[..|a + b| - 1] == a + b[..|b| - 1];
      SumBurstsAppend(a, b[..|b| - 1]);
    } else {
      assert a + b == a;
    }
  }

  lemma {:induction false} MultisetRemove<T>(b: seq<T>, j: nat)
    requires j < |b|
    ensures multiset(b[..j] + b[j + 1..]) == multiset(b) - multiset{b[j]}
  {
    assert b == b[..j] + [b[j]] + b[j + 1..];
    assert multiset(b) == multiset(b[..j]) + multiset{b[j]} + multiset(b[j + 1..]);
  }

  lemma {:induction false} SumBurstsRemove(b: seq<Process>, j: nat)
    requires j < |b|
    ensures SumBursts(b) == SumBursts(b[..j] + b[j + 1..]) + b[j].burst
  {
    assert b == b[..j] + [b[j]] + b[j + 1..];
    SumBurstsAppend(b[..j], [b[j]]);
    SumBurstsAppend(b[..j] + [b[j]], b[j + 1..]);
    SumBurstsAppend(b[..j], b[j + 1..]);
    assert SumBursts([b[j]]) == b[j].burst by { assert [b[j]][..0] == []; }
  }

  /** The summed burst does not depend on the order of the processes. */
  lemma {:induction false} SumBurstsPermutation(a: seq<Process>, b: seq<Process>)
    requires multiset(a) == multiset(b)
    ensures SumBursts(a) == SumBursts(b)
  {
    if a == [] {
      assert |b| == |multiset(b)| == 0;
    } else {
      var x := a[|a| - 1];
      var a' := a[..|a| - 1];
      assert a == a' + [x];
      assert x in multiset(b);
      var j :| 0 <= j < |b| && b[j] == x;
      var b' := b[..j] + b[j + 1..];
      MultisetRemove(b, j);
      assert multiset(a') == multiset(a) - multiset{x};
      SumBurstsPermutation(a', b');
      SumBurstsRemove(b, j);
    }
  }

  lemma {:induction false} ServedAppend(rs: seq<Record>, r: Record)
    ensures Served(rs + [r]) == Served(rs) + [ProcessOf(r)]
  {
  }

  /** Summed turnaround is summed waiting plus summed burst. */
  lemma {:induction false} TurnaroundIsWaitingPlusBurst(rs: seq<Record>)
    requires AllConsistent(rs)
    ensures SumTurnaround(rs) == SumWaiting(rs) + SumBursts(Served(rs))
  {
    if rs != [] {
      var h := rs[..|rs| - 1];
      assert AllConsistent(h);
      TurnaroundIsWaitingPlusBurst(h);
      assert Served(rs)[..|rs| - 1] == Served(h);
    }
  }

  /** Lists holding the same processes hold the same identities. */
  lemma {:induction false} IdsPermutation(a: seq<Process>, b: seq<Process>)
    requires multiset(a) == multiset(b)
    ensures Ids(a) == Ids(b)
  {
    forall x | x in Ids(a) ensures x in Ids(b) {
      var i :| 0 <= i < |a| && a[i].id == x;
      assert a[i] in multiset(b);
      var j :| 0 <= j < |b| && b[j] == a[i];
    }
    forall x | x in Ids(b) ensures x in Ids(a) {
      var j :| 0 <= j < |b| && b[j].id == x;
      assert b[j] in multiset(a);
      var i :| 0 <= i < |a| && a[i] == b[j];
    }
  }

  /** A set of distinct identities is as large as the list. */
  lemma {:induction false} IdsCount(ps: seq<Process>)
    requires UniqueIds(ps)
    ensures |Ids(ps)| == |ps|
  {
    if ps != [] {
      var h := ps[..|ps| - 1];
      assert UniqueIds(h);
      IdsCount(h);
      assert Ids(ps) == Ids(h) + {ps[|ps| - 1].id} by {
        forall x | x in Ids(ps) ensures x in Ids(h) + {ps[|ps| - 1].id} {
          var i :| 0 <= i < |ps| && ps[i].id == x;
          if i < |ps| - 1 { assert h[i].id == x; }
        }
      }
      assert ps[|ps| - 1].id !in Ids(h);
    }
  }

  // ---------------------------------------------------------------------
  // Non-preemptive timelines with explicit idle gaps

  /** One Idle segment over [from, to), or nothing when there is no gap. */
  function Gap(from: int, to: int): (g: seq<Segment>)
    ensures |g| <= 1 && (g == [] <==> to <= from)
    ensures forall i | 0 <= i < |g| :: g[i] == Segment(IdleName, from, to)
  {
    if from < to then [Segment(IdleName, from, to)] else []
  }

  /**
   * The chart of a run-to-completion schedule: for each record in turn, an
   * Idle segment if the CPU was free before it started, then its bar.
   */
  function Chart(rs: seq<Record>): seq<Segment> {
    if rs == [] then []
    else
      var k := |rs| - 1;
      Chart(rs[..k]) + Gap(FreeAt(rs, k), StartOf(rs[k])) + [RunSegment(rs[k])]
  }

  lemma {:induction false} ChartAppend(rs: seq<Record>, r: Record)
    ensures Chart(rs + [r]) == Chart(rs) + Gap(FreeAt(rs, |rs|), StartOf(r)) + [RunSegment(r)]
  {
    var rs' := rs + [r];
    assert rs'[..|rs|] == rs;
    assert FreeAt(rs', |rs|) == FreeAt(rs, |rs|);
  }

  lemma {:induction false} BusyLengthAppend(a: seq<Segment>, b: seq<Segment>)
    ensures BusyLength(a + b) == BusyLength(a) + BusyLength(b)
  {
    if b == [] {
      assert a + b == a;
    } else {
      assert (a + b)[..|a + b| - 1] == a + b[..|b| - 1];
      BusyLengthAppend(a, b[..|b| - 1]);
    }
  }

  /** When no process is named Idle, the busy part of the chart is the summed burst. */
  lemma {:induction false} ChartBusy(rs: seq<Record>)
    requires AllConsistent(rs) && NoneNamedIdle(Served(rs))
    ensures BusyLength(Chart(rs)) == SumBursts(Served(rs))
  {
    if rs != [] {
      var k := |rs| - 1;
      var h := rs[..k];
      assert AllConsistent(h) && NoneNamedIdle(Served(h)) && SumBursts(Served(rs)) == SumBursts(Served(h)) + rs[k].burst by {
        assert Served(rs)[..k] == Served(h);
        assert Served(rs)[k] == ProcessOf(rs[k]);
      }
      ChartBusy(h);
      assert Served(rs)[k] == ProcessOf(rs[k]);
      ChartBusyLast(rs);
    }
  }

  /** The last record adds its burst to the busy part of the chart, and its Idle gap adds nothing. */
  lemma {:induction false} ChartBusyLast(rs: seq<Record>)
    requires rs != [] && Consistent(rs[|rs| - 1]) && rs[|rs| - 1].name != IdleName
    ensures BusyLength(Chart(rs)) == BusyLength(Chart(rs[..|rs| - 1])) + rs[|rs| - 1].burst
  {
    var k := |rs| - 1;
    var gap := Gap(FreeAt(rs, k), StartOf(rs[k]));
    BusyLengthAppend(Chart(rs[..k]) + gap, [RunSegment(rs[k])]);
    BusyLengthAppend(Chart(rs[..k]), gap);
    assert BusyLength(gap) == 0 by {
      if gap != [] { assert gap[..0] == []; }
    }
    assert BusyLength([RunSegment(rs[k])]) == rs[k].burst by {
      assert [RunSegment(rs[k])][..0] == [];
    }
  }

  /** Busy time never exceeds the span of a timeline that tiles [0, T). */
  lemma {:induction false} CoveredBusyBound(g: seq<Segment>)
    requires CoversFromZero(g)
    ensures 0 <= BusyLength(g) <= EndOf(g)
  {
    BusyWithinLength(g);
    CoveredLength(g);
  }

  // ---------------------------------------------------------------------
  // Run-to-completion timelines without Idle bars

  /** The record of `p` run to completion from `start`: waiting `start - arrival`, turnaround waiting plus burst. */
  function StartedAt(p: Process, start: int): Record {
    Record(p.id, p.name, p.arrival, p.burst, start - p.arrival, start - p.arrival + p.burst)
  }

  /**
   * A record that starts later than the CPU became free (the first one
   * included: the CPU is free from time 0) starts no later than the arrival
   * of any record after it.
   */
  ghost predicate IdlesOnlyWhenEmpty(summary: seq<Record>) {
    forall k, k' {:trigger FreeAt(summary, k), summary[k']} |
      0 <= k <= k' < |summary| && StartOf(summary[k]) > FreeAt(summary, k) :: summary[k'].arrival >= StartOf(summary[k])
  }


  /** One bar per record, [start, completion), and nothing for the gaps. */
  function Bars(rs: seq<Record>): (g: seq<Segment>)
    ensures |g| == |rs| && forall k | 0 <= k < |rs| :: g[k] == RunSegment(rs[k])
  {
    seq(|rs|, k requires 0 <= k < |rs| => RunSegment(rs[k]))
  }

  lemma {:induction false} BarsAppend(rs: seq<Record>, r: Record)
    ensures Bars(rs + [r]) == Bars(rs) + [RunSegment(r)]
  {
    assert Bars(rs + [r])[..|rs|] == Bars(rs);
  }

  /** The bars of records that start when ready never overlap. */
  lemma {:induction false} BarsInOrder(rs: seq<Record>)
    requires AllConsistent(rs) && StartsWhenReady(rs) && forall k | 0 <= k < |rs| :: rs[k].burst > 0
    ensures InOrder(Bars(rs))
  {
    var g := Bars(rs);
    forall i | 0 <= i < |g| - 1 ensures g[i].end <= g[i + 1].start {
      assert StartOf(rs[i + 1]) == Max(CompletionOf(rs[i]), rs[i + 1].arrival);
    }
  }

  /** Without Idle bars, every bar is busy: the busy part of the chart is the summed burst. */
  lemma {:induction false} BarsBusy(rs: seq<Record>)
    requires AllConsistent(rs) && NoneNamedIdle(Served(rs))
    ensures BusyLength(Bars(rs)) == SumBursts(Served(rs))
  {
    if rs != [] {
      var k := |rs| - 1;
      var h := rs[..k];
      assert rs == h + [rs[k]];
      assert Served(rs)[..k] == Served(h);
      assert Served(rs)[k] == ProcessOf(rs[k]);
      assert AllConsistent(h) && NoneNamedIdle(Served(h));
      BarsBusy(h);
      BarsAppend(h, rs[k]);
      BusyLengthAppend(Bars(h), [RunSegment(rs[k])]);
      assert [RunSegment(rs[k])][..0] == [];
    }
  }

  /** Every process of `ps` occurs in `qs` when both hold the same processes. */
  lemma {:induction false} PermutationMembers(ps: seq<Process>, qs: seq<Process>, i: nat)
    requires multiset(ps) == multiset(qs) && i < |qs|
    ensures exists j :: 0 <= j < |ps| && ps[j] == qs[i]
  {
    assert qs[i] in multiset(ps);
  }
}
