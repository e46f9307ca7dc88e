/**
 * Per-process remaining work, as the preemptive simulators keep it: the
 * remaining time of the i-th process is `remaining[i]`, and its completion
 * tick is `completion[i]` once that reaches 0. The summary of such a
 * simulator is built from the completion ticks, in input order.
 */
module Work {
  import opened Scheduling

  /** Sum of the remaining times. */
  function SumRemaining(rem: seq<nat>): nat {
    if rem == [] then 0 else SumRemaining(rem[..|rem| - 1]) + rem[|rem| - 1]
  }

  /** The remaining time of every process before the loop: its burst. */
  function Bursts(ps: seq<Process>): (rem: seq<nat>)
    requires forall i | 0 <= i < |ps| :: ps[i].burst > 0
    ensures |rem| == |ps| && forall i | 0 <= i < |ps| :: rem[i] == ps[i].burst
  {
    seq(|ps|, i requires 0 <= i < |ps| => ps[i].burst)
  }

  /**
   * `procs.filter(p => p.remaining > 0).sort((a,b) => a.arrival - b.arrival)[0]`
   * as an index: the first process with work left among those arriving earliest.
   */
  function NextPending(ps: seq<Process>, rem: seq<nat>): (r: Option<nat>)
    requires |ps| <= |rem|
    ensures r.None? <==> forall j | 0 <= j < |ps| :: rem[j] == 0
    ensures r.Some? ==> r.value < |ps| && rem[r.value] > 0
    ensures r.Some? ==> forall j | 0 <= j < |ps| && rem[j] > 0 :: ps[r.value].arrival <= ps[j].arrival
  {
    NextPendingIn(ps, rem, |ps|)
  }

  function NextPendingIn(ps: seq<Process>, rem: seq<nat>, n: nat): (r: Option<nat>)
    requires n <= |ps| <= |rem|
    ensures r.None? <==> forall j | 0 <= j < n :: rem[j] == 0
    ensures r.Some? ==> r.value < n && rem[r.value] > 0
    ensures r.Some? ==> forall j | 0 <= j < n && rem[j] > 0 :: ps[r.value].arrival <= ps[j].arrival
  {
    if n == 0 then None
    else
      var r := NextPendingIn(ps, rem, n - 1);
      if rem[n - 1] > 0 && (r.None? || ps[n - 1].arrival < ps[r.value].arrival) then Some(n - 1) else r
  }

  /** How many processes have no work left. */
  function Finished(rem: seq<nat>): nat {
    if rem == [] then 0 else Finished(rem[..|rem| - 1]) + (if rem[|rem| - 1] == 0 then 1 else 0)
  }

  /** The total length of the segments carrying `name`. */
  function NamedLength(g: seq<Segment>, name: string): int {
    if g == [] then 0
    else NamedLength(g[..|g| - 1], name) + (if g[|g| - 1].name == name then g[|g| - 1].end - g[|g| - 1].start else 0)
  }

  /** Adjacent bars carry different names: a bar closes only when another process takes over or on completion. */
  predicate Merged(g: seq<Segment>) {
    forall k | 0 <= k < |g| - 1 :: g[k].name != g[k + 1].name
  }

  /** `procs.map(p => ...)`: one record per process, in input order, from its completion tick. */
  function Summary(ps: seq<Process>, completion: seq<int>): seq<Record>
    requires |ps| <= |completion|
  {
    seq(|ps|, i requires 0 <= i < |ps| => RecordAt(ps[i], completion[i]))
  }

  lemma {:induction false} FinishedUpdate(rem: seq<nat>, i: nat, v: nat)
    requires i < |rem|
    ensures Finished(rem[i := v]) == Finished(rem) - (if rem[i] == 0 then 1 else 0) + (if v == 0 then 1 else 0)
  {
    var n := |rem| - 1;
    if i < n {
      assert rem[i := v][..n] == rem[..n][i := v];
      FinishedUpdate(rem[..n], i, v);
    } else {
      assert rem[i := v][..n] == rem[..n];
    }
  }

  lemma {:induction false} FinishedAll(rem: seq<nat>)
    ensures Finished(rem) <= |rem|
    ensures Finished(rem) == |rem| ==> forall i | 0 <= i < |rem| :: rem[i] == 0
    ensures (forall i | 0 <= i < |rem| :: rem[i] > 0) ==> Finished(rem) == 0
    ensures (forall i | 0 <= i < |rem| :: rem[i] == 0) ==> Finished(rem) == |rem|
  {
    if rem != [] {
      var n := |rem| - 1;
      FinishedAll(rem[..n]);
      if Finished(rem) == |rem| {
        forall i | 0 <= i < |rem| ensures rem[i] == 0 {
          if i < n { assert rem[i] == rem[..n][i]; }
        }
      }
      if forall i | 0 <= i < |rem| :: rem[i] > 0 {
        assert forall i | 0 <= i < n :: rem[..n][i] > 0;
      }
      if forall i | 0 <= i < |rem| :: rem[i] == 0 {
        assert forall i | 0 <= i < n :: rem[..n][i] == 0;
      }
    }
  }

  lemma {:induction false} SumRemainingUpdate(rem: seq<nat>, i: nat, v: nat)
    requires i < |rem|
    ensures SumRemaining(rem[i := v]) == SumRemaining(rem) - rem[i] + v
  {
    var n := |rem| - 1;
    if i < n {
      assert rem[i := v][..n] == rem[..n][i := v];
      SumRemainingUpdate(rem[..n], i, v);
    } else {
      assert rem[i := v][..n] == rem[..n];
    }
  }

  lemma {:induction false} SumRemainingBursts(ps: seq<Process>)
    requires forall i | 0 <= i < |ps| :: ps[i].burst > 0
    ensures SumRemaining(Bursts(ps)) == SumBursts(ps)
  {
    if ps != [] {
      var n := |ps| - 1;
      assert Bursts(ps)[..n] == Bursts(ps[..n]);
      SumRemainingBursts(ps[..n]);
    }
  }

  lemma {:induction false} SumRemainingZero(rem: seq<nat>)
    requires forall i | 0 <= i < |rem| :: rem[i] == 0
    ensures SumRemaining(rem) == 0
  {
    if rem != [] {
      SumRemainingZero(rem[..|rem| - 1]);
    }
  }

  lemma {:induction false} NamedLengthAppend(g: seq<Segment>, s: Segment, name: string)
    ensures NamedLength(g + [s], name) == NamedLength(g, name) + (if s.name == name then s.end - s.start else 0)
  {
    assert (g + [s])[..|g|] == g;
  }

  // ---------------------------------------------------------------------
  // Shared by the tick-by-tick simulators of the Simulator page

  /** The processes with work left, in input order. */
  function Unfinished(ps: seq<Process>, rem: seq<nat>): seq<Process>
    requires |ps| == |rem|
  {
    if ps == [] then []
    else Unfinished(ps[..|ps| - 1], rem[..|rem| - 1]) + (if rem[|rem| - 1] > 0 then [ps[|ps| - 1]] else [])
  }

  /** No element occurs twice. */
  predicate Distinct(q: seq<int>) {
    forall s, t | 0 <= s < t < |q| :: q[s] != q[t]
  }

  /** Each record completes later than the one before it. */
  predicate InCompletionOrder(rs: seq<Record>) {
    forall k | 0 <= k < |rs| - 1 :: CompletionOf(rs[k]) < CompletionOf(rs[k + 1])
  }

  /** A record completing after every logged one, and not early, keeps the log in order. */
  lemma {:induction false} LogAppend(rs: seq<Record>, rec: Record, time: int)
    requires AllConsistent(rs) && InCompletionOrder(rs)
    requires forall k | 0 <= k < |rs| :: rs[k].arrival + rs[k].burst <= CompletionOf(rs[k]) <= time
    requires time < CompletionOf(rec) && rec.arrival + rec.burst <= CompletionOf(rec)
    requires rec.waiting == rec.turnaround - rec.burst
    ensures var rs' := rs + [rec];
      && AllConsistent(rs') && InCompletionOrder(rs')
      && forall k | 0 <= k < |rs'| :: rs'[k].arrival + rs'[k].burst <= CompletionOf(rs'[k]) <= CompletionOf(rec)
  {
    var rs' := rs + [rec];
    assert forall k | 0 <= k < |rs| :: rs'[k] == rs[k];
    assert rs'[|rs|] == rec;
  }

  lemma {:induction false} UnfinishedAll(ps: seq<Process>, rem: seq<nat>)
    requires |ps| == |rem| && forall i | 0 <= i < |rem| :: rem[i] > 0
    ensures Unfinished(ps, rem) == ps
  {
    if ps != [] {
      UnfinishedAll(ps[..|ps| - 1], rem[..|rem| - 1]);
    }
  }

  lemma {:induction false} UnfinishedNone(ps: seq<Process>, rem: seq<nat>)
    requires |ps| == |rem| && forall i | 0 <= i < |rem| :: rem[i] == 0
    ensures Unfinished(ps, rem) == []
  {
    if ps != [] {
      UnfinishedNone(ps[..|ps| - 1], rem[..|rem| - 1]);
    }
  }

  /** A process with work left that finishes leaves the pending list. */
  lemma {:induction false} UnfinishedDone(ps: seq<Process>, rem: seq<nat>, m: nat)
    requires |ps| == |rem| && m < |ps| && rem[m] > 0
    ensures multiset(Unfinished(ps, rem)) == multiset(Unfinished(ps, rem[m := 0])) + multiset{ps[m]}
  {
    var n := |ps| - 1;
    assert rem[m := 0][..n] == if m == n then rem[..n] else rem[..n][m := 0];
    if m < n {
      UnfinishedDone(ps[..n], rem[..n], m);
    }
  }

  /** A process that still has work after a tick stays pending. */
  lemma {:induction false} UnfinishedSame(ps: seq<Process>, rem: seq<nat>, m: nat, v: nat)
    requires |ps| == |rem| && m < |ps| && rem[m] > 0 && v > 0
    ensures Unfinished(ps, rem[m := v]) == Unfinished(ps, rem)
  {
    var n := |ps| - 1;
    assert rem[m := v][..n] == if m == n then rem[..n] else rem[..n][m := v];
    if m < n {
      UnfinishedSame(ps[..n], rem[..n], m, v);
    }
  }

  lemma {:induction false} LengthAppend(g: seq<Segment>, s: Segment)
    ensures Length(g + [s]) == Length(g) + (s.end - s.start)
  {
    assert (g + [s])[..|g|] == g;
  }
}
