/**
 * The orders the simulators sort processes by, and a stable sort.
 *
 * JavaScript's `Array.prototype.sort` is stable: elements the comparator
 * calls equal keep their input order. `Sort` below is an insertion sort with
 * that property; it is proved to return a sorted permutation of its input in
 * which every class of equal elements keeps its input order.
 *
 * `String.prototype.localeCompare` is modelled by `NameLess`, the
 * lexicographic order on character codes.
 */
module Sorting {
  import opened Scheduling

  /** Lexicographic order on character codes; a proper prefix comes first. */
  predicate NameLess(a: string, b: string)
    decreases |a|
  {
    if |a| == 0 then |b| > 0
    else if |b| == 0 then false
    else if a[0] != b[0] then a[0] < b[0]
    else NameLess(a[1..], b[1..])
  }

  lemma {:induction false} NameLessAsymmetric(a: string, b: string)
    ensures NameLess(a, b) ==> !NameLess(b, a)
    decreases |a|
  {
    if |a| > 0 && |b| > 0 && a[0] == b[0] {
      NameLessAsymmetric(a[1..], b[1..]);
    }
  }

  lemma {:induction false} NameLessTotal(a: string, b: string)
    ensures a == b || NameLess(a, b) || NameLess(b, a)
    decreases |a|
  {
    if |a| > 0 && |b| > 0 && a[0] == b[0] {
      NameLessTotal(a[1..], b[1..]);
      if a[1..] == b[1..] {
        assert a == [a[0]] + a[1..] && b == [b[0]] + b[1..];
      }
    }
  }

  lemma {:induction false} NameLessTransitive(a: string, b: string, c: string)
    ensures NameLess(a, b) && NameLess(b, c) ==> NameLess(a, c)
    decreases |a|
  {
    if |a| > 0 && |b| > 0 && |c| > 0 && a[0] == b[0] == c[0] {
      NameLessTransitive(a[1..], b[1..], c[1..]);
    }
  }

  /** The comparators of the simulators that sort a whole list. */
  datatype SortKey =
    | ByArrivalThenName  // `a.arrival - b.arrival || a.name.localeCompare(b.name)`
    | ByArrival          // `a.arrival - b.arrival`
    | ByBurst            // `a.burst - b.burst`

  /** `p` may come before `q`: the comparator does not return a positive number. */
  predicate Le(k: SortKey, p: Process, q: Process) {
    match k
    case ByArrivalThenName => p.arrival < q.arrival || (p.arrival == q.arrival && !NameLess(q.name, p.name))
    case ByArrival => p.arrival <= q.arrival
    case ByBurst => p.burst <= q.burst
  }

  /** The comparator calls `p` and `q` equal. */
  predicate Equivalent(k: SortKey, p: Process, q: Process) {
    Le(k, p, q) && Le(k, q, p)
  }

  lemma {:induction false} LeTotal(k: SortKey, p: Process, q: Process)
    ensures Le(k, p, q) || Le(k, q, p)
  {
    if k.ByArrivalThenName? { NameLessAsymmetric(p.name, q.name); }
  }

  lemma {:induction false} LeTransitive(k: SortKey, p: Process, q: Process, r: Process)
    requires Le(k, p, q) && Le(k, q, r)
    ensures Le(k, p, r)
  {
    if k.ByArrivalThenName? && p.arrival == q.arrival == r.arrival && NameLess(r.name, p.name) {
      NameLessTotal(p.name, q.name);
      NameLessTransitive(r.name, p.name, q.name);
    }
  }

  predicate Sorted(k: SortKey, s: seq<Process>) {
    forall i, j | 0 <= i < j < |s| :: Le(k, s[i], s[j])
  }

  /** Puts `x` before the first element it may precede. */
  function Insert(k: SortKey, x: Process, s: seq<Process>): (r: seq<Process>)
    ensures multiset(r) == multiset(s) + multiset{x}
  {
    if s == [] then [x]
    else if Le(k, x, s[0]) then [x] + s
    else
      assert s == [s[0]] + s[1..];
      [s[0]] + Insert(k, x, s[1..])
  }

  lemma {:induction false} InsertSorted(k: SortKey, x: Process, s: seq<Process>)
    requires Sorted(k, s)
    ensures Sorted(k, Insert(k, x, s))
  {
    if s == [] {
    } else if Le(k, x, s[0]) {
      InsertSortedFront(k, x, s);
    } else {
      assert Sorted(k, s[1..]);
      InsertSorted(k, x, s[1..]);
      InsertSortedLater(k, x, s);
    }
  }

  /** `x` goes first: it may precede the first element, hence every element. */
  lemma {:induction false} InsertSortedFront(k: SortKey, x: Process, s: seq<Process>)
    requires Sorted(k, s) && s != [] && Le(k, x, s[0])
    ensures Sorted(k, [x] + s)
  {
    forall j | 0 <= j < |s| ensures Le(k, x, s[j]) {
      if j > 0 { LeTransitive(k, x, s[0], s[j]); }
    }
    var r := [x] + s;
    forall i, j | 0 <= i < j < |r| ensures Le(k, r[i], r[j]) {
      assert r[j] == s[j - 1];
      if i > 0 { assert r[i] == s[i - 1]; }
    }
  }

  /** `x` goes after the first element, which may precede everything behind it. */
  lemma {:induction false} InsertSortedLater(k: SortKey, x: Process, s: seq<Process>)
    requires Sorted(k, s) && s != [] && !Le(k, x, s[0])
    requires Sorted(k, Insert(k, x, s[1..]))
    ensures Sorted(k, Insert(k, x, s))
  {
    var t := Insert(k, x, s[1..]);
    LeTotal(k, x, s[0]);
    forall j | 0 <= j < |t| ensures Le(k, s[0], t[j]) {
      assert t[j] in multiset(t);
      if t[j] != x {
        assert t[j] in multiset(s[1..]);
        var m :| 0 <= m < |s[1..]| && s[1..][m] == t[j];
        assert s[m + 1] == t[j];
      }
    }
    var r := [s[0]] + t;
    assert Insert(k, x, s) == r;
    forall i, j | 0 <= i < j < |r| ensures Le(k, r[i], r[j]) {
      assert r[j] == t[j - 1];
      if i > 0 { assert r[i] == t[i - 1]; }
    }
  }

  /** The stable insertion sort: a sorted permutation of `s`. */
  function Sort(k: SortKey, s: seq<Process>): (r: seq<Process>)
    ensures multiset(r) == multiset(s) && |r| == |s|
    ensures Sorted(k, r)
  {
    if s == [] then []
    else
      assert s == [s[0]] + s[1..];
      var t := Sort(k, s[1..]);
      InsertSorted(k, s[0], t);
      var r := Insert(k, s[0], t);
      assert |r| == |multiset(r)| == |multiset(s)| == |s|;
      r
  }

  /** The elements of `s` the comparator calls equal to `e`, in their order in `s`. */
  function Class(k: SortKey, s: seq<Process>, e: Process): seq<Process> {
    if s == [] then []
    else (if Equivalent(k, s[0], e) then [s[0]] else []) + Class(k, s[1..], e)
  }

  /** The class of a list with a first element. */
  lemma {:induction false} ClassCons(k: SortKey, y: Process, t: seq<Process>, e: Process)
    ensures Class(k, [y] + t, e) == (if Equivalent(k, y, e) then [y] else []) + Class(k, t, e)
  {
    assert ([y] + t)[1..] == t;
  }

  lemma {:induction false} InsertClass(k: SortKey, x: Process, s: seq<Process>, e: Process)
    ensures Class(k, Insert(k, x, s), e) == (if Equivalent(k, x, e) then [x] else []) + Class(k, s, e)
  {
    if s == [] {
      ClassCons(k, x, [], e);
    } else if Le(k, x, s[0]) {
      ClassCons(k, x, s, e);
    } else {
      InsertClass(k, x, s[1..], e);
      InsertClassLater(k, x, s, e);
    }
  }

  /** `x` goes after the first element: its class is unchanged in front of `x`. */
  lemma {:induction false} InsertClassLater(k: SortKey, x: Process, s: seq<Process>, e: Process)
    requires s != [] && !Le(k, x, s[0])
    requires Class(k, Insert(k, x, s[1..]), e) == (if Equivalent(k, x, e) then [x] else []) + Class(k, s[1..], e)
    ensures Class(k, Insert(k, x, s), e) == (if Equivalent(k, x, e) then [x] else []) + Class(k, s, e)
  {
    var head := if Equivalent(k, x, e) then [x] else [];
    var h0 := if Equivalent(k, s[0], e) then [s[0]] else [];
    var t := Insert(k, x, s[1..]);
    ClassCons(k, s[0], t, e);
    assert s == [s[0]] + s[1..];
    ClassCons(k, s[0], s[1..], e);
    if head != [] && h0 != [] {
      LeTransitive(k, x, e, s[0]);
    }
    SwapFront(h0, head, Class(k, s[1..], e));
  }

  /** Two prefixes one of which is empty commute. */
  lemma {:induction false} SwapFront(a: seq<Process>, b: seq<Process>, c: seq<Process>)
    requires a == [] || b == []
    ensures a + (b + c) == b + (a + c)
  {
    if a == [] {
      assert a + (b + c) == b + c == b + (a + c);
    } else {
      assert a + (b + c) == a + c == b + (a + c);
    }
  }

  /** Stability: each class of equal elements keeps its input order. */
  lemma {:induction false} SortStable(k: SortKey, s: seq<Process>, e: Process)
    ensures Class(k, Sort(k, s), e) == Class(k, s, e)
  {
    if s != [] {
      SortStable(k, s[1..], e);
      InsertClass(k, s[0], Sort(k, s[1..]), e);
    }
  }

  /** Sorting keeps names distinct. */
  lemma {:induction false} SortUniqueNames(k: SortKey, s: seq<Process>)
    requires UniqueNames(s)
    ensures UniqueNames(Sort(k, s))
  {
    if s != [] {
      var t := Sort(k, s[1..]);
      assert UniqueNames(s[1..]);
      SortUniqueNames(k, s[1..]);
      forall y | y in t ensures y.name != s[0].name {
        assert y in multiset(s[1..]);
        var j :| 0 <= j < |s[1..]| && s[1..][j] == y;
        assert s[j + 1] == y;
      }
      InsertUniqueNames(k, s[0], t);
    }
  }

  lemma {:induction false} InsertUniqueNames(k: SortKey, x: Process, s: seq<Process>)
    requires UniqueNames(s) && forall y | y in s :: y.name != x.name
    ensures UniqueNames(Insert(k, x, s))
  {
    if s != [] && !Le(k, x, s[0]) {
      assert UniqueNames(s[1..]);
      InsertUniqueNames(k, x, s[1..]);
      InsertUniqueNamesLater(k, x, s);
    }
  }

  lemma {:induction false} InsertUniqueNamesLater(k: SortKey, x: Process, s: seq<Process>)
    requires UniqueNames(s) && forall y | y in s :: y.name != x.name
    requires s != [] && !Le(k, x, s[0]) && UniqueNames(Insert(k, x, s[1..]))
    ensures UniqueNames(Insert(k, x, s))
  {
    var t := Insert(k, x, s[1..]);
    forall y | y in t ensures y.name != s[0].name {
      assert y in multiset(t);
      if y != x {
        assert y in multiset(s[1..]);
        TailNames(s, y);
      }
    }
    ConsNames(s[0], t);
    assert Insert(k, x, s) == [s[0]] + t;
  }

  /** In a list with unique names, an element of the tail does not share the head's name. */
  lemma {:induction false} TailNames(s: seq<Process>, y: Process)
    requires UniqueNames(s) && s != [] && y in s[1..]
    ensures y.name != s[0].name
  {
    var m :| 0 <= m < |s[1..]| && s[1..][m] == y;
    assert s[m + 1] == y;
  }

  /** A head whose name is not in a tail with unique names keeps them unique. */
  lemma {:induction false} ConsNames(y: Process, t: seq<Process>)
    requires UniqueNames(t) && forall z | z in t :: z.name != y.name
    ensures UniqueNames([y] + t)
  {
    var r := [y] + t;
    forall i, j | 0 <= i < j < |r| ensures r[i].name != r[j].name {
      assert r[j] == t[j - 1] && r[j] in t;
      if i > 0 { assert r[i] == t[i - 1]; }
    }
  }

  lemma {:induction false} SortUniqueIds(k: SortKey, s: seq<Process>)
    requires UniqueIds(s)
    ensures UniqueIds(Sort(k, s))
  {
    if s != [] {
      var t := Sort(k, s[1..]);
      assert UniqueIds(s[1..]);
      SortUniqueIds(k, s[1..]);
      forall y | y in t ensures y.id != s[0].id {
        assert y in multiset(s[1..]);
        var j :| 0 <= j < |s[1..]| && s[1..][j] == y;
        assert s[j + 1] == y;
      }
      InsertUniqueIds(k, s[0], t);
    }
  }

  lemma {:induction false} InsertUniqueIds(k: SortKey, x: Process, s: seq<Process>)
    requires UniqueIds(s) && forall y | y in s :: y.id != x.id
    ensures UniqueIds(Insert(k, x, s))
  {
    if s != [] && !Le(k, x, s[0]) {
      assert UniqueIds(s[1..]);
      InsertUniqueIds(k, x, s[1..]);
      InsertUniqueIdsLater(k, x, s);
    }
  }

  lemma {:induction false} InsertUniqueIdsLater(k: SortKey, x: Process, s: seq<Process>)
    requires UniqueIds(s) && forall y | y in s :: y.id != x.id
    requires s != [] && !Le(k, x, s[0]) && UniqueIds(Insert(k, x, s[1..]))
    ensures UniqueIds(Insert(k, x, s))
  {
    var t := Insert(k, x, s[1..]);
    forall y | y in t ensures y.id != s[0].id {
      assert y in multiset(t);
      if y != x {
        assert y in multiset(s[1..]);
        TailIds(s, y);
      }
    }
    ConsIds(s[0], t);
    assert Insert(k, x, s) == [s[0]] + t;
  }

  /** In a list with unique ids, an element of the tail does not share the head's id. */
  lemma {:induction false} TailIds(s: seq<Process>, y: Process)
    requires UniqueIds(s) && s != [] && y in s[1..]
    ensures y.id != s[0].id
  {
    var m :| 0 <= m < |s[1..]| && s[1..][m] == y;
    assert s[m + 1] == y;
  }

  /** A head whose id is not in a tail with unique ids keeps them unique. */
  lemma {:induction false} ConsIds(y: Process, t: seq<Process>)
    requires UniqueIds(t) && forall z | z in t :: z.id != y.id
    ensures UniqueIds([y] + t)
  {
    var r := [y] + t;
    forall i, j | 0 <= i < j < |r| ensures r[i].id != r[j].id {
      assert r[j] == t[j - 1] && r[j] in t;
      if i > 0 { assert r[i] == t[i - 1]; }
    }
  }

  /** `p` is served before `q` first-come-first-serve: earlier arrival, then smaller name. */
  predicate ArrivalNameBefore(p: Process, q: Process) {
    p.arrival < q.arrival || (p.arrival == q.arrival && NameLess(p.name, q.name))
  }

  /** With distinct names, sorting by (arrival, name) gives a strictly increasing list. */
  lemma {:induction false} ArrivalNameStrict(s: seq<Process>)
    requires Sorted(ByArrivalThenName, s) && UniqueNames(s)
    ensures forall i, j | 0 <= i < j < |s| :: ArrivalNameBefore(s[i], s[j])
  {
    forall i, j | 0 <= i < j < |s| ensures ArrivalNameBefore(s[i], s[j]) {
      NameLessTotal(s[i].name, s[j].name);
    }
  }
}
