/**
 * Nested linear and unordered flows, and the runs they allow: a linear flow runs its parts one
 * after the other, an unordered flow runs them in any interleaving.
 */
module Flows {

  datatype Flow<T> = Atom(task: T) | Linear(parts: seq<Flow<T>>) | Unordered(parts: seq<Flow<T>>)

  // ---- runs ----

  /** r interleaves a and b. */
  ghost predicate Merges<T>(a: seq<T>, b: seq<T>, r: seq<T>)
    decreases |r|
  {
    if r == [] then a == [] && b == []
    else
      || (a != [] && a[0] == r[0] && Merges(a[1..], b, r[1..]))
      || (b != [] && b[0] == r[0] && Merges(a, b[1..], r[1..]))
  }

  ghost predicate IsRun<T(!new)>(f: Flow<T>, run: seq<T>) {
    match f
    case Atom(t) => run == [t]
    case Linear(parts) => LinearRun(parts, run)
    case Unordered(parts) => UnorderedRun(parts, run)
  }

  ghost predicate LinearRun<T(!new)>(parts: seq<Flow<T>>, run: seq<T>) {
    if parts == [] then run == []
    else exists a, b :: run == a + b && IsRun(parts[0], a) && LinearRun(parts[1..], b)
  }

  ghost predicate UnorderedRun<T(!new)>(parts: seq<Flow<T>>, run: seq<T>) {
    if parts == [] then run == []
    else exists a, b :: Merges(a, b, run) && IsRun(parts[0], a) && UnorderedRun(parts[1..], b)
  }

  // ---- what a run contains ----

  ghost function Tasks<T>(f: Flow<T>): multiset<T> {
    match f
    case Atom(t) => multiset{t}
    case Linear(parts) => AllTasks(parts)
    case Unordered(parts) => AllTasks(parts)
  }

  ghost function AllTasks<T>(parts: seq<Flow<T>>): multiset<T> {
    if parts == [] then multiset{} else Tasks(parts[0]) + AllTasks(parts[1..])
  }

  lemma {:induction false} MergeTasks<T>(a: seq<T>, b: seq<T>, r: seq<T>)
    requires Merges(a, b, r)
    ensures multiset(r) == multiset(a) + multiset(b)
    decreases |r|
  {
    if r != [] {
      assert r == [r[0]] + r[1..];
      if a != [] && a[0] == r[0] && Merges(a[1..], b, r[1..]) {
        assert a == [a[0]] + a[1..];
        MergeTasks(a[1..], b, r[1..]);
      } else {
        assert b == [b[0]] + b[1..];
        MergeTasks(a, b[1..], r[1..]);
      }
    }
  }

  /** Every run does every task of the flow, as often as it is in the flow. */
  lemma {:induction false} RunTasks<T(!new)>(f: Flow<T>, run: seq<T>)
    requires IsRun(f, run)
    ensures multiset(run) == Tasks(f)
    decreases f
  {
    match f
    case Atom(t) =>
    case Linear(parts) => LinearTasks(parts, run);
    case Unordered(parts) => UnorderedTasks(parts, run);
  }

  lemma {:induction false} LinearTasks<T(!new)>(parts: seq<Flow<T>>, run: seq<T>)
    requires LinearRun(parts, run)
    ensures multiset(run) == AllTasks(parts)
    decreases parts
  {
    if parts != [] {
      var a, b :| run == a + b && IsRun(parts[0], a) && LinearRun(parts[1..], b);
      RunTasks(parts[0], a);
      LinearTasks(parts[1..], b);
    }
  }

  lemma {:induction false} UnorderedTasks<T(!new)>(parts: seq<Flow<T>>, run: seq<T>)
    requires UnorderedRun(parts, run)
    ensures multiset(run) == AllTasks(parts)
    decreases parts
  {
    if parts != [] {
      var a, b :| Merges(a, b, run) && IsRun(parts[0], a) && UnorderedRun(parts[1..], b);
      RunTasks(parts[0], a);
      UnorderedTasks(parts[1..], b);
      MergeTasks(a, b, run);
    }
  }

  lemma {:induction false} InTasks<T>(parts: seq<Flow<T>>, t: T)
    ensures t in AllTasks(parts) <==> exists i :: 0 <= i < |parts| && t in Tasks(parts[i])
  {
    if parts != [] {
      InTasks(parts[1..], t);
      assert forall i :: 0 <= i < |parts[1..]| ==> parts[1..][i] == parts[i + 1];
      assert forall i :: 0 < i < |parts| ==> parts[i] == parts[1..][i - 1];
    }
  }

  // ---- some run ----

  lemma {:induction false} MergeBoth<T>(a: seq<T>, b: seq<T>)
    ensures Merges(a, b, a + b) && Merges(a, b, b + a)
    decreases |a| + |b|
  {
    if a != [] {
      MergeBoth(a[1..], b);
      assert (a + b)[1..] == a[1..] + b;
    } else if b != [] {
      MergeBoth(a, b[1..]);
      assert (a + b)[1..] == a + b[1..];
    }
    if b != [] {
      MergeBoth(a, b[1..]);
      assert (b + a)[1..] == b[1..] + a;
    } else if a != [] {
      MergeBoth(a[1..], b);
      assert (b + a)[1..] == b + a[1..];
    }
  }

  lemma {:induction false} SomeRun<T(!new)>(f: Flow<T>) returns (run: seq<T>)
    ensures IsRun(f, run)
    decreases f
  {
    match f
    case Atom(t) => run := [t];
    case Linear(parts) => run := SomeLinear(parts);
    case Unordered(parts) => run := SomeUnordered(parts);
  }

  lemma {:induction false} SomeLinear<T(!new)>(parts: seq<Flow<T>>) returns (run: seq<T>)
    ensures LinearRun(parts, run)
    decreases parts
  {
    run := [];
    if parts != [] {
      var a := SomeRun(parts[0]);
      var b := SomeLinear(parts[1..]);
      run := a + b;
    }
  }

  lemma {:induction false} SomeUnordered<T(!new)>(parts: seq<Flow<T>>) returns (run: seq<T>)
    ensures UnorderedRun(parts, run)
    decreases parts
  {
    run := [];
    if parts != [] {
      var a := SomeRun(parts[0]);
      var b := SomeUnordered(parts[1..]);
      MergeBoth(a, b);
      run := a + b;
    }
  }

  // ---- order ----

  /** Every x of the run comes before every y of it. */
  ghost predicate Before<T>(run: seq<T>, x: T, y: T) {
    forall i, j :: 0 <= i <= j < |run| ==> !(run[i] == y && run[j] == x)
  }

  ghost predicate AlwaysBefore<T(!new)>(f: Flow<T>, x: T, y: T) {
    forall run :: IsRun(f, run) ==> Before(run, x, y)
  }

  lemma BeforeConcat<T>(a: seq<T>, b: seq<T>, x: T, y: T)
    ensures Before(a + b, x, y) <==> Before(a, x, y) && Before(b, x, y) && !(y in a && x in b)
  {
    var r := a + b;
    if Before(r, x, y) {
      forall i, j | 0 <= i <= j < |a| ensures !(a[i] == y && a[j] == x) {
        assert r[i] == a[i] && r[j] == a[j];
      }
      forall i, j | 0 <= i <= j < |b| ensures !(b[i] == y && b[j] == x) {
        assert r[|a| + i] == b[i] && r[|a| + j] == b[j];
      }
      forall i, j | 0 <= i < |a| && 0 <= j < |b| ensures !(a[i] == y && b[j] == x) {
        assert r[i] == a[i] && r[|a| + j] == b[j];
      }
    }
  }

  lemma {:induction false} BeforeMerge<T>(a: seq<T>, b: seq<T>, r: seq<T>, x: T, y: T)
    requires Merges(a, b, r) && Before(a, x, y) && Before(b, x, y)
    requires !(y in a && x in b) && !(x in a && y in b)
    ensures Before(r, x, y)
    decreases |r|
  {
    if r != [] {
      MergeTasks(a, b, r);
      assert x in r <==> x in multiset(r);
      assert x in a <==> x in multiset(a);
      assert x in b <==> x in multiset(b);
      assert r == [r[0]] + r[1..];
      if a != [] && a[0] == r[0] && Merges(a[1..], b, r[1..]) {
        assert a == [a[0]] + a[1..];
        BeforeConcat([a[0]], a[1..], x, y);
        BeforeMerge(a[1..], b, r[1..], x, y);
        MergeTasks(a[1..], b, r[1..]);
        assert x in r[1..] <==> x in multiset(r[1..]);
        assert x in a[1..] <==> x in multiset(a[1..]);
      } else {
        assert b == [b[0]] + b[1..];
        BeforeConcat([b[0]], b[1..], x, y);
        BeforeMerge(a, b[1..], r[1..], x, y);
        MergeTasks(a, b[1..], r[1..]);
        assert x in r[1..] <==> x in multiset(r[1..]);
        assert x in b[1..] <==> x in multiset(b[1..]);
      }
      BeforeConcat([r[0]], r[1..], x, y);
    }
  }

  /** The structure of the flow puts every x before every y. */
  ghost predicate Must<T>(f: Flow<T>, x: T, y: T) {
    match f
    case Atom(t) => !(t == x && t == y)
    case Linear(parts) => MustLinear(parts, x, y)
    case Unordered(parts) => MustUnordered(parts, x, y)
  }

  ghost predicate MustLinear<T>(parts: seq<Flow<T>>, x: T, y: T) {
    parts != [] ==>
      && Must(parts[0], x, y) && MustLinear(parts[1..], x, y)
      && !(y in Tasks(parts[0]) && x in AllTasks(parts[1..]))
  }

  ghost predicate MustUnordered<T>(parts: seq<Flow<T>>, x: T, y: T) {
    parts != [] ==>
      && Must(parts[0], x, y) && MustUnordered(parts[1..], x, y)
      && !(y in Tasks(parts[0]) && x in AllTasks(parts[1..]))
      && !(x in Tasks(parts[0]) && y in AllTasks(parts[1..]))
  }

  lemma {:induction false} MustSound<T(!new)>(f: Flow<T>, x: T, y: T, run: seq<T>)
    requires Must(f, x, y) && IsRun(f, run)
    ensures Before(run, x, y)
    decreases f
  {
    match f
    case Atom(t) =>
    case Linear(parts) => MustLinearSound(parts, x, y, run);
    case Unordered(parts) => MustUnorderedSound(parts, x, y, run);
  }

  lemma {:induction false} MustLinearSound<T(!new)>(parts: seq<Flow<T>>, x: T, y: T, run: seq<T>)
    requires MustLinear(parts, x, y) && LinearRun(parts, run)
    ensures Before(run, x, y)
    decreases parts
  {
    if parts != [] {
      var a, b :| run == a + b && IsRun(parts[0], a) && LinearRun(parts[1..], b);
      MustSound(parts[0], x, y, a);
      MustLinearSound(parts[1..], x, y, b);
      RunTasks(parts[0], a);
      LinearTasks(parts[1..], b);
      assert y in a <==> y in multiset(a);
      assert x in b <==> x in multiset(b);
      BeforeConcat(a, b, x, y);
    }
  }

  lemma {:induction false} MustUnorderedSound<T(!new)>(parts: seq<Flow<T>>, x: T, y: T, run: seq<T>)
    requires MustUnordered(parts, x, y) && UnorderedRun(parts, run)
    ensures Before(run, x, y)
    decreases parts
  {
    if parts != [] {
      var a, b :| Merges(a, b, run) && IsRun(parts[0], a) && UnorderedRun(parts[1..], b);
      MustSound(parts[0], x, y, a);
      MustUnorderedSound(parts[1..], x, y, b);
      RunTasks(parts[0], a);
      UnorderedTasks(parts[1..], b);
      assert (y in a <==> y in multiset(a)) && (x in a <==> x in multiset(a));
      assert (x in b <==> x in multiset(b)) && (y in b <==> y in multiset(b));
      BeforeMerge(a, b, run, x, y);
    }
  }

  /** A run in which some y does not come after every x. */
  lemma {:induction false} BadRun<T(!new)>(f: Flow<T>, x: T, y: T) returns (run: seq<T>)
    requires !Must(f, x, y)
    ensures IsRun(f, run) && !Before(run, x, y)
    decreases f
  {
    match f
    case Atom(t) =>
      run := [t];
      assert run[0] == y && run[0] == x;
    case Linear(parts) => run := BadLinear(parts, x, y);
    case Unordered(parts) => run := BadUnordered(parts, x, y);
  }

  lemma {:induction false} BadLinear<T(!new)>(parts: seq<Flow<T>>, x: T, y: T) returns (run: seq<T>)
    requires !MustLinear(parts, x, y)
    ensures LinearRun(parts, run) && !Before(run, x, y)
    decreases parts
  {
    var a := SomeRun(parts[0]);
    var b := SomeLinear(parts[1..]);
    if !Must(parts[0], x, y) {
      a := BadRun(parts[0], x, y);
    } else if !MustLinear(parts[1..], x, y) {
      b := BadLinear(parts[1..], x, y);
    }
    RunTasks(parts[0], a);
    LinearTasks(parts[1..], b);
    assert y in a <==> y in multiset(a);
    assert x in b <==> x in multiset(b);
    BeforeConcat(a, b, x, y);
    run := a + b;
  }

  lemma {:induction false} BadUnordered<T(!new)>(parts: seq<Flow<T>>, x: T, y: T) returns (run: seq<T>)
    requires !MustUnordered(parts, x, y)
    ensures UnorderedRun(parts, run) && !Before(run, x, y)
    decreases parts
  {
    var a := SomeRun(parts[0]);
    var b := SomeUnordered(parts[1..]);
    if !Must(parts[0], x, y) {
      a := BadRun(parts[0], x, y);
    } else if !MustUnordered(parts[1..], x, y) {
      b := BadUnordered(parts[1..], x, y);
    }
    RunTasks(parts[0], a);
    UnorderedTasks(parts[1..], b);
    assert (y in a <==> y in multiset(a)) && (x in a <==> x in multiset(a));
    assert (x in b <==> x in multiset(b)) && (y in b <==> y in multiset(b));
    BeforeConcat(a, b, x, y);
    BeforeConcat(b, a, x, y);
    MergeBoth(a, b);
    run := if Before(a + b, x, y) then b + a else a + b;
  }

  /** The order is kept by every run exactly if the structure demands it. */
  lemma MustExact<T(!new)>(f: Flow<T>, x: T, y: T)
    ensures AlwaysBefore(f, x, y) <==> Must(f, x, y)
  {
    if Must(f, x, y) {
      forall run | IsRun(f, run) ensures Before(run, x, y) {
        MustSound(f, x, y, run);
      }
    } else {
      var run := BadRun(f, x, y);
    }
  }

  // ---- order, by parts ----

  /** t is in the p-th part, and in no other. */
  ghost predicate OnlyIn<T(!new)>(parts: seq<Flow<T>>, p: nat, t: T) {
    p < |parts| && t in Tasks(parts[p]) && forall k :: 0 <= k < |parts| && k != p ==> t !in Tasks(parts[k])
  }

  /** Without x, or without y, there is nothing to order. */
  lemma {:induction false} MustAbsent<T(!new)>(f: Flow<T>, x: T, y: T)
    requires x !in Tasks(f) || y !in Tasks(f)
    ensures Must(f, x, y)
  {
    forall run | IsRun(f, run) ensures Before(run, x, y) {
      RunTasks(f, run);
      assert (x in run <==> x in multiset(run)) && (y in run <==> y in multiset(run));
    }
    MustExact(f, x, y);
  }

  lemma OnlyInTail<T(!new)>(parts: seq<Flow<T>>, p: nat, t: T)
    requires parts != [] && OnlyIn(parts, p, t)
    ensures t in Tasks(parts[0]) <==> p == 0
    ensures t in AllTasks(parts[1..]) <==> p > 0
    ensures p > 0 ==> OnlyIn(parts[1..], p - 1, t)
  {
    InTasks(parts[1..], t);
    assert forall i :: 0 <= i < |parts[1..]| ==> parts[1..][i] == parts[i + 1];
    if p > 0 {
      assert parts[1..][p - 1] == parts[p];
    }
  }

  lemma {:induction false} MustLinearAbsent<T(!new)>(parts: seq<Flow<T>>, x: T, y: T)
    requires x !in AllTasks(parts) || y !in AllTasks(parts)
    ensures MustLinear(parts, x, y) && MustUnordered(parts, x, y)
  {
    if parts != [] {
      MustAbsent(parts[0], x, y);
      MustLinearAbsent(parts[1..], x, y);
    }
  }

  /** A linear flow orders tasks by their parts, and tasks of one part as that part does. */
  lemma {:induction false} LinearOrder<T(!new)>(parts: seq<Flow<T>>, x: T, y: T, p: nat, q: nat)
    requires OnlyIn(parts, p, x) && OnlyIn(parts, q, y)
    ensures MustLinear(parts, x, y) <==> p < q || (p == q && Must(parts[p], x, y))
    decreases p + q
  {
    OnlyInTail(parts, p, x);
    OnlyInTail(parts, q, y);
    hide OnlyIn, Tasks, AllTasks;
    if p > 0 && q > 0 {
      LinearOrder(parts[1..], x, y, p - 1, q - 1);
      MustAbsent(parts[0], x, y);
    } else {
      MustLinearAbsent(parts[1..], x, y);
      if p != q {
        MustAbsent(parts[0], x, y);
      }
    }
  }

  /** An unordered flow orders only tasks of one part, as that part does. */
  lemma {:induction false} UnorderedOrder<T(!new)>(parts: seq<Flow<T>>, x: T, y: T, p: nat, q: nat)
    requires OnlyIn(parts, p, x) && OnlyIn(parts, q, y)
    ensures MustUnordered(parts, x, y) <==> p == q && Must(parts[p], x, y)
    decreases p + q
  {
    OnlyInTail(parts, p, x);
    OnlyInTail(parts, q, y);
    hide OnlyIn, Tasks, AllTasks;
    if p > 0 && q > 0 {
      UnorderedOrder(parts[1..], x, y, p - 1, q - 1);
      MustAbsent(parts[0], x, y);
    } else {
      MustLinearAbsent(parts[1..], x, y);
      if p != q {
        MustAbsent(parts[0], x, y);
      }
    }
  }

  /** A task of one part only is in the whole as often as in that part. */
  lemma {:induction false} OnlyInCount<T(!new)>(parts: seq<Flow<T>>, p: nat, t: T)
    requires OnlyIn(parts, p, t)
    ensures AllTasks(parts)[t] == Tasks(parts[p])[t]
    decreases p
  {
    OnlyInTail(parts, p, t);
    if p > 0 {
      OnlyInCount(parts[1..], p - 1, t);
    }
  }

  // ---- leaving out empty flows ----

  predicate IsEmpty<T(==)>(f: Flow<T>) {
    !f.Atom? && f.parts == []
  }

  /** The flow without empty sub-flows, from the inside out. */
  function Prune<T(==)>(f: Flow<T>): Flow<T> {
    match f
    case Atom(t) => f
    case Linear(parts) => Linear(PruneAll(parts))
    case Unordered(parts) => Unordered(PruneAll(parts))
  }

  function PruneAll<T(==)>(parts: seq<Flow<T>>): seq<Flow<T>> {
    if parts == [] then []
    else (if IsEmpty(Prune(parts[0])) then [] else [Prune(parts[0])]) + PruneAll(parts[1..])
  }

  lemma {:induction false} PruneAppends<T>(parts: seq<Flow<T>>, f: Flow<T>)
    ensures PruneAll(parts + [f]) == PruneAll(parts) + if IsEmpty(Prune(f)) then [] else [Prune(f)]
  {
    if parts == [] {
      assert [f][1..] == [];
    } else {
      assert (parts + [f])[0] == parts[0] && (parts + [f])[1..] == parts[1..] + [f];
      PruneAppends(parts[1..], f);
    }
  }

  lemma MergeNothing<T>(b: seq<T>)
    ensures Merges([], b, b)
  {
    MergeBoth([], b);
    assert [] + b == b;
  }

  lemma {:induction false} MergesNothing<T>(a: seq<T>, b: seq<T>, r: seq<T>)
    requires Merges(a, b, r) && a == []
    ensures r == b
    decreases |r|
  {
    if r != [] {
      MergesNothing(a, b[1..], r[1..]);
      assert b == [b[0]] + b[1..] && r == [r[0]] + r[1..];
    }
  }

  /** Leaving out empty sub-flows does not change the runs of a flow. */
  lemma {:induction false} PruneKeepsRuns<T(!new)>(f: Flow<T>, run: seq<T>)
    ensures IsRun(Prune(f), run) <==> IsRun(f, run)
    decreases f
  {
    match f
    case Atom(t) =>
    case Linear(parts) => PruneKeepsLinear(parts, run);
    case Unordered(parts) => PruneKeepsUnordered(parts, run);
  }

  lemma EmptyRuns<T(!new)>(f: Flow<T>, run: seq<T>)
    requires IsEmpty(f)
    ensures IsRun(f, run) <==> run == []
  {
  }

  lemma {:induction false} PruneKeepsLinear<T(!new)>(parts: seq<Flow<T>>, run: seq<T>)
    ensures LinearRun(PruneAll(parts), run) <==> LinearRun(parts, run)
    decreases parts
  {
    if parts != [] {
      var head, rest := Prune(parts[0]), PruneAll(parts[1..]);
      forall a, b | run == a + b
        ensures IsRun(head, a) && LinearRun(rest, b) <==> IsRun(parts[0], a) && LinearRun(parts[1..], b)
      {
        PruneKeepsRuns(parts[0], a);
        PruneKeepsLinear(parts[1..], b);
      }
      LinearSplit(head, rest, run);
      LinearSplit(parts[0], parts[1..], run);
      assert parts == [parts[0]] + parts[1..];
      hide LinearRun, IsRun;
      if IsEmpty(head) {
        assert PruneAll(parts) == rest;
        DropEmptyLinear(head, rest, run);
      }
    }
  }

  /** A run of a linear flow is one of its first part and one of the others. */
  lemma LinearSplit<T(!new)>(f: Flow<T>, rest: seq<Flow<T>>, run: seq<T>)
    ensures LinearRun([f] + rest, run) <==> exists a, b :: run == a + b && IsRun(f, a) && LinearRun(rest, b)
  {
    assert ([f] + rest)[1..] == rest;
  }

  lemma DropEmptyLinear<T(!new)>(f: Flow<T>, rest: seq<Flow<T>>, run: seq<T>)
    requires IsEmpty(f)
    ensures LinearRun([f] + rest, run) <==> LinearRun(rest, run)
  {
    LinearSplit(f, rest, run);
    assert run == [] + run;
    EmptyRuns(f, []);
    forall a, b | run == a + b && IsRun(f, a) ensures run == b {
      EmptyRuns(f, a);
    }
  }

  lemma {:induction false} PruneKeepsUnordered<T(!new)>(parts: seq<Flow<T>>, run: seq<T>)
    ensures UnorderedRun(PruneAll(parts), run) <==> UnorderedRun(parts, run)
    decreases parts
  {
    if parts != [] {
      var head, rest := Prune(parts[0]), PruneAll(parts[1..]);
      forall a, b | Merges(a, b, run)
        ensures IsRun(head, a) && UnorderedRun(rest, b) <==> IsRun(parts[0], a) && UnorderedRun(parts[1..], b)
      {
        PruneKeepsRuns(parts[0], a);
        PruneKeepsUnordered(parts[1..], b);
      }
      assert ([head] + rest)[1..] == rest;
      UnorderedSplit([head] + rest, run);
      UnorderedSplit(parts, run);
      hide UnorderedRun, IsRun;
      if IsEmpty(head) {
        assert PruneAll(parts) == rest;
        DropEmptyUnordered(head, rest, run);
      }
    }
  }

  /** A run of an unordered flow interleaves one of its first part with one of the others. */
  ghost predicate Interleaved<T(!new)>(f: Flow<T>, rest: seq<Flow<T>>, run: seq<T>) {
    exists a, b :: Merges(a, b, run) && IsRun(f, a) && UnorderedRun(rest, b)
  }

  lemma UnorderedSplit<T(!new)>(parts: seq<Flow<T>>, run: seq<T>)
    requires parts != []
    ensures UnorderedRun(parts, run) <==> Interleaved(parts[0], parts[1..], run)
  {
  }

  lemma DropEmptyUnordered<T(!new)>(f: Flow<T>, rest: seq<Flow<T>>, run: seq<T>)
    requires IsEmpty(f)
    ensures UnorderedRun([f] + rest, run) <==> UnorderedRun(rest, run)
  {
    assert ([f] + rest)[1..] == rest;
    UnorderedSplit([f] + rest, run);
    MergeNothing(run);
    EmptyRuns(f, []);
    forall a, b | Merges(a, b, run) && IsRun(f, a) ensures run == b {
      EmptyRuns(f, a);
      MergesNothing(a, b, run);
    }
  }
}
