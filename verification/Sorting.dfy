/**
 The two merge sorts, over arrays in place, and what they compute: the one sorted
 permutation of their input, here `Sort`. A yield inside a sort does not touch its
 array and is left out of the methods; `Claiming` and `ReferenceSorting` put the
 yields back.
 */
module Sorting {

  ghost predicate Sorted(s: seq<int>) {
    forall i, j :: 0 <= i < j < |s| ==> s[i] <= s[j]
  }

  // ---------------------------------------------------------------- the specification

  function Insert(x: int, s: seq<int>): seq<int> {
    if s == [] || x <= s[0] then [x] + s else [s[0]] + Insert(x, s[1..])
  }

  /** The sorted permutation of s. */
  function Sort(s: seq<int>): seq<int> {
    if s == [] then [] else Insert(s[0], Sort(s[1..]))
  }

  ghost predicate AtLeast(x: int, m: multiset<int>) {
    forall e :: e in m ==> x <= e
  }

  lemma Cons(x: int, s: seq<int>)
    requires Sorted(s) && AtLeast(x, multiset(s))
    ensures Sorted([x] + s) && multiset([x] + s) == multiset{x} + multiset(s)
  {
    forall i | 0 <= i < |s| ensures x <= s[i] {
      assert s[i] in multiset(s);
    }
  }

  lemma Uncons(s: seq<int>)
    requires s != []
    ensures multiset(s) == multiset{s[0]} + multiset(s[1..])
    ensures Sorted(s) ==> Sorted(s[1..]) && AtLeast(s[0], multiset(s[1..]))
  {
    assert s == [s[0]] + s[1..];
  }

  lemma {:induction false} InsertSorted(x: int, s: seq<int>)
    requires Sorted(s)
    ensures Sorted(Insert(x, s)) && multiset(Insert(x, s)) == multiset{x} + multiset(s)
  {
    hide Sorted;
    if s == [] {
      SortedEmpty();
      Cons(x, []);
    } else {
      Uncons(s);
      if x <= s[0] {
        Cons(x, s);
      } else {
        InsertSorted(x, s[1..]);
        Cons(s[0], Insert(x, s[1..]));
      }
    }
  }

  lemma SortedEmpty()
    ensures Sorted([])
  {
  }

  lemma {:induction false} SortSorts(s: seq<int>)
    ensures Sorted(Sort(s)) && multiset(Sort(s)) == multiset(s) && |Sort(s)| == |s|
  {
    hide Sorted;
    if s == [] {
      SortedEmpty();
    } else {
      SortSorts(s[1..]);
      InsertSorted(s[0], Sort(s[1..]));
      Uncons(s);
    }
    assert |multiset(Sort(s))| == |multiset(s)|;
  }

  /** Sorted sequences with the same elements are equal. */
  lemma {:induction false} SortedUnique(s: seq<int>, t: seq<int>)
    requires Sorted(s) && Sorted(t) && multiset(s) == multiset(t)
    ensures s == t
  {
    hide Sorted;
    assert |multiset(s)| == |s| && |multiset(t)| == |t|;
    if s != [] {
      SameHead(s, t);
      Uncons(s);
      Uncons(t);
      Cancel(s[0], multiset(s[1..]), multiset(t[1..]));
      SortedUnique(s[1..], t[1..]);
      assert s == [s[0]] + s[1..] && t == [t[0]] + t[1..];
    }
  }

  lemma SameHead(s: seq<int>, t: seq<int>)
    requires Sorted(s) && Sorted(t) && multiset(s) == multiset(t) && s != [] && t != []
    ensures s[0] == t[0]
  {
    assert s[0] in multiset(t) && t[0] in multiset(s);
    assert s[0] in t && t[0] in s;
  }

  lemma Cancel(e: int, x: multiset<int>, y: multiset<int>)
    requires multiset{e} + x == multiset{e} + y
    ensures x == y
  {
    assert multiset{e} + x - multiset{e} == x && multiset{e} + y - multiset{e} == y;
  }

  /** Sort is the only sorted permutation. */
  lemma SortedIsSort(s: seq<int>, t: seq<int>)
    ensures t == Sort(s) <==> Sorted(t) && multiset(t) == multiset(s)
  {
    SortSorts(s);
    if Sorted(t) && multiset(t) == multiset(s) {
      SortedUnique(t, Sort(s));
    }
  }

  // ---------------------------------------------------------------- merging two runs

  /** Of equal heads the right one goes first. */
  function Merge(x: seq<int>, y: seq<int>): (r: seq<int>)
    ensures |r| == |x| + |y|
  {
    if x == [] then y
    else if y == [] then x
    else if x[0] < y[0] then [x[0]] + Merge(x[1..], y)
    else [y[0]] + Merge(x, y[1..])
  }

  lemma {:induction false} MergeSorted(x: seq<int>, y: seq<int>)
    requires Sorted(x) && Sorted(y)
    ensures Sorted(Merge(x, y)) && multiset(Merge(x, y)) == multiset(x) + multiset(y)
  {
    hide Sorted;
    if x != [] && y != [] {
      Uncons(x);
      Uncons(y);
      if x[0] < y[0] {
        MergeSorted(x[1..], y);
        Cons(x[0], Merge(x[1..], y));
      } else {
        MergeSorted(x, y[1..]);
        Cons(y[0], Merge(x, y[1..]));
      }
    }
  }

  lemma MergeSorts(x: seq<int>, y: seq<int>)
    ensures Merge(Sort(x), Sort(y)) == Sort(x + y)
  {
    SortSorts(x);
    SortSorts(y);
    MergeSorted(Sort(x), Sort(y));
    SortedIsSort(x + y, Merge(Sort(x), Sort(y)));
  }

  // ---------------------------------------------------------------- merges in a row

  /** A merge of the runs [from, mid) and [mid, to). */
  datatype Op = Op(from: nat, mid: nat, to: nat)

  predicate InRange(n: nat, ops: seq<Op>) {
    forall i :: 0 <= i < |ops| ==> ops[i].from <= ops[i].mid <= ops[i].to <= n
  }

  function Apply(s: seq<int>, ops: seq<Op>): (r: seq<int>)
    requires InRange(|s|, ops)
    ensures |r| == |s|
    decreases |ops|
  {
    if |ops| == 0 then s else Apply(Merged(s, ops[0].from, ops[0].mid, ops[0].to), ops[1..])
  }

  lemma {:induction false} ApplyConcat(s: seq<int>, x: seq<Op>, y: seq<Op>)
    requires InRange(|s|, x) && InRange(|s|, y)
    ensures Apply(s, x + y) == Apply(Apply(s, x), y)
    decreases |x|
  {
    hide Merged;
    if |x| == 0 {
      assert x + y == y;
    } else {
      assert (x + y)[1..] == x[1..] + y;
      ApplyConcat(Merged(s, x[0].from, x[0].mid, x[0].to), x[1..], y);
    }
  }

  lemma ApplyOne(s: seq<int>, op: Op)
    requires op.from <= op.mid <= op.to <= |s|
    ensures Apply(s, [op]) == Merged(s, op.from, op.mid, op.to)
  {
  }

  // ---------------------------------------------------------------- bottom-up

  function Least(a: int, b: int): int { if a < b then a else b }

  lemma TakeLeft(done: seq<int>, x: seq<int>, y: seq<int>)
    requires x != [] && (y == [] || x[0] < y[0])
    ensures done + Merge(x, y) == done + [x[0]] + Merge(x[1..], y)
  {
    assert y == [] ==> x == [x[0]] + x[1..];
  }

  lemma TakeRight(done: seq<int>, x: seq<int>, y: seq<int>)
    requires y != [] && (x == [] || x[0] >= y[0])
    ensures done + Merge(x, y) == done + [y[0]] + Merge(x, y[1..])
  {
    assert x == [] ==> y == [y[0]] + y[1..];
  }

  /** s with its runs s[from..mid] and s[mid..to] merged. */
  function Merged(s: seq<int>, from: nat, mid: nat, to: nat): (r: seq<int>)
    requires from <= mid <= to <= |s|
    ensures |r| == |s|
  {
    s[..from] + Merge(s[from..mid], s[mid..to]) + s[to..]
  }

  /**
   `tmp` must hold what the array holds: when the left run is used up first, what is
   left of the right run is in its place in both already.
   */
  method MergeRuns(a: array<int>, tmp: array<int>, size: nat, from: nat, mid: nat, to: nat) returns (ok: bool)
    requires a != tmp && a.Length == tmp.Length == size
    requires from <= mid && (if size == 0 then mid < to else from <= to < size && (mid <= to || to == size - 1))
    requires tmp[..] == a[..]
    modifies a, tmp
    ensures ok <==> size >= 1
    ensures ok ==> tmp[..] == a[..] == old(Merged(a[..], from, Least(mid, to) + 1, to + 1))
  {
    if mid < to && mid + 1 >= size {
      return false;      // the first comparison reads outside the array
    }
    ok := true;
    MergeInto(a, tmp, size, from, mid, to);
    ghost var merged := tmp[..];
    var i := from;
    while i <= to
      invariant from <= i <= to + 1
      invariant tmp[..] == merged
      invariant forall k :: 0 <= k < i || to < k < size ==> a[k] == tmp[k]
    {
      a[i] := tmp[i];
      i := i + 1;
    }
    assert a[..] == tmp[..];
  }

  /** The loops of merge that fill tmp. */
  method MergeInto(a: array<int>, tmp: array<int>, size: nat, from: nat, mid: nat, to: nat)
    requires a != tmp && a.Length == tmp.Length == size
    requires from <= mid && from <= to < size && (mid <= to || to == size - 1)
    requires tmp[..] == a[..]
    modifies tmp
    ensures tmp[..] == Merged(a[..], from, Least(mid, to) + 1, to + 1)
    ensures forall k :: 0 <= k < from || to < k < size ==> tmp[k] == a[k]
  {
    hide Merge, Merged;
    var k, i, j;
    ghost var done, x, y;
    k, i, j, done, x, y := MergeBoth(a, tmp, size, from, mid, to);
    ghost var half := k;
    k := MergeLeft(a, tmp, size, mid, k, i, x);
    MergeFills(a[..], tmp[..], from, Least(mid, to) + 1, half, to + 1, done, x, y);
  }

  /** Its second loop: what is left of the left run. */
  method MergeLeft(a: array<int>, tmp: array<int>, size: nat, mid: nat, from: nat, start: nat, ghost x: seq<int>) returns (k: nat)
    requires a != tmp && a.Length == tmp.Length == size && from + |x| <= size
    requires start + |x| == Least(mid + 1, size) && x == a[start..start + |x|]
    modifies tmp
    ensures k == from + |x| && forall n :: from <= n < k ==> tmp[n] == x[n - from]
    ensures forall n :: 0 <= n < from || k <= n < size ==> tmp[n] == old(tmp[n])
  {
    var i := start;
    k := from;
    while i < size && i <= mid
      invariant start <= i <= start + |x| && k == from + (i - start)
      invariant forall n :: from <= n < k ==> tmp[n] == x[n - from]
      invariant forall n :: 0 <= n < from || k <= n < size ==> tmp[n] == old(tmp[n])
    {
      tmp[k] := a[i];
      k, i := k + 1, i + 1;
    }
  }

  /** Its first loop: until one run is used up. */
  method MergeBoth(a: array<int>, tmp: array<int>, size: nat, from: nat, mid: nat, to: nat)
    returns (k: nat, i: nat, j: nat, ghost done: seq<int>, ghost x: seq<int>, ghost y: seq<int>)
    requires a != tmp && a.Length == tmp.Length == size
    requires from <= mid && from <= to < size && (mid <= to || to == size - 1)
    requires tmp[..] == a[..]
    modifies tmp
    ensures var split := Least(mid, to) + 1;
            && from <= i <= split && k == i + j - (mid + 1) <= to + 1 && |done| == k - from
            && x == a[i..split] && (i <= mid ==> y == []) && k + |x| + |y| == to + 1 && y == a[k + |x|..to + 1]
            && done + Merge(x, y) == Merge(a[from..split], a[split..to + 1])
    ensures forall n :: from <= n < k ==> tmp[n] == done[n - from]
    ensures forall n :: 0 <= n < from || k <= n < size ==> tmp[n] == a[n]
  {
    hide Merge;
    ghost var split := Least(mid, to) + 1;
    done, x, y := [], a[from..split], a[split..to + 1];
    ghost var goal := Merge(x, y);
    k, i, j := from, from, mid + 1;
    while i <= mid && j <= to
      invariant from <= i <= split && mid < j && (j <= to + 1 || j == mid + 1)
      invariant k == i + j - (mid + 1)
      invariant x == a[i..split] && y == a[if j <= to then j else to + 1..to + 1]
      invariant |done| == k - from && forall n :: from <= n < k ==> tmp[n] == done[n - from]
      invariant forall n :: 0 <= n < from || k <= n < size ==> tmp[n] == a[n]
      invariant done + Merge(x, y) == goal
    {
      assert x[0] == a[i] && y[0] == a[j];
      if a[i] < a[j] {
        TakeLeft(done, x, y);
        done, x := done + [x[0]], x[1..];
        tmp[k] := a[i];
        k, i := k + 1, i + 1;
      } else {
        TakeRight(done, x, y);
        done, y := done + [y[0]], y[1..];
        tmp[k] := a[j];
        k, j := k + 1, j + 1;
      }
    }
  }

  lemma MergeOneRun(x: seq<int>, y: seq<int>)
    requires x == [] || y == []
    ensures Merge(x, y) == x + y
  {
    hide Sorted, Runs, Pass, Apply;
  }

  /** tmp when both loops are through: what the first one wrote, the rest of the left run, and the rest of the right one. */
  lemma MergeFills(was: seq<int>, t: seq<int>, from: nat, split: nat, half: nat, to: nat, done: seq<int>, x: seq<int>, y: seq<int>)
    requires from <= split <= to <= |was| == |t| && from <= half && |done| == half - from && half + |x| + |y| == to
    requires (x == [] || y == []) && y == was[half + |x|..to]
    requires done + Merge(x, y) == Merge(was[from..split], was[split..to])
    requires forall n :: from <= n < half ==> t[n] == done[n - from]
    requires forall n :: half <= n < half + |x| ==> t[n] == x[n - half]
    requires forall n :: 0 <= n < from || half + |x| <= n < |t| ==> t[n] == was[n]
    ensures t == Merged(was, from, split, to)
  {
    hide *;
    MergeOneRun(x, y);
    Regroup(done, x, y);
    Filled(t, from, half, done, x);
    Assembled(was, t, from, half + |x|, to, done + x, y);
    MergedIs(was, from, split, to);
  }

  lemma Filled(t: seq<int>, from: nat, half: nat, done: seq<int>, x: seq<int>)
    requires from <= half && |done| == half - from && half + |x| <= |t|
    requires forall n :: from <= n < half ==> t[n] == done[n - from]
    requires forall n :: half <= n < half + |x| ==> t[n] == x[n - half]
    ensures forall n :: from <= n < half + |x| ==> t[n] == (done + x)[n - from]
  {
  }

  lemma MergedIs(s: seq<int>, from: nat, mid: nat, to: nat)
    requires from <= mid <= to <= |s|
    ensures Merged(s, from, mid, to) == s[..from] + Merge(s[from..mid], s[mid..to]) + s[to..]
  {
  }

  lemma Regroup(x: seq<int>, y: seq<int>, z: seq<int>)
    ensures x + (y + z) == x + y + z
  {
  }

  lemma Assembled(was: seq<int>, t: seq<int>, from: nat, k: nat, to: nat, done: seq<int>, y: seq<int>)
    requires from <= k <= to <= |was| == |t| && |done| == k - from && y == was[k..to]
    requires forall n :: from <= n < k ==> t[n] == done[n - from]
    requires forall n :: 0 <= n < from || k <= n < |t| ==> t[n] == was[n]
    ensures t == was[..from] + (done + y) + was[to..]
  {
    var r := was[..from] + (done + y) + was[to..];
    assert |r| == |t|;
    forall n | 0 <= n < |t| ensures t[n] == r[n] {
      if from <= n < to {
        assert r[n] == (done + y)[n - from];
      }
    }
  }

  // ---------------------------------------------------------------- bottom-up

  /** One pass over s: neighbouring runs of length m merged. */
  function Pass(s: seq<int>, m: nat): (r: seq<int>)
    requires m >= 1
    ensures |r| == |s|
    decreases |s|
  {
    if |s| <= m then s
    else
      var e := Least(2 * m, |s|);
      Merge(s[..m], s[m..e]) + Pass(s[e..], m)
  }

  /** Every run of length m, counted from the left, is sorted. */
  ghost predicate Runs(s: seq<int>, m: nat)
    requires m >= 1
    decreases |s|
  {
    if |s| <= m then Sorted(s) else Sorted(s[..m]) && Runs(s[m..], m)
  }

  lemma {:induction false} PassRuns(s: seq<int>, m: nat)
    requires m >= 1 && Runs(s, m)
    ensures Runs(Pass(s, m), 2 * m) && multiset(Pass(s, m)) == multiset(s)
    decreases |s|
  {
    hide Sorted, Runs, Merge;
    if |s| <= m {
      OneRun(s, m);
    } else {
      var e := Least(2 * m, |s|);
      var x, y, rest := s[..m], s[m..e], s[e..];
      RunsParts(s, m);
      MergeSorted(x, y);
      PassRuns(rest, m);
      RunsCons(Merge(x, y), Pass(rest, m), 2 * m);
      assert s == x + y + rest;
    }
  }

  lemma OneRun(s: seq<int>, m: nat)
    requires m >= 1 && Runs(s, m) && |s| <= m
    ensures Runs(s, 2 * m)
  {
  }

  lemma RunsCons(x: seq<int>, rest: seq<int>, m: nat)
    requires m >= 1 && Sorted(x) && |x| <= m && (rest != [] ==> |x| == m) && Runs(rest, m)
    ensures Runs(x + rest, m)
  {
    hide Sorted;
    if rest == [] {
      assert x + rest == x;
    } else {
      assert (x + rest)[..m] == x && (x + rest)[m..] == rest;
    }
  }

  lemma RunsParts(s: seq<int>, m: nat)
    requires m >= 1 && Runs(s, m) && |s| > m
    ensures var e := Least(2 * m, |s|);
            Sorted(s[..m]) && Sorted(s[m..e]) && Runs(s[e..], m)
  {
    if |s| <= 2 * m {
      assert s[|s|..] == [];
    } else {
      assert s[m..][..m] == s[m..2 * m] && s[m..][m..] == s[2 * m..];
    }
  }

  /** The merges of the pass from place i on, in an array of n values. */
  function PassPlan(n: nat, m: nat, i: nat): (ops: seq<Op>)
    requires m >= 1
    ensures InRange(n, ops)
    decreases n - i
  {
    if i + 1 >= n then [] else [Op(i, Least(i + m, n), Least(i + 2 * m, n))] + PassPlan(n, m, i + 2 * m)
  }

  /** The merges of the passes from run length m on. */
  function SortPlan(n: nat, m: nat): (ops: seq<Op>)
    requires m >= 1
    ensures InRange(n, ops)
    decreases n - m
  {
    if m >= n then [] else PassPlan(n, m, 0) + SortPlan(n, 2 * m)
  }

  lemma {:induction false} PassPlanPasses(s: seq<int>, m: nat, i: nat, goal: seq<int>)
    requires m >= 1 && PassesTo(s, Least(i, |s|), m, goal)
    ensures Apply(s, PassPlan(|s|, m, i)) == goal
    decreases |s| - i
  {
    hide Merged, Pass, PassesTo;
    if i + 1 >= |s| {
      LastPass(s, Least(i, |s|), m, goal);
    } else {
      PassStep(s, i, m, goal);
      PassPlanPasses(Merged(s, i, Least(i + m, |s|), Least(i + 2 * m, |s|)), m, i + 2 * m, goal);
    }
  }

  /** The merges of the bottom-up sort, in order, sort. */
  lemma {:induction false} SortPlanSorts(s: seq<int>, m: nat)
    requires m >= 1 && Runs(s, m)
    ensures Apply(s, SortPlan(|s|, m)) == Sort(s)
    decreases |s| - m
  {
    hide Runs, Pass, Sort, Apply;
    if m >= |s| {
      Finished(s, m, s);
      ApplyNothing(s);
    } else {
      var t := Pass(s, m);
      PassRuns(s, m);
      WholePass(s, m);
      PassPlanPasses(s, m, 0, t);
      ApplyConcat(s, PassPlan(|s|, m, 0), SortPlan(|s|, 2 * m));
      SortPlanSorts(t, 2 * m);
      SortSorts(t);
      SortedIsSort(s, Sort(t));
    }
  }

  lemma ApplyNothing(s: seq<int>)
    ensures Apply(s, []) == s
  {
  }

  lemma WholePass(s: seq<int>, m: nat)
    requires m >= 1
    ensures PassesTo(s, 0, m, Pass(s, m))
  {
    assert s[..0] == [] && s[0..] == s;
  }

  lemma {:induction false} SingleRuns(s: seq<int>)
    ensures Runs(s, 1)
    decreases |s|
  {
    if |s| > 1 {
      SingleRuns(s[1..]);
    }
  }

  const SIZE_MAX := 0xffff_ffff_ffff_ffff

  /** size - 1, of type size_t */
  function Last(size: nat): nat { if size == 0 then SIZE_MAX else size - 1 }

  /**
   The bottom-up sort. It sorts any array but the empty one, whose size - 1 wraps
   around: then the first merge is one of places 0 and 1 and reads outside the array.
   */
  method BottomUpSort(a: array<int>) returns (ok: bool, ghost log: seq<Op>)
    modifies a
    ensures ok <==> a.Length >= 1
    ensures ok ==> a[..] == Sort(old(a[..])) && log == SortPlan(a.Length, 1)
  {
    hide Runs, Pass, Sort, SortPlan, PassPlan;
    var size, tmp := a.Length, new int[a.Length];
    var n := 0;
    while n < size
      invariant n <= size && tmp[..n] == a[..n] && a[..] == old(a[..])
    {
      tmp[n] := a[n];
      n := n + 1;
    }
    var m := 1;
    ok, log := true, [];
    SingleRuns(a[..]);
    while m <= Last(size)
      invariant m >= 1 && tmp[..] == a[..] && (size == 0 ==> m == 1)
      invariant ok && Runs(a[..], m) && multiset(a[..]) == multiset(old(a[..]))
      invariant size >= 1 ==> log + SortPlan(size, m) == SortPlan(size, 1)
      decreases size - m
    {
      PassRuns(a[..], m);
      ghost var merges;
      ok, merges := MergePass(a, tmp, size, m);
      if !ok {
        return;
      }
      PlanUnfolds(log, size, m);
      log := log + merges;
      m := 2 * m;
    }
    PlanUnfolds(log, size, m);
    Finished(a[..], m, old(a[..]));
  }

  lemma PlanUnfolds(log: seq<Op>, n: nat, m: nat)
    requires m >= 1
    ensures log + SortPlan(n, m) == if m >= n then log else log + PassPlan(n, m, 0) + SortPlan(n, 2 * m)
  {
  }

  lemma PassUnfoldsAt(log: seq<Op>, n: nat, m: nat, i: nat)
    requires m >= 1
    ensures log + PassPlan(n, m, i)
            == if i + 1 >= n then log else log + [Op(i, Least(i + m, n), Least(i + 2 * m, n))] + PassPlan(n, m, i + 2 * m)
  {
  }

  lemma Finished(s: seq<int>, m: nat, was: seq<int>)
    requires |s| <= m && m >= 1 && Runs(s, m) && multiset(s) == multiset(was)
    ensures s == Sort(was)
  {
    SortedIsSort(was, s);
  }

  /** The inner loop: one pass. */
  method MergePass(a: array<int>, tmp: array<int>, size: nat, m: nat) returns (ok: bool, ghost log: seq<Op>)
    requires a != tmp && a.Length == tmp.Length == size && 1 <= m <= Last(size) && tmp[..] == a[..] && (size == 0 ==> m == 1)
    modifies a, tmp
    ensures ok <==> size >= 1
    ensures ok ==> tmp[..] == a[..] == Pass(old(a[..]), m) && log == PassPlan(size, m, 0)
  {
    hide Merge, Pass, Merged, PassPlan, PassesTo;
    var i := 0;
    ok, log := true, [];
    ghost var goal := Pass(a[..], m);
    WholePass(a[..], m);
    while i < Last(size)
      invariant ok && tmp[..] == a[..] && (size == 0 ==> i == 0)
      invariant size >= 1 ==> log + PassPlan(size, m, i) == PassPlan(size, m, 0)
      invariant PassesTo(a[..], Least(i, size), m, goal)
      decreases Last(size) - i
    {
      if size > 0 { PassStep(a[..], i, m, goal); }
      ok := MergeRuns(a, tmp, size, i, i + m - 1, Least(i + 2 * m - 1, Last(size)));
      if !ok {
        return;
      }
      PassUnfoldsAt(log, size, m, i);
      log := log + [Op(i, Least(i + m, size), Least(i + 2 * m, size))];
      i := i + 2 * m;
    }
    PassUnfoldsAt(log, size, m, i);
    LastPass(a[..], Least(i, size), m, goal);
  }

  /** With s[..i] merged already, a pass over the rest yields `goal`. */
  predicate PassesTo(s: seq<int>, i: nat, m: nat, goal: seq<int>)
    requires i <= |s| && m >= 1
  {
    s[..i] + Pass(s[i..], m) == goal
  }

  lemma PassStep(s: seq<int>, i: nat, m: nat, goal: seq<int>)
    requires i < |s| && m >= 1 && PassesTo(s, i, m, goal)
    ensures var mid, to := Least(i + m, |s|), Least(i + 2 * m, |s|);
            PassesTo(Merged(s, i, mid, to), to, m, goal)
  {
    hide Merge, Pass;
    var mid, to := Least(i + m, |s|), Least(i + 2 * m, |s|);
    var r, x, y, rest := Merged(s, i, mid, to), s[i..mid], s[mid..to], s[to..];
    assert r[..to] == s[..i] + Merge(x, y) && r[to..] == rest;
    PassUnfolds(s[i..], x, y, rest, m);
  }

  lemma PassUnfolds(s: seq<int>, x: seq<int>, y: seq<int>, rest: seq<int>, m: nat)
    requires m >= 1 && s == x + y + rest && |x| == Least(m, |s|) && |x| + |y| == Least(2 * m, |s|)
    ensures Pass(s, m) == Merge(x, y) + Pass(rest, m)
  {
    if |s| <= m {
      assert s == x && rest == [];
    } else {
      assert s[..m] == x && s[m..Least(2 * m, |s|)] == y && s[Least(2 * m, |s|)..] == rest;
    }
  }

  lemma LastPass(s: seq<int>, i: nat, m: nat, goal: seq<int>)
    requires |s| - 1 <= i <= |s| && m >= 1 && PassesTo(s, i, m, goal)
    ensures goal == s
  {
  }
}
