/** The recursive merge sort, and the merges it makes in order. */
module TopDownSort {
  import opened Sorting

  /** The merges the sort of [l, r) makes; a run of two is one merge, which the program does as a swap. */
  function Plan(l: nat, r: nat): (ops: seq<Op>)
    requires l <= r
    ensures forall i :: 0 <= i < |ops| ==> l <= ops[i].from < ops[i].mid < ops[i].to <= r
    decreases r - l
  {
    if r - l <= 1 then []
    else
      var m := l + (r - l) / 2;
      Plan(l, m) + Plan(m, r) + [Op(l, m, r)]
  }

  /** s with its part [l, r) sorted. */
  function SortedPart(s: seq<int>, l: nat, r: nat): (t: seq<int>)
    requires l <= r <= |s|
    ensures |t| == |s|
  {
    SortSorts(s[l..r]);
    s[..l] + Sort(s[l..r]) + s[r..]
  }

  /** The merges of a plan sort their part and leave the rest alone. */
  lemma {:induction false} PlanSorts(s: seq<int>, l: nat, r: nat)
    requires l <= r <= |s|
    ensures Apply(s, Plan(l, r)) == SortedPart(s, l, r)
    decreases r - l
  {
    hide Merged, SortedPart, Sort, Apply;
    if r - l <= 1 {
      ShortSorted(s, l, r);
      ApplyNothing(s);
    } else {
      var m := l + (r - l) / 2;
      var t := SortedPart(s, l, m);
      PlanSorts(s, l, m);
      PlanSorts(t, m, r);
      ApplyPlan(s, l, m, r);
      HalvesSorted(s, l, m, r);
    }
  }

  /** The merges of both halves, and the last one. */
  lemma ApplyPlan(s: seq<int>, l: nat, m: nat, r: nat)
    requires l < m < r <= |s| && m == l + (r - l) / 2
    ensures Apply(s, Plan(l, r)) == Merged(Apply(Apply(s, Plan(l, m)), Plan(m, r)), l, m, r)
  {
    hide *;
    var x, y, z := Plan(l, m), Plan(m, r), [Op(l, m, r)];
    PlanParts(l, m, r, |s|);
    ApplyConcat(s, x + y, z);
    ApplyConcat(s, x, y);
    ApplyOne(Apply(Apply(s, x), y), Op(l, m, r));
  }

  lemma PlanParts(l: nat, m: nat, r: nat, n: nat)
    requires l < m < r <= n && m == l + (r - l) / 2
    ensures Plan(l, r) == Plan(l, m) + Plan(m, r) + [Op(l, m, r)]
    ensures InRange(n, Plan(l, m)) && InRange(n, Plan(m, r)) && InRange(n, Plan(l, m) + Plan(m, r)) && InRange(n, [Op(l, m, r)])
    ensures InRange(n, Plan(l, r))
  {
    hide InRange;
    PlanInRange(l, m, n);
    PlanInRange(m, r, n);
    PlanInRange(l, r, n);
    BothInRange(n, Plan(l, m), Plan(m, r));
    OneInRange(n, Op(l, m, r));
  }

  lemma PlanInRange(l: nat, r: nat, n: nat)
    requires l <= r <= n
    ensures InRange(n, Plan(l, r))
  {
  }

  lemma BothInRange(n: nat, x: seq<Op>, y: seq<Op>)
    requires InRange(n, x) && InRange(n, y)
    ensures InRange(n, x + y)
  {
  }

  lemma OneInRange(n: nat, op: Op)
    requires op.from <= op.mid <= op.to <= n
    ensures InRange(n, [op])
  {
  }

  lemma ShortSorted(s: seq<int>, l: nat, r: nat)
    requires l <= r <= |s| && r - l <= 1
    ensures SortedPart(s, l, r) == s
  {
    if l < r {
      assert s[l..r] == [s[l]] && s[l..r][1..] == [];
      assert Sort([s[l]]) == [s[l]];
    } else {
      assert s[l..r] == [];
    }
  }

  lemma HalvesSorted(s: seq<int>, l: nat, m: nat, r: nat)
    requires l <= m <= r <= |s|
    ensures Merged(SortedPart(SortedPart(s, l, m), m, r), l, m, r) == SortedPart(s, l, r)
  {
    hide Sort, Merge;
    var x, y := s[l..m], s[m..r];
    var t := SortedPart(s, l, m);
    var u := SortedPart(t, m, r);
    SortSorts(x);
    SortSorts(y);
    assert t[m..r] == y;
    assert u[l..m] == Sort(x) && u[m..r] == Sort(y);
    assert u[..l] == s[..l] && u[r..] == s[r..];
    MergeSorts(x, y);
    assert s[l..r] == x + y;
  }

  /** The sort of [l, r); `log` lists its merges. */
  method MergeSort(a: array<int>, l: nat, r: nat) returns (ghost log: seq<Op>)
    requires l <= r <= a.Length
    modifies a
    ensures log == Plan(l, r)
    ensures a[..] == old(SortedPart(a[..], l, r))
    decreases r - l
  {
    hide SortedPart, Merged;
    var len := r - l;
    if len <= 1 {
      ShortSorted(a[..], l, r);
      return [];
    } else if len == 2 {
      SortPair(a, l);
      return [Op(l, l + 1, r)];
    }
    var m := l + len / 2;
    ghost var left := MergeSort(a, l, m);
    ghost var right := MergeSort(a, m, r);
    HalvesSorted(old(a[..]), l, m, r);
    MergeThrough(a, l, m, r);
    log := left + right + [Op(l, m, r)];
  }

  method SortPair(a: array<int>, l: nat)
    requires l + 2 <= a.Length
    modifies a
    ensures a[..] == old(SortedPart(a[..], l, l + 2))
  {
    SwapSorts(a[..], l);
    if a[l] > a[l + 1] {
      var t := a[l];
      a[l] := a[l + 1];
      a[l + 1] := t;
    }
  }

  lemma SwapSorts(s: seq<int>, l: nat)
    requires l + 2 <= |s|
    ensures SortedPart(s, l, l + 2) == if s[l] > s[l + 1] then s[l := s[l + 1]][l + 1 := s[l]] else s
  {
    hide Sort;
    var x, y := s[l], s[l + 1];
    SortTwo(x, y);
    assert s[l..l + 2] == [x, y];
    var t := if x > y then s[l := y][l + 1 := x] else s;
    assert t == s[..l] + Sort([x, y]) + s[l + 2..];
  }

  lemma SortTwo(x: int, y: int)
    ensures Sort([x, y]) == if x > y then [y, x] else [x, y]
  {
    assert [x, y][1..] == [y] && [y][1..] == [];
    assert Sort([y]) == [y];
    assert x > y ==> Insert(x, [y][1..]) == [x];
  }

  /** Merges through a buffer and copies back. */
  method MergeThrough(a: array<int>, l: nat, m: nat, r: nat)
    requires l <= m <= r <= a.Length
    modifies a
    ensures a[..] == old(Merged(a[..], l, m, r))
  {
    hide Merge;
    var buf := MergeToBuffer(a, l, m, r);
    ghost var was, merged := a[..], buf[..];
    var i := 0;
    while i < buf.Length
      invariant i <= buf.Length == r - l && buf[..] == merged == Merge(was[l..m], was[m..r])
      invariant forall k :: 0 <= k < i ==> a[l + k] == buf[k]
      invariant forall k :: 0 <= k < l || l + i <= k < a.Length ==> a[k] == was[k]
    {
      a[l + i] := buf[i];
      i := i + 1;
    }
    assert a[l..r] == merged;
    assert a[..] == was[..l] + a[l..r] + was[r..];
  }

  /** The inner loops: what is left of one run, when the other is used up. */
  method CopyRest(a: array<int>, from: nat, to: nat, buf: array<int>, at: nat)
    requires a != buf && from <= to <= a.Length && at + (to - from) == buf.Length
    modifies buf
    ensures buf[..] == old(buf[..at]) + a[from..to]
  {
    var cur, i := from, at;
    while cur != to
      invariant from <= cur <= to && i == at + (cur - from)
      invariant forall n :: 0 <= n < at ==> buf[n] == old(buf[n])
      invariant forall n :: at <= n < i ==> buf[n] == a[from + (n - at)]
    {
      buf[i] := a[cur];
      i, cur := i + 1, cur + 1;
    }
  }

  method MergeToBuffer(a: array<int>, l: nat, m: nat, r: nat) returns (buf: array<int>)
    requires l <= m <= r <= a.Length
    ensures fresh(buf) && buf[..] == Merge(a[l..m], a[m..r])
  {
    hide Merge;
    var len := r - l;
    buf := new int[len];
    ghost var done, x, y := [], a[l..m], a[m..r];
    ghost var goal := Merge(x, y);
    var cur1, cur2, i := l, m, 0;
    while i < len
      invariant l <= cur1 <= m <= cur2 <= r && i == cur1 - l + cur2 - m
      invariant x == a[cur1..m] && y == a[cur2..r] && |done| == i && (forall n :: 0 <= n < i ==> buf[n] == done[n])
      invariant done + Merge(x, y) == goal
    {
      if cur1 == m || cur2 == r {
        assert buf[..i] == done;
        if cur1 == m { CopyRest(a, cur2, r, buf, i); } else { CopyRest(a, cur1, m, buf, i); }
        RestMerged(buf[..], done, x, y, goal);
        return;
      }
      if a[cur1] < a[cur2] {
        TakeLeft(done, x, y);
        done, x := done + [x[0]], x[1..];
        buf[i] := a[cur1];
        cur1 := cur1 + 1;
      } else {
        TakeRight(done, x, y);
        done, y := done + [y[0]], y[1..];
        buf[i] := a[cur2];
        cur2 := cur2 + 1;
      }
      i := i + 1;
    }
    NothingLeft(done, x, y);
  }

  lemma RestMerged(b: seq<int>, done: seq<int>, x: seq<int>, y: seq<int>, goal: seq<int>)
    requires (x == [] || y == []) && done + Merge(x, y) == goal && b == done + (if x == [] then y else x)
    ensures b == goal
  {
    MergeOneRun(x, y);
    assert x + y == if x == [] then y else x;
  }

  lemma NothingLeft(done: seq<int>, x: seq<int>, y: seq<int>)
    requires x == [] && y == []
    ensures done + Merge(x, y) == done
  {
  }

  /** The sort of a whole array; here the empty one is no exception. */
  method TopDown(a: array<int>)
    modifies a
    ensures a[..] == Sort(old(a[..]))
  {
    ghost var was := a[..];
    assert was[0..a.Length] == was;
    ghost var _ := MergeSort(a, 0, a.Length);
  }
}
