/**
 The k-way merge of sorted arrays: of the arrays not used up, the first with the least
 head gives the next value. The search for it starts from the value INT_MAX and no
 array, and only a smaller head replaces that: a head equal to INT_MAX is never taken.
 When only such heads are left the program adds one to indices[SIZE_MAX]; the model
 stops there and reports it.
 */
module KWayMerge {
  import opened Sorting

  const INT_MAX := 0x7fff_ffff

  predicate Cursors(cs: seq<seq<int>>, at: seq<nat>) {
    |at| == |cs| && forall j :: 0 <= j < |cs| ==> at[j] <= |cs[j]|
  }

  predicate AllBelow(cs: seq<seq<int>>, bound: int) {
    forall j, p :: 0 <= j < |cs| && 0 <= p < |cs[j]| ==> cs[j][p] < bound
  }

  /** The values the first n arrays have left. */
  function Left(cs: seq<seq<int>>, at: seq<nat>, n: nat): multiset<int>
    requires Cursors(cs, at) && n <= |cs|
  {
    if n == 0 then multiset{} else Left(cs, at, n - 1) + multiset(cs[n - 1][at[n - 1]..])
  }

  /** All values, array after array. */
  function Union(cs: seq<seq<int>>): seq<int> {
    if cs == [] then [] else Union(cs[..|cs| - 1]) + cs[|cs| - 1]
  }

  function Zeros(n: nat): (r: seq<nat>)
    ensures |r| == n && forall j :: 0 <= j < n ==> r[j] == 0
  {
    seq(n, _ => 0)
  }

  lemma {:induction false} LeftAtStart(cs: seq<seq<int>>, at: seq<nat>, n: nat)
    requires Cursors(cs, at) && n <= |cs| && forall j :: 0 <= j < n ==> at[j] == 0
    ensures Left(cs, at, n) == multiset(Union(cs[..n]))
  {
    if n > 0 {
      LeftAtStart(cs, at, n - 1);
      assert cs[..n][..n - 1] == cs[..n - 1];
      assert cs[n - 1][0..] == cs[n - 1];
    }
  }

  /** Taking the head of array j. */
  lemma {:induction false} LeftStep(cs: seq<seq<int>>, at: seq<nat>, j: nat, n: nat)
    requires Cursors(cs, at) && j < |cs| && n <= |cs| && at[j] < |cs[j]|
    ensures var after := at[j := at[j] + 1];
            Cursors(cs, after) &&
            Left(cs, at, n) == Left(cs, after, n) + if j < n then multiset{cs[j][at[j]]} else multiset{}
  {
    if n > 0 {
      LeftStep(cs, at, j, n - 1);
      if j == n - 1 {
        assert cs[j][at[j]..] == [cs[j][at[j]]] + cs[j][at[j] + 1..];
      }
    }
  }

  /** What is left is at or behind some cursor. */
  lemma {:induction false} LeftIsSomewhere(cs: seq<seq<int>>, at: seq<nat>, n: nat, v: int) returns (j: nat, p: nat)
    requires Cursors(cs, at) && n <= |cs| && v in Left(cs, at, n)
    ensures j < n && at[j] <= p < |cs[j]| && cs[j][p] == v
  {
    var last := cs[n - 1][at[n - 1]..];
    if v in last {
      var q :| 0 <= q < |last| && last[q] == v;
      j, p := n - 1, at[n - 1] + q;
    } else {
      j, p := LeftIsSomewhere(cs, at, n - 1, v);
    }
  }

  lemma {:induction false} SomewhereIsLeft(cs: seq<seq<int>>, at: seq<nat>, n: nat, j: nat, p: nat)
    requires Cursors(cs, at) && j < n <= |cs| && at[j] <= p < |cs[j]|
    ensures cs[j][p] in Left(cs, at, n)
  {
    if j == n - 1 {
      assert cs[j][at[j]..][p - at[j]] == cs[j][p];
    } else {
      SomewhereIsLeft(cs, at, n - 1, j, p);
    }
  }

  /** A value no head is below is not above anything that is left, if the arrays are sorted. */
  lemma HeadsBound(cs: seq<seq<int>>, at: seq<nat>, min: int)
    requires Cursors(cs, at) && forall j :: 0 <= j < |cs| ==> Sorted(cs[j])
    requires forall j :: 0 <= j < |cs| && at[j] < |cs[j]| ==> min <= cs[j][at[j]]
    ensures AtLeast(min, Left(cs, at, |cs|))
  {
    forall v | v in Left(cs, at, |cs|) ensures min <= v {
      var j, p := LeftIsSomewhere(cs, at, |cs|, v);
      assert Sorted(cs[j]);
    }
  }

  /** min_index is None where the program has SIZE_MAX. */
  datatype Index = None | Some(index: nat)

  /** The first array with the least head, if that head is below INT_MAX. */
  ghost predicate Least(cs: seq<seq<int>>, at: seq<nat>, n: nat, min: int, which: Index)
    requires Cursors(cs, at) && n <= |cs|
  {
    && (forall j :: 0 <= j < n && at[j] < |cs[j]| ==> min <= cs[j][at[j]])
    && (which.None? ==> min == INT_MAX)
    && (which.Some? ==>
          && which.index < n && at[which.index] < |cs[which.index]| && cs[which.index][at[which.index]] == min < INT_MAX
          && forall j :: 0 <= j < which.index && at[j] < |cs[j]| ==> min < cs[j][at[j]])
  }

  ghost function Values(contents: seq<array<int>>): (cs: seq<seq<int>>)
    reads contents
    ensures |cs| == |contents| && forall j :: 0 <= j < |cs| ==> cs[j] == contents[j][..]
  {
    seq(|contents|, j requires 0 <= j < |contents| reads contents => contents[j][..])
  }

  /** One search for the next value. */
  method FindLeast(contents: seq<array<int>>, indices: array<nat>) returns (min: int, which: Index)
    requires Cursors(Values(contents), indices[..]) && AllBelow(Values(contents), INT_MAX + 1)
    ensures Least(Values(contents), indices[..], |contents|, min, which)
  {
    ghost var cs, at := Values(contents), indices[..];
    min, which := INT_MAX, None;
    var j := 0;
    while j < |contents|
      invariant j <= |contents| && min <= INT_MAX
      invariant Least(cs, at, j, min, which)
    {
      assert cs[j] == contents[j][..] && at[j] == indices[j];
      if indices[j] < contents[j].Length && contents[j][indices[j]] < min {
        which := Some(j);
        min := contents[j][indices[j]];
      }
      j := j + 1;
    }
  }

  /** Where the output stands: `out` has been written, the cursors are at `at`. */
  ghost predicate Merging(cs: seq<seq<int>>, at: seq<nat>, out: seq<int>) {
    && Cursors(cs, at)
    && multiset(out) + Left(cs, at, |cs|) == multiset(Union(cs))
    && (forall j, p :: 0 <= j < |cs| && 0 <= p < at[j] ==> cs[j][p] < INT_MAX)
    && (AllSorted(cs) ==> Sorted(out) && forall k :: 0 <= k < |out| ==> AtLeast(out[k], Left(cs, at, |cs|)))
  }

  ghost predicate AllSorted(cs: seq<seq<int>>) {
    forall j :: 0 <= j < |cs| ==> Sorted(cs[j])
  }

  lemma MergingStarts(cs: seq<seq<int>>)
    ensures Merging(cs, Zeros(|cs|), [])
  {
    LeftAtStart(cs, Zeros(|cs|), |cs|);
    assert cs[..|cs|] == cs;
  }

  lemma MergingStep(cs: seq<seq<int>>, at: seq<nat>, out: seq<int>, min: int, j: nat)
    requires Merging(cs, at, out) && Least(cs, at, |cs|, min, Some(j))
    ensures Merging(cs, at[j := at[j] + 1], out + [min])
  {
    hide Left, Sorted, Union;
    var after, n := at[j := at[j] + 1], |cs|;
    LeftStep(cs, at, j, n);
    assert multiset(out + [min]) == multiset(out) + multiset{min};
    if AllSorted(cs) {
      HeadsBound(cs, at, min);
      SortedSnoc(out, min, Left(cs, at, n));
      var next := out + [min];
      forall k | 0 <= k < |next| ensures AtLeast(next[k], Left(cs, after, n)) {
        assert AtLeast(next[k], Left(cs, at, n));
        forall e | e in Left(cs, after, n) ensures next[k] <= e {
          assert e in Left(cs, at, n);
        }
      }
    }
  }

  lemma SortedSnoc(out: seq<int>, v: int, rest: multiset<int>)
    requires Sorted(out) && v in rest && forall k :: 0 <= k < |out| ==> AtLeast(out[k], rest)
    ensures Sorted(out + [v])
  {
  }

  /** With values left, an array has a head. */
  lemma {:induction false} SomeHead(cs: seq<seq<int>>, at: seq<nat>, n: nat) returns (j: nat)
    requires Cursors(cs, at) && n <= |cs| && |Left(cs, at, n)| > 0
    ensures j < n && at[j] < |cs[j]|
  {
    if at[n - 1] < |cs[n - 1]| {
      j := n - 1;
    } else {
      assert cs[n - 1][at[n - 1]..] == [];
      j := SomeHead(cs, at, n - 1);
    }
  }

  /** With values left but no head below INT_MAX, a head is INT_MAX. */
  lemma Stuck(cs: seq<seq<int>>, at: seq<nat>, out: seq<int>, min: int)
    requires Merging(cs, at, out) && Least(cs, at, |cs|, min, None) && |out| < |Union(cs)|
    requires AllBelow(cs, INT_MAX + 1)
    ensures !AllBelow(cs, INT_MAX)
  {
    var rest := Left(cs, at, |cs|);
    assert |multiset(out)| + |rest| == |multiset(Union(cs))|;
    var j := SomeHead(cs, at, |cs|);
    assert cs[j][at[j]] == INT_MAX;
  }

  lemma MergingEnds(cs: seq<seq<int>>, at: seq<nat>, out: seq<int>)
    requires Merging(cs, at, out) && |out| == |Union(cs)|
    ensures AllBelow(cs, INT_MAX) && multiset(out) == multiset(Union(cs))
    ensures AllSorted(cs) ==> out == Sort(Union(cs))
  {
    assert |multiset(out) + Left(cs, at, |cs|)| == |multiset(Union(cs))|;
    forall j, p | 0 <= j < |cs| && 0 <= p < |cs[j]| ensures cs[j][p] < INT_MAX {
      if p >= at[j] {
        SomewhereIsLeft(cs, at, |cs|, j, p);
        assert false;
      }
    }
    SortedIsSort(Union(cs), out);
  }

  /**
   The merge of all arrays. It succeeds exactly when no value is INT_MAX; then the
   output holds every value as often as the inputs do, in order if they are.
   */
  method MergeAll(contents: seq<array<int>>) returns (ok: bool, merged: array<int>)
    requires AllBelow(Values(contents), INT_MAX + 1)
    ensures ok <==> AllBelow(Values(contents), INT_MAX)
    ensures ok ==> multiset(merged[..]) == multiset(Union(Values(contents)))
    ensures ok && AllSorted(Values(contents)) ==> merged[..] == Sort(Union(Values(contents)))
  {
    hide Merging, Least, AllSorted, AllBelow, Sort, Union;
    ghost var cs := Values(contents);
    var total := TotalSize(contents);
    merged := new int[total];
    var indices := new nat[|contents|](_ => 0);
    assert indices[..] == Zeros(|contents|);
    MergingStarts(cs);
    var i := 0;
    assert merged[..i] == [];
    while i < total
      invariant i <= total
      invariant Cursors(cs, indices[..]) && Merging(cs, indices[..], merged[..i])
    {
      var min, which := FindLeast(contents, indices);
      if which.None? {
        Stuck(cs, indices[..], merged[..i], min);
        return false, merged;
      }
      LeastInRange(cs, indices[..], min, which.index);
      MergingStep(cs, indices[..], merged[..i], min, which.index);
      ghost var at, out := indices[..], merged[..i];
      assert at[which.index] == indices[which.index];
      merged[i] := min;
      indices[which.index] := indices[which.index] + 1;
      i := i + 1;
      assert merged[..i] == out + [min];
      assert indices[..] == at[which.index := at[which.index] + 1];
      InRange(cs, indices[..], merged[..i]);
    }
    assert merged[..i] == merged[..];
    MergingEnds(cs, indices[..], merged[..]);
    ok := true;
  }

  lemma LeastInRange(cs: seq<seq<int>>, at: seq<nat>, min: int, j: nat)
    requires Cursors(cs, at) && Least(cs, at, |cs|, min, Some(j))
    ensures j < |cs| && at[j] < |cs[j]|
  {
  }

  lemma InRange(cs: seq<seq<int>>, at: seq<nat>, out: seq<int>)
    requires Merging(cs, at, out)
    ensures Cursors(cs, at)
  {
  }

  method TotalSize(contents: seq<array<int>>) returns (total: nat)
    ensures total == |Union(Values(contents))|
  {
    ghost var cs := Values(contents);
    total := 0;
    var i := 0;
    while i < |contents|
      invariant i <= |contents| && total == |Union(cs[..i])|
    {
      assert cs[..i + 1][..i] == cs[..i];
      total := total + contents[i].Length;
      i := i + 1;
    }
    assert cs[..i] == cs;
  }
}
