// Element-wise in-place updates of a 2-D numpy array, the shape shared by
// `dynamic[np.where(cond)] = v` and `secondary[np.where(cond)] = v`: every
// cell is replaced by a function of its own old value.

module Grids {
  import opened Seqs

  /** Every cell of a matrix passed through `f`. */
  function MapCells(m: seq<seq<real>>, f: real -> real): (r: seq<seq<real>>)
    ensures |r| == |m|
    ensures forall i :: 0 <= i < |m| ==> |r[i]| == |m[i]|
    ensures forall i, j :: 0 <= i < |m| && 0 <= j < |m[i]| ==> r[i][j] == f(m[i][j])
  {
    seq(|m|, i requires 0 <= i < |m| => MapRow(m[i], f))
  }

  function MapRow(row: seq<real>, f: real -> real): (r: seq<real>)
    ensures |r| == |row| && forall j :: 0 <= j < |row| ==> r[j] == f(row[j])
  {
    seq(|row|, j requires 0 <= j < |row| => f(row[j]))
  }

  /** Row i updated cell by cell; the other rows are left alone. */
  method MapRowInPlace(a: array2<real>, i: nat, f: real -> real)
    requires i < a.Length0
    modifies a
    ensures Contents(a)[i] == MapRow(old(Contents(a))[i], f)
    ensures forall k :: 0 <= k < a.Length0 && k != i ==> Contents(a)[k] == old(Contents(a))[k]
  {
    var j := 0;
    while j < a.Length1
      invariant 0 <= j <= a.Length1
      invariant forall l :: 0 <= l < j ==> a[i, l] == f(old(a[i, l]))
      invariant forall l :: j <= l < a.Length1 ==> a[i, l] == old(a[i, l])
      invariant forall k, l :: 0 <= k < a.Length0 && k != i && 0 <= l < a.Length1 ==> a[k, l] == old(a[k, l])
    {
      a[i, j] := f(a[i, j]);
      j := j + 1;
    }
    assert Contents(a)[i] == MapRow(old(Contents(a))[i], f) by {
      forall l | 0 <= l < a.Length1 ensures Contents(a)[i][l] == MapRow(old(Contents(a))[i], f)[l] {}
    }
    forall k | 0 <= k < a.Length0 && k != i ensures Contents(a)[k] == old(Contents(a))[k] {
      forall l | 0 <= l < a.Length1 ensures Contents(a)[k][l] == old(Contents(a))[k][l] {}
    }
  }

  /** `a[...] = f(a[...])` over the whole array, row by row. */
  method MapInPlace(a: array2<real>, f: real -> real)
    modifies a
    ensures Contents(a) == MapCells(old(Contents(a)), f)
  {
    ghost var m := Contents(a);
    ghost var r := MapCells(m, f);
    var i := 0;
    while i < a.Length0
      invariant 0 <= i <= a.Length0
      invariant forall k :: 0 <= k < i ==> Contents(a)[k] == r[k]
      invariant forall k :: i <= k < a.Length0 ==> Contents(a)[k] == m[k]
    {
      MapRowInPlace(a, i, f);
      assert r[i] == MapRow(m[i], f);
      i := i + 1;
    }
    assert Contents(a) == r;
  }
}
