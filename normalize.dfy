// arr_normalize_axis (arcfinder/computing.py): rescale every row (axis 'y') or
// every column (axis 'x') of a 2-D array, in place, so that the masked means
// of all rows (columns) become equal to the average of the original ones.
//
// The arithmetic is numpy's float64: `mask * row` broadcasts, the mean of an
// empty product is NaN, and `mean / this_mean` by a zero or NaN mean gives
// inf or NaN instead of raising. A row so scaled holds only inf and NaN;
// `real` has neither, so the model records such a row as lost and keeps its
// old cells in their place.

module Normalize {
  import opened PyCore
  import opened Seqs

  /** numpy broadcasting of two 1-D shapes: equal lengths, or one side of length 1. */
  predicate Broadcasts(k: nat, n: nat)
  {
    k == n || k == 1 || n == 1
  }

  /** The position broadcasting reads on a side of length `len` for entry j. */
  function Stretch(len: nat, j: nat): nat
  {
    if len == 1 then 0 else j
  }

  /** `mask * row`: as long as the longer side, a side of length 1 repeated. */
  function Product(mask: seq<real>, row: seq<real>): (p: seq<real>)
    requires Broadcasts(|mask|, |row|)
    ensures |p| == (if |mask| == 1 then |row| else |mask|)
    ensures forall j :: 0 <= j < |p| ==> p[j] == mask[Stretch(|mask|, j)] * row[Stretch(|row|, j)]
  {
    var n := if |mask| == 1 then |row| else |mask|;
    seq(n, j requires 0 <= j < n => mask[Stretch(|mask|, j)] * row[Stretch(|row|, j)])
  }

  /** A float64 mean: a number, or NaN. */
  datatype Mean = Mean(v: real) | MeanNaN

  /** `np.mean(p)`: NaN for an empty array. */
  function MeanOf(p: seq<real>): Mean
  {
    if |p| == 0 then MeanNaN else Mean(Sum(p) / (|p| as real))
  }

  /** `np.mean(mask * row)`. */
  function MaskedMean(mask: seq<real>, row: seq<real>): Mean
    requires Broadcasts(|mask|, |row|)
  {
    MeanOf(Product(mask, row))
  }

  /** `a + b` in float64: NaN once either side is. */
  function Plus(a: Mean, b: Mean): Mean
  {
    if a.Mean? && b.Mean? then Mean(a.v + b.v) else MeanNaN
  }

  /** `mean = 0.` followed by `mean += m` for every m, left to right. */
  function Total(means: seq<Mean>): Mean
  {
    if |means| == 0 then Mean(0.0) else Plus(Total(means[..|means| - 1]), means[|means| - 1])
  }

  /** One more summand of the running sum. */
  lemma TotalStep(means: seq<Mean>, i: nat)
    requires i < |means|
    ensures Total(means[..i + 1]) == Plus(Total(means[..i]), means[i])
  {
    assert means[..i + 1][..i] == means[..i];
  }

  /** The running sum is a number exactly when every summand is. */
  lemma {:induction false} TotalDefined(means: seq<Mean>)
    ensures Total(means).Mean? <==> forall i :: 0 <= i < |means| ==> means[i].Mean?
  {
    if |means| > 0 {
      var n := |means| - 1;
      TotalDefined(means[..n]);
      assert forall i :: 0 <= i < n ==> means[..n][i] == means[i];
    }
  }

  /** What the 'y' loops need to run: a rectangular array with rows, and a
      mask that broadcasts against a row. */
  ghost predicate RowsOk(m: seq<seq<real>>, mask: seq<real>)
  {
    |m| > 0 && Rect(m) && Broadcasts(|mask|, |m[0]|)
  }

  function RowMeans(m: seq<seq<real>>, mask: seq<real>): (r: seq<Mean>)
    requires RowsOk(m, mask)
    ensures |r| == |m| && forall i :: 0 <= i < |m| ==> r[i] == MaskedMean(mask, m[i])
  {
    seq(|m|, i requires 0 <= i < |m| => MaskedMean(mask, m[i]))
  }

  /** `mean /= float(len(arr))` after the first loop: the level every row is
      brought to, NaN when some row mean is. */
  function Level(m: seq<seq<real>>, mask: seq<real>): Mean
    requires RowsOk(m, mask)
  {
    var t := Total(RowMeans(m, mask));
    if t.Mean? then Mean(t.v / (|m| as real)) else MeanNaN
  }

  /** `mean / this_mean` in float64: a finite factor, or None where numpy
      gives inf or NaN (a NaN mean, or a zero `this_mean`). */
  function Factor(level: Mean, own: Mean): Option<real>
  {
    if level.Mean? && own.Mean? && own.v != 0.0 then Some(level.v / own.v) else None
  }

  /** Row i, scaled towards `level`, gets a factor that is not finite, and
      has cells that become inf or NaN. */
  predicate Lost(m: seq<seq<real>>, mask: seq<real>, level: Mean, i: nat)
    requires RowsOk(m, mask) && i < |m|
  {
    |m[i]| > 0 && Factor(level, MaskedMean(mask, m[i])).None?
  }

  /** The lost rows among the first n. */
  function LostBelow(m: seq<seq<real>>, mask: seq<real>, level: Mean, n: nat): set<nat>
    requires RowsOk(m, mask) && n <= |m|
  {
    set i: nat | i < n && Lost(m, mask, level, i)
  }

  /** The rows the 'y' branch fills with inf and NaN. */
  function LostRows(m: seq<seq<real>>, mask: seq<real>): set<nat>
    requires RowsOk(m, mask)
  {
    LostBelow(m, mask, Level(m, mask), |m|)
  }

  /** One more row examined adds it to the lost rows exactly when it is lost. */
  lemma LostBelowStep(m: seq<seq<real>>, mask: seq<real>, level: Mean, n: nat)
    requires RowsOk(m, mask) && n < |m|
    ensures LostBelow(m, mask, level, n + 1) == LostBelow(m, mask, level, n) + (if Lost(m, mask, level, n) then {n} else {})
  {
  }

  function Scale(row: seq<real>, c: real): (r: seq<real>)
    ensures |r| == |row| && forall j :: 0 <= j < |row| ==> r[j] == row[j] * c
  {
    seq(|row|, j requires 0 <= j < |row| => row[j] * c)
  }

  /** Every row after `row *= level / this_mean`; a lost row keeps its old cells. */
  function Rescaled(m: seq<seq<real>>, mask: seq<real>, level: Mean): (r: seq<seq<real>>)
    requires RowsOk(m, mask)
    ensures |r| == |m| && Rect(r) && |r[0]| == |m[0]|
    ensures forall i :: 0 <= i < |m| ==>
              r[i] == match Factor(level, MaskedMean(mask, m[i]))
                      case Some(f) => Scale(m[i], f)
                      case None => m[i]
  {
    seq(|m|, i requires 0 <= i < |m| =>
      match Factor(level, MaskedMean(mask, m[i]))
      case Some(f) => Scale(m[i], f)
      case None => m[i])
  }

  /** The array after the 'y' branch: every row brought to the level. */
  function NormRows(m: seq<seq<real>>, mask: seq<real>): (r: seq<seq<real>>)
    requires RowsOk(m, mask)
    ensures |r| == |m| && Rect(r) && |r[0]| == |m[0]|
  {
    Rescaled(m, mask, Level(m, mask))
  }

  /** The array after the 'x' branch: transpose, normalise rows, transpose back. */
  function NormCols(m: seq<seq<real>>, mask: seq<real>): (r: seq<seq<real>>)
    requires Rect(m) && RowsOk(Transpose(m), mask)
    ensures |r| == |m| && Rect(r) && Cols(r) == Cols(m)
  {
    Transpose(NormRows(Transpose(m), mask))
  }

  /** The mask argument, or `[1.]*n` when it is None. */
  function MaskOrOnes(mask: Option<seq<real>>, n: nat): (r: seq<real>)
    ensures mask.Some? ==> r == mask.value
    ensures mask.None? ==> |r| == n && forall j :: 0 <= j < n ==> r[j] == 1.0
  {
    if mask.Some? then mask.value else seq(n, _ => 1.0)
  }

  /** Scaling a row scales its product with the mask by the same factor. */
  lemma ProductScale(mask: seq<real>, row: seq<real>, c: real)
    requires Broadcasts(|mask|, |row|)
    ensures Product(mask, Scale(row, c)) == Scale(Product(mask, row), c)
  {
    var a, b := Product(mask, Scale(row, c)), Scale(Product(mask, row), c);
    forall j | 0 <= j < |a| ensures a[j] == b[j] {
      var x, y := mask[Stretch(|mask|, j)], row[Stretch(|row|, j)];
      assert x * (y * c) == (x * y) * c;
    }
  }

  lemma {:induction false} SumScale(p: seq<real>, c: real)
    ensures Sum(Scale(p, c)) == c * Sum(p)
  {
    if |p| > 0 {
      var n := |p| - 1;
      assert Scale(p, c)[..n] == Scale(p[..n], c) by {
        forall j | 0 <= j < n ensures Scale(p, c)[..n][j] == Scale(p[..n], c)[j] {}
      }
      SumScale(p[..n], c);
      assert Sum(Scale(p, c)) == Sum(Scale(p, c)[..n]) + p[n] * c;
    }
  }

  /** `c = level / mean` with `mean = d / n`: then `(c d) / n` is the level. */
  lemma RescaledMean(d: real, n: real, mm: real, c: real, level: real, e: real)
    requires n > 0.0 && mm == d / n && mm != 0.0 && c == level / mm && e == c * d
    ensures e / n == level
  {
    assert d == mm * n;
    assert c * mm == level;
    calc {
      e / n;
      (c * (mm * n)) / n;
      ((c * mm) * n) / n;
      c * mm;
    }
  }

  /** An array scaled by `level / its mean` has mean `level`. */
  lemma MeanRescaled(p: seq<real>, mm: real, c: real, level: real)
    requires MeanOf(p) == Mean(mm) && mm != 0.0 && c == level / mm
    ensures MeanOf(Scale(p, c)) == Mean(level)
  {
    var q, n := Scale(p, c), |p| as real;
    assert |p| > 0 && mm == Sum(p) / n;
    SumScale(p, c);
    assert MeanOf(q) == Mean(Sum(q) / n);
    RescaledMean(Sum(p), n, mm, c, level, Sum(q));
  }

  /** One row scaled by `level / its masked mean` has masked mean `level`. */
  lemma RowEqualized(mask: seq<real>, row: seq<real>, level: real)
    requires Broadcasts(|mask|, |row|)
    requires MaskedMean(mask, row).Mean? && MaskedMean(mask, row).v != 0.0
    ensures MaskedMean(mask, Scale(row, level / MaskedMean(mask, row).v)) == Mean(level)
  {
    var mm := MaskedMean(mask, row).v;
    ProductScale(mask, row, level / mm);
    MeanRescaled(Product(mask, row), mm, level / mm, level);
  }

  /** The level is a number exactly when every row mean is. */
  lemma LevelDefined(m: seq<seq<real>>, mask: seq<real>)
    requires RowsOk(m, mask)
    ensures Level(m, mask).Mean? <==> forall i :: 0 <= i < |m| ==> MaskedMean(mask, m[i]).Mean?
  {
    TotalDefined(RowMeans(m, mask));
  }

  /** numpy leaves every row finite exactly when the rows are empty, or every
      masked mean is a non-zero number. A zero masked mean loses its row; a
      NaN one (an empty product) makes the level NaN and loses every row. */
  lemma LostExactly(m: seq<seq<real>>, mask: seq<real>)
    requires RowsOk(m, mask)
    ensures LostRows(m, mask) == {} <==>
              |m[0]| == 0 || forall i :: 0 <= i < |m| ==> MaskedMean(mask, m[i]).Mean? && MaskedMean(mask, m[i]).v != 0.0
    ensures forall i :: 0 <= i < |m| && |m[i]| > 0 && MaskedMean(mask, m[i]) == Mean(0.0) ==> i in LostRows(m, mask)
    ensures (exists i :: 0 <= i < |m| && MaskedMean(mask, m[i]).MeanNaN?) ==>
              forall i :: 0 <= i < |m| && |m[i]| > 0 ==> i in LostRows(m, mask)
  {
    if |m[0]| > 0 && LostRows(m, mask) == {} {
      NoneLost(m, mask);
    }
    if |m[0]| == 0 || forall i :: 0 <= i < |m| ==> MaskedMean(mask, m[i]).Mean? && MaskedMean(mask, m[i]).v != 0.0 {
      AllKept(m, mask);
    }
    ZeroMeanLost(m, mask);
    NaNMeanLost(m, mask);
  }

  /** A non-empty row with a zero masked mean is lost. */
  lemma ZeroMeanLost(m: seq<seq<real>>, mask: seq<real>)
    requires RowsOk(m, mask)
    ensures forall i :: 0 <= i < |m| && |m[i]| > 0 && MaskedMean(mask, m[i]) == Mean(0.0) ==> i in LostRows(m, mask)
  {
    forall i | 0 <= i < |m| && |m[i]| > 0 && MaskedMean(mask, m[i]) == Mean(0.0) ensures i in LostRows(m, mask) {
      assert Lost(m, mask, Level(m, mask), i);
    }
  }

  /** One NaN masked mean makes the level NaN and loses every non-empty row. */
  lemma NaNMeanLost(m: seq<seq<real>>, mask: seq<real>)
    requires RowsOk(m, mask)
    ensures (exists i :: 0 <= i < |m| && MaskedMean(mask, m[i]).MeanNaN?) ==>
              forall i :: 0 <= i < |m| && |m[i]| > 0 ==> i in LostRows(m, mask)
  {
    LevelDefined(m, mask);
    if exists k :: 0 <= k < |m| && MaskedMean(mask, m[k]).MeanNaN? {
      forall i | 0 <= i < |m| && |m[i]| > 0 ensures i in LostRows(m, mask) {
        assert Lost(m, mask, Level(m, mask), i);
      }
    }
  }

  /** With empty rows, or every masked mean a non-zero number, nothing is lost. */
  lemma AllKept(m: seq<seq<real>>, mask: seq<real>)
    requires RowsOk(m, mask)
    requires |m[0]| == 0 || forall i :: 0 <= i < |m| ==> MaskedMean(mask, m[i]).Mean? && MaskedMean(mask, m[i]).v != 0.0
    ensures LostRows(m, mask) == {}
  {
    LevelDefined(m, mask);
    forall i | 0 <= i < |m| ensures !Lost(m, mask, Level(m, mask), i) {
      assert |m[i]| == |m[0]|;
    }
  }

  /** With non-empty rows and none lost, every masked mean is a non-zero number. */
  lemma NoneLost(m: seq<seq<real>>, mask: seq<real>)
    requires RowsOk(m, mask) && |m[0]| > 0 && LostRows(m, mask) == {}
    ensures forall i :: 0 <= i < |m| ==> MaskedMean(mask, m[i]).Mean? && MaskedMean(mask, m[i]).v != 0.0
  {
    forall i | 0 <= i < |m| ensures MaskedMean(mask, m[i]).Mean? && MaskedMean(mask, m[i]).v != 0.0 {
      assert i !in LostRows(m, mask);
      assert |m[i]| > 0;
    }
  }

  /** After axis 'y' with no row lost, every row's masked mean equals the
      level: the average of the original row means. */
  lemma RowsEqualized(m: seq<seq<real>>, mask: seq<real>)
    requires RowsOk(m, mask) && LostRows(m, mask) == {}
    ensures var r := NormRows(m, mask);
            forall i :: 0 <= i < |r| ==> Broadcasts(|mask|, |r[i]|) && MaskedMean(mask, r[i]) == Level(m, mask)
  {
    var r := NormRows(m, mask);
    LostExactly(m, mask);
    LevelDefined(m, mask);
    if |m[0]| == 0 {
      assert MaskedMean(mask, m[0]).MeanNaN?;
    } else {
      forall i | 0 <= i < |r|
        ensures Broadcasts(|mask|, |r[i]|) && MaskedMean(mask, r[i]) == Level(m, mask)
      {
        RowEqualized(mask, m[i], Level(m, mask).v);
      }
    }
  }

  /** After axis 'x' with no column lost, the shape is kept and every
      column's masked mean equals the average of the original column means. */
  lemma ColumnsEqualized(m: seq<seq<real>>, mask: seq<real>)
    requires Rect(m) && RowsOk(Transpose(m), mask) && LostRows(Transpose(m), mask) == {}
    ensures var r := NormCols(m, mask);
            |r| == |m| && Rect(r) && Cols(r) == Cols(m)
            && forall j :: 0 <= j < Cols(m) ==>
                 Broadcasts(|mask|, |Transpose(r)[j]|) && MaskedMean(mask, Transpose(r)[j]) == Level(Transpose(m), mask)
  {
    var t := Transpose(m);
    var nt := NormRows(t, mask);
    RowsEqualized(t, mask);
    TransposeTwice(nt);
    assert Transpose(NormCols(m, mask)) == nt;
  }

  /** The array and the rows ('y') or columns ('x') numpy filled with inf
      and NaN. */
  datatype Normalized = Normalized(m: seq<seq<real>>, lost: set<nat>)

  /** `arr_normalize_axis(arr, axis, mask)` on an array of |m| rows of `cols` cells. */
  function NormalizeSpec(m: seq<seq<real>>, cols: nat, axis: Option<string>, mask: Option<seq<real>>)
    : Result<Normalized>
    requires Rect(m) && (|m| > 0 ==> |m[0]| == cols)
  {
    if axis.None? then Ok(Normalized(m, {}))
    else if axis == Some("y") then
      // `arr[0]` for the default mask, otherwise `mean /= float(0)`
      if |m| == 0 then Err(if mask.None? then IndexError else ZeroDivisionError)
      else
        var w := MaskOrOnes(mask, cols);
        // `mask * row` of shapes that do not broadcast
        if !Broadcasts(|w|, cols) then Err(ValueError)
        else Ok(Normalized(NormRows(m, w), LostRows(m, w)))
    else if axis == Some("x") then
      // arr.T has as many rows as arr has columns
      if cols == 0 then Err(if mask.None? then IndexError else ZeroDivisionError)
      else
        var w := MaskOrOnes(mask, |m|);
        if !Broadcasts(|w|, |m|) then Err(ValueError)
        else if |m| == 0 then Ok(Normalized(m, {}))  // every row of arr.T is empty
        else Ok(Normalized(NormCols(m, w), LostRows(Transpose(m), w)))
    else Err(Exception)
  }

  /** The outcomes of `arr_normalize_axis`: no axis returns the array as it
      is, an unknown axis raises, and 'y' ('x') raises exactly for an array
      without rows (columns) or a mask that does not broadcast against a row
      (column). Otherwise the shape is kept and only the rows (columns) whose
      factor is not finite are lost. */
  lemma NormalizeOutcomes(m: seq<seq<real>>, cols: nat, axis: Option<string>, mask: Option<seq<real>>)
    requires Rect(m) && (|m| > 0 ==> |m[0]| == cols)
    ensures var r := NormalizeSpec(m, cols, axis, mask);
            && (axis.None? ==> r == Ok(Normalized(m, {})))
            && (axis.Some? && axis.value != "y" && axis.value != "x" ==> r == Err(Exception))
            && (axis == Some("y") ==>
                  && (r.Err? <==> |m| == 0 || !Broadcasts(|MaskOrOnes(mask, cols)|, cols))
                  && (r.Err? ==> r.error == if |m| == 0 then (if mask.None? then IndexError else ZeroDivisionError) else ValueError)
                  && (r.Ok? ==> |r.value.m| == |m| && Rect(r.value.m) && Cols(r.value.m) == cols
                                && r.value.lost == LostRows(m, MaskOrOnes(mask, cols))))
            && (axis == Some("x") ==>
                  && (r.Err? <==> cols == 0 || !Broadcasts(|MaskOrOnes(mask, |m|)|, |m|))
                  && (r.Err? ==> r.error == if cols == 0 then (if mask.None? then IndexError else ZeroDivisionError) else ValueError)
                  && (r.Ok? ==> |r.value.m| == |m| && Rect(r.value.m) && Cols(r.value.m) == Cols(m)
                                && (|m| > 0 ==> r.value.lost == LostRows(Transpose(m), MaskOrOnes(mask, |m|)))))
    ensures mask.None? && |m| > 0 && cols > 0 && (axis == Some("y") || axis == Some("x")) ==> NormalizeSpec(m, cols, axis, mask).Ok?
  {
  }

  /** Without a mask, 'y' raises exactly for an array without rows and 'x'
      for one without columns: IndexError, reading `arr[0]`. */
  lemma DefaultMaskOutcomes(m: seq<seq<real>>, cols: nat)
    requires Rect(m) && (|m| > 0 ==> |m[0]| == cols)
    ensures var r := NormalizeSpec(m, cols, Some("y"), None); (r.Err? <==> |m| == 0) && (r.Err? ==> r.error == IndexError)
    ensures var r := NormalizeSpec(m, cols, Some("x"), None); (r.Err? <==> cols == 0) && (r.Err? ==> r.error == IndexError)
  {
  }

  /** `np.mean(mask * row)` for row i of the array. */
  method RowMean(a: array2<real>, i: nat, mask: seq<real>) returns (r: Mean)
    requires i < a.Length0 && Broadcasts(|mask|, a.Length1)
    ensures r == MaskedMean(mask, Contents(a)[i])
  {
    var row := seq(a.Length1, j requires 0 <= j < a.Length1 reads a => a[i, j]);
    assert row == Contents(a)[i];
    r := MaskedMean(mask, row);
  }

  /** `np.mean(mask * column)` for column j of the array. */
  method ColumnMean(a: array2<real>, j: nat, mask: seq<real>) returns (r: Mean)
    requires 0 < a.Length0 && j < a.Length1 && Broadcasts(|mask|, a.Length0)
    ensures r == MaskedMean(mask, Transpose(Contents(a))[j])
  {
    var column := seq(a.Length0, i requires 0 <= i < a.Length0 reads a => a[i, j]);
    assert column == Transpose(Contents(a))[j];
    r := MaskedMean(mask, column);
  }

  /** The first loop of the 'y' branch: the average of the row means. */
  method RowLevel(a: array2<real>, mask: seq<real>) returns (mean: Mean)
    requires RowsOk(Contents(a), mask)
    ensures mean == Level(Contents(a), mask)
  {
    ghost var means := RowMeans(Contents(a), mask);
    mean := Mean(0.0);
    var i := 0;
    while i < a.Length0
      invariant 0 <= i <= a.Length0
      invariant mean == Total(means[..i])
    {
      var rm := RowMean(a, i, mask);
      TotalStep(means, i);
      mean := Plus(mean, rm);
      i := i + 1;
    }
    assert means[..i] == means;
    if mean.Mean? {
      mean := Mean(mean.v / (a.Length0 as real));
    }
  }

  /** The first loop of the 'x' branch: the average of the column means. */
  method ColumnLevel(a: array2<real>, mask: seq<real>) returns (mean: Mean)
    requires RowsOk(Transpose(Contents(a)), mask)
    ensures mean == Level(Transpose(Contents(a)), mask)
  {
    ghost var means := RowMeans(Transpose(Contents(a)), mask);
    mean := Mean(0.0);
    var j := 0;
    while j < a.Length1
      invariant 0 <= j <= a.Length1
      invariant mean == Total(means[..j])
    {
      var cm := ColumnMean(a, j, mask);
      TotalStep(means, j);
      mean := Plus(mean, cm);
      j := j + 1;
    }
    assert means[..j] == means;
    if mean.Mean? {
      mean := Mean(mean.v / (a.Length1 as real));
    }
  }

  /** `row *= factor` for row i. */
  method ScaleRowInPlace(a: array2<real>, i: nat, factor: real)
    requires i < a.Length0
    modifies a
    ensures Contents(a)[i] == Scale(old(Contents(a))[i], factor)
    ensures forall k :: 0 <= k < a.Length0 && k != i ==> Contents(a)[k] == old(Contents(a))[k]
  {
    var j := 0;
    while j < a.Length1
      invariant 0 <= j <= a.Length1
      invariant forall l :: 0 <= l < j ==> a[i, l] == old(a[i, l]) * factor
      invariant forall l :: j <= l < a.Length1 ==> a[i, l] == old(a[i, l])
      invariant forall k, l :: 0 <= k < a.Length0 && k != i && 0 <= l < a.Length1 ==> a[k, l] == old(a[k, l])
    {
      a[i, j] := a[i, j] * factor;
      j := j + 1;
    }
    assert Contents(a)[i] == Scale(old(Contents(a))[i], factor) by {
      forall l | 0 <= l < a.Length1 ensures Contents(a)[i][l] == Scale(old(Contents(a))[i], factor)[l] {}
    }
    forall k | 0 <= k < a.Length0 && k != i ensures Contents(a)[k] == old(Contents(a))[k] {
      forall l | 0 <= l < a.Length1 ensures Contents(a)[k][l] == old(Contents(a))[k][l] {}
    }
  }

  /** `column *= factor` for column j (a row of the transposed view). */
  method ScaleColumnInPlace(a: array2<real>, j: nat, factor: real)
    requires 0 < a.Length0 && j < a.Length1
    modifies a
    ensures Transpose(Contents(a))[j] == Scale(Transpose(old(Contents(a)))[j], factor)
    ensures forall l :: 0 <= l < a.Length1 && l != j ==> Transpose(Contents(a))[l] == Transpose(old(Contents(a)))[l]
  {
    var i := 0;
    while i < a.Length0
      invariant 0 <= i <= a.Length0
      invariant forall k :: 0 <= k < i ==> a[k, j] == old(a[k, j]) * factor
      invariant forall k :: i <= k < a.Length0 ==> a[k, j] == old(a[k, j])
      invariant forall k, l :: 0 <= k < a.Length0 && 0 <= l < a.Length1 && l != j ==> a[k, l] == old(a[k, l])
    {
      a[i, j] := a[i, j] * factor;
      i := i + 1;
    }
    ColumnScaled(old(Contents(a)), Contents(a), j, factor);
  }

  /** A matrix whose column j alone was multiplied by `factor`, read through
      its transpose. */
  lemma ColumnScaled(before: seq<seq<real>>, after: seq<seq<real>>, j: nat, factor: real)
    requires Rect(before) && Rect(after) && |before| == |after| > 0 && |after[0]| == |before[0]| && j < |before[0]|
    requires forall k :: 0 <= k < |before| ==> after[k][j] == before[k][j] * factor
    requires forall k, l :: 0 <= k < |before| && 0 <= l < |before[0]| && l != j ==> after[k][l] == before[k][l]
    ensures Transpose(after)[j] == Scale(Transpose(before)[j], factor)
    ensures forall l :: 0 <= l < |before[0]| && l != j ==> Transpose(after)[l] == Transpose(before)[l]
  {
    var t, t0 := Transpose(after), Transpose(before);
    assert t[j] == Scale(t0[j], factor) by {
      forall k | 0 <= k < |before| ensures t[j][k] == Scale(t0[j], factor)[k] {}
    }
    forall l | 0 <= l < |before[0]| && l != j ensures t[l] == t0[l] {
      forall k | 0 <= k < |before| ensures t[l][k] == t0[l][k] {}
    }
  }

  /** The 'y' branch: every row scaled in place; the lost rows are returned. */
  method NormalizeRows(a: array2<real>, mask: seq<real>) returns (lost: set<nat>)
    requires RowsOk(Contents(a), mask)
    modifies a
    ensures Contents(a) == NormRows(old(Contents(a)), mask)
    ensures lost == LostRows(old(Contents(a)), mask)
  {
    ghost var m := Contents(a);
    var mean := RowLevel(a, mask);
    RowsStart(a, mask, mean);
    lost := ScaleRows(a, mask, mean, m);
    RowsEnd(a, mask, mean, m);
  }

  /** Before the second loop of the 'y' branch no row is scaled yet. */
  lemma RowsStart(a: array2<real>, mask: seq<real>, level: Mean)
    requires RowsOk(Contents(a), mask)
    ensures RowsDone(a, mask, level, 0, Contents(a))
  {
    var m := Contents(a);
    assert Rescaled(m, mask, level)[..0] + m[0..] == m;
  }

  /** After it every row is scaled. */
  lemma RowsEnd(a: array2<real>, mask: seq<real>, level: Mean, m: seq<seq<real>>)
    requires RowsDone(a, mask, level, a.Length0, m)
    ensures Contents(a) == Rescaled(m, mask, level)
  {
    assert Rescaled(m, mask, level)[..|m|] + m[|m|..] == Rescaled(m, mask, level);
  }

  /** The state of the 'y' loop after i rows: those scaled, the rest as they were. */
  ghost predicate RowsDone(a: array2<real>, mask: seq<real>, level: Mean, i: nat, m: seq<seq<real>>)
    reads a
  {
    && RowsOk(m, mask) && i <= |m| == a.Length0
    && Contents(a) == Rescaled(m, mask, level)[..i] + m[i..]
  }

  /** The second loop of the 'y' branch: every row scaled, the lost ones recorded. */
  method ScaleRows(a: array2<real>, mask: seq<real>, level: Mean, ghost m: seq<seq<real>>) returns (lost: set<nat>)
    requires RowsDone(a, mask, level, 0, m)
    modifies a
    ensures RowsDone(a, mask, level, a.Length0, m)
    ensures lost == LostBelow(m, mask, level, |m|)
  {
    lost := {};
    var i := 0;
    while i < a.Length0
      invariant RowsDone(a, mask, level, i, m)
      invariant lost == LostBelow(m, mask, level, i)
    {
      lost := NormalizeRow(a, mask, level, i, m, lost);
      i := i + 1;
    }
  }

  /** One pass of the 'y' loop: `row *= mean / this_mean` for row i. */
  method NormalizeRow(a: array2<real>, mask: seq<real>, level: Mean, i: nat, ghost m: seq<seq<real>>, lost: set<nat>)
    returns (lost': set<nat>)
    requires RowsDone(a, mask, level, i, m) && i < a.Length0 && lost == LostBelow(m, mask, level, i)
    modifies a
    ensures RowsDone(a, mask, level, i + 1, m)
    ensures lost' == LostBelow(m, mask, level, i + 1)
  {
    ghost var before := Contents(a);
    assert before[i] == m[i];
    var thisMean := RowMean(a, i, mask);
    var factor := Factor(level, thisMean);
    RescaledAt(m, mask, level, i, factor);
    LostBelowStep(m, mask, level, i);
    lost' := if factor.None? && a.Length1 > 0 then lost + {i} else lost;  // `row *= inf` or `row *= nan`
    if factor.Some? {
      ScaleRowInPlace(a, i, factor.value);
    }
    NextDone(before, Contents(a), m, Rescaled(m, mask, level), i);
  }

  /** The 'x' branch: the rows of `arr.T` are the columns of `arr`, scaled in
      place; the lost columns are returned. */
  method NormalizeColumns(a: array2<real>, mask: seq<real>) returns (lost: set<nat>)
    requires RowsOk(Transpose(Contents(a)), mask)
    modifies a
    ensures Contents(a) == NormCols(old(Contents(a)), mask)
    ensures lost == LostRows(Transpose(old(Contents(a))), mask)
  {
    ghost var t := Transpose(Contents(a));
    var mean := ColumnLevel(a, mask);
    ColumnsStart(a, mask, mean);
    lost := ScaleColumns(a, mask, mean, t);
    ColumnsEnd(a, mask, mean, t);
  }

  /** Before the second loop of the 'x' branch no column is scaled yet. */
  lemma ColumnsStart(a: array2<real>, mask: seq<real>, level: Mean)
    requires RowsOk(Transpose(Contents(a)), mask)
    ensures ColumnsDone(a, mask, level, 0, Transpose(Contents(a)))
  {
    var t := Transpose(Contents(a));
    assert Rescaled(t, mask, level)[..0] + t[0..] == t;
  }

  /** After it every column is scaled: the array is the transpose of the
      rescaled transpose. */
  lemma ColumnsEnd(a: array2<real>, mask: seq<real>, level: Mean, t: seq<seq<real>>)
    requires ColumnsDone(a, mask, level, a.Length1, t)
    ensures Contents(a) == Transpose(Rescaled(t, mask, level))
  {
    var nt := Rescaled(t, mask, level);
    assert nt[..|t|] + t[|t|..] == nt;
    TransposeTwice(Contents(a));
  }

  /** The second loop of the 'x' branch: every column scaled, the lost ones
      recorded. */
  method ScaleColumns(a: array2<real>, mask: seq<real>, level: Mean, ghost t: seq<seq<real>>) returns (lost: set<nat>)
    requires ColumnsDone(a, mask, level, 0, t)
    modifies a
    ensures ColumnsDone(a, mask, level, a.Length1, t)
    ensures lost == LostBelow(t, mask, level, |t|)
  {
    lost := {};
    var j := 0;
    while j < a.Length1
      invariant ColumnsDone(a, mask, level, j, t)
      invariant lost == LostBelow(t, mask, level, j)
    {
      lost := NormalizeColumn(a, mask, level, j, t, lost);
      j := j + 1;
    }
  }

  /** The state of the 'x' loop after j columns: those scaled, the rest as they were. */
  ghost predicate ColumnsDone(a: array2<real>, mask: seq<real>, level: Mean, j: nat, t: seq<seq<real>>)
    reads a
  {
    && RowsOk(t, mask) && j <= |t| == a.Length1
    && Transpose(Contents(a)) == Rescaled(t, mask, level)[..j] + t[j..]
  }

  /** One pass of the 'x' loop: `column *= mean / this_mean` for column j. */
  method NormalizeColumn(a: array2<real>, mask: seq<real>, level: Mean, j: nat, ghost t: seq<seq<real>>, lost: set<nat>)
    returns (lost': set<nat>)
    requires ColumnsDone(a, mask, level, j, t) && j < a.Length1 && lost == LostBelow(t, mask, level, j)
    modifies a
    ensures ColumnsDone(a, mask, level, j + 1, t)
    ensures lost' == LostBelow(t, mask, level, j + 1)
  {
    ghost var before := Transpose(Contents(a));
    assert before[j] == t[j];
    var thisMean := ColumnMean(a, j, mask);
    var factor := Factor(level, thisMean);
    RescaledAt(t, mask, level, j, factor);
    LostBelowStep(t, mask, level, j);
    lost' := if factor.None? && a.Length0 > 0 then lost + {j} else lost;  // `column *= inf` or `column *= nan`
    if factor.Some? {
      ScaleColumnInPlace(a, j, factor.value);
    }
    NextDone(before, Transpose(Contents(a)), t, Rescaled(t, mask, level), j);
  }

  /** Row i of the rescaled array, and whether it is lost, by its factor. */
  lemma RescaledAt(m: seq<seq<real>>, mask: seq<real>, level: Mean, i: nat, factor: Option<real>)
    requires RowsOk(m, mask) && i < |m| && factor == Factor(level, MaskedMean(mask, m[i]))
    ensures Rescaled(m, mask, level)[i] == if factor.Some? then Scale(m[i], factor.value) else m[i]
    ensures Lost(m, mask, level, i) <==> factor.None? && |m[i]| > 0
  {
  }

  /** The loop step of both branches: entry j replaced, the others kept. */
  lemma NextDone(before: seq<seq<real>>, after: seq<seq<real>>, t: seq<seq<real>>, nt: seq<seq<real>>, j: nat)
    requires |t| == |nt| && j < |t|
    requires before == nt[..j] + t[j..]
    requires |after| == |before| && after[j] == nt[j]
    requires forall l :: 0 <= l < |before| && l != j ==> after[l] == before[l]
    ensures after == nt[..j + 1] + t[j + 1..]
  {
    forall l | 0 <= l < |after| ensures after[l] == (nt[..j + 1] + t[j + 1..])[l] {
      if l < j {
        assert before[l] == nt[l];
      } else if l > j {
        assert before[l] == t[l];
      }
    }
  }

  /** `arr_normalize_axis(arr, axis, mask)`: the array is changed in place,
      and the rows ('y') or columns ('x') numpy filled with inf and NaN are
      returned. */
  method NormalizeAxis(a: array2<real>, axis: Option<string>, mask: Option<seq<real>>)
    returns (err: Option<PyError>, lost: set<nat>)
    modifies a
    ensures var spec := NormalizeSpec(old(Contents(a)), a.Length1, axis, mask);
            && (spec.Err? ==> err == Some(spec.error) && lost == {} && Contents(a) == old(Contents(a)))
            && (spec.Ok? ==> err == None && Contents(a) == spec.value.m && lost == spec.value.lost)
  {
    if axis.None? {
      return None, {};
    } else if axis == Some("y") {
      if a.Length0 == 0 {
        return Some(if mask.None? then IndexError else ZeroDivisionError), {};
      }
      var w := MaskOrOnes(mask, a.Length1);
      if !Broadcasts(|w|, a.Length1) {
        return Some(ValueError), {};
      }
      lost := NormalizeRows(a, w);
      return None, lost;
    } else if axis == Some("x") {
      if a.Length1 == 0 {
        return Some(if mask.None? then IndexError else ZeroDivisionError), {};
      }
      var w := MaskOrOnes(mask, a.Length0);
      if !Broadcasts(|w|, a.Length0) {
        return Some(ValueError), {};
      }
      if a.Length0 == 0 {
        return None, {};
      }
      lost := NormalizeColumns(a, w);
      return None, lost;
    } else {
      return Some(Exception), {};
    }
  }
}
