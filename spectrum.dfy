// The clean-up applied to the dynamic and secondary spectra in
// arcfinder/computing.py (Dynamic.get_dynamic_spectrum, get_dyn_axes,
// Secondary.get_secondary_spectrum, get_sec_axes): rotation, outlier
// clipping, the normalisation masks, the background floor, the crop window,
// and the axes that label the rows and columns.
//
// The statistics (mean, standard deviation, histogram counts) and the FFT are
// numerics this model does not reproduce: they come in as parameters.

module Spectrum {
  import opened PyCore
  import opened Seqs
  import opened Grids
  import Normalize
  import Indexed

  // ---------------------------------------------------------------- rotation

  /** np.rot90 with its defaults: a quarter turn counter-clockwise of an
      array of |m| rows of `cols` cells, which has `cols` rows of |m| cells. */
  function Rot90(m: seq<seq<real>>, cols: nat): (r: seq<seq<real>>)
    requires Rect(m) && (|m| > 0 ==> |m[0]| == cols)
    ensures |r| == cols && Rect(r)
    ensures forall i :: 0 <= i < cols ==> |r[i]| == |m|
    ensures forall i, j :: 0 <= i < cols && 0 <= j < |m| ==> r[i][j] == m[j][cols - 1 - i]
  {
    seq(cols, i requires 0 <= i < cols => seq(|m|, j requires 0 <= j < |m| => m[j][cols - 1 - i]))
  }

  function ReverseRows(m: seq<seq<real>>): (r: seq<seq<real>>)
    ensures |r| == |m| && forall i :: 0 <= i < |m| ==> r[i] == m[|m| - 1 - i]
  {
    seq(|m|, i requires 0 <= i < |m| => m[|m| - 1 - i])
  }

  /** numpy documents rot90(m) as flip(transpose(m), axis=0). */
  lemma Rot90IsFlippedTranspose(m: seq<seq<real>>)
    requires Rect(m) && |m| > 0
    ensures Rot90(m, |m[0]|) == ReverseRows(Transpose(m))
  {
    var r, f := Rot90(m, |m[0]|), ReverseRows(Transpose(m));
    forall i | 0 <= i < |r| ensures r[i] == f[i] {
      assert |f[i]| == |m|;
    }
  }

  /** A half turn: row i, column j holds the cell at the opposite corner. */
  function HalfTurn(m: seq<seq<real>>, cols: nat): (r: seq<seq<real>>)
    requires Rect(m) && (|m| > 0 ==> |m[0]| == cols)
  {
    seq(|m|, i requires 0 <= i < |m| => seq(cols, j requires 0 <= j < cols => m[|m| - 1 - i][cols - 1 - j]))
  }

  /** Two quarter turns make a half turn. */
  lemma Rot90Twice(m: seq<seq<real>>, cols: nat)
    requires Rect(m) && (|m| > 0 ==> |m[0]| == cols)
    ensures Rot90(Rot90(m, cols), |m|) == HalfTurn(m, cols)
  {
    var r2, h := Rot90(Rot90(m, cols), |m|), HalfTurn(m, cols);
    forall i | 0 <= i < |m| ensures r2[i] == h[i] {
      forall j | 0 <= j < cols ensures r2[i][j] == h[i][j] {
        assert r2[i][j] == Rot90(m, cols)[j][|m| - 1 - i];
      }
    }
  }

  /** Two half turns give back the array. */
  lemma HalfTurnTwice(m: seq<seq<real>>, cols: nat)
    requires Rect(m) && (|m| > 0 ==> |m[0]| == cols)
    ensures Rect(HalfTurn(m, cols)) && (|m| > 0 ==> |HalfTurn(m, cols)[0]| == cols)
    ensures HalfTurn(HalfTurn(m, cols), cols) == m
  {
    var h := HalfTurn(m, cols);
    assert Rect(h);
    var hh := HalfTurn(h, cols);
    forall i | 0 <= i < |m| ensures hh[i] == m[i] {
      assert |hh[i]| == |m[i]|;
    }
  }

  /** Four quarter turns of an R x C array give back the array. */
  lemma Rot90FourTimes(m: seq<seq<real>>, cols: nat)
    requires Rect(m) && (|m| > 0 ==> |m[0]| == cols)
    ensures Rot90(Rot90(Rot90(Rot90(m, cols), |m|), cols), |m|) == m
  {
    var r2 := Rot90(Rot90(m, cols), |m|);
    Rot90Twice(m, cols);
    HalfTurnTwice(m, cols);
    Rot90Twice(r2, cols);
  }

  // ---------------------------------------------------------- outlier clipping

  /** The threshold `dyn_median + outliers_sigma * dyn_med_std`. */
  function OutlierThreshold(mean: real, std: real, outliersSigma: real): real
  {
    mean + outliersSigma * std
  }

  /** One cell after `dynamic[np.where(dynamic >= threshold)] = mean`. */
  function ClipCell(mean: real, threshold: real): real -> real
  {
    v => if v >= threshold then mean else v
  }

  /** The dynamic spectrum after clipping. */
  function Clipped(m: seq<seq<real>>, mean: real, threshold: real): seq<seq<real>>
  {
    MapCells(m, ClipCell(mean, threshold))
  }

  /** Clipping in place. */
  method ClipOutliers(a: array2<real>, mean: real, threshold: real)
    modifies a
    ensures Contents(a) == Clipped(old(Contents(a)), mean, threshold)
  {
    MapInPlace(a, ClipCell(mean, threshold));
  }

  /** Every cell at or above the threshold becomes the mean, every other cell
      is kept; when the mean is itself below the threshold, no cell is left at
      or above it and clipping a second time changes nothing. */
  lemma ClippedCells(m: seq<seq<real>>, mean: real, threshold: real)
    ensures var r := Clipped(m, mean, threshold);
            |r| == |m|
            && (forall i :: 0 <= i < |m| ==> |r[i]| == |m[i]|)
            && (forall i, j :: 0 <= i < |m| && 0 <= j < |m[i]| && m[i][j] >= threshold ==> r[i][j] == mean)
            && (forall i, j :: 0 <= i < |m| && 0 <= j < |m[i]| && m[i][j] < threshold ==> r[i][j] == m[i][j])
            && (mean < threshold ==> forall i, j :: 0 <= i < |m| && 0 <= j < |m[i]| ==> r[i][j] < threshold)
  {
  }

  lemma ClipIdempotent(m: seq<seq<real>>, mean: real, threshold: real)
    requires mean <= threshold
    ensures Clipped(Clipped(m, mean, threshold), mean, threshold) == Clipped(m, mean, threshold)
  {
    var r := Clipped(m, mean, threshold);
    var rr := Clipped(r, mean, threshold);
    forall i | 0 <= i < |m| ensures rr[i] == r[i] {
      forall j | 0 <= j < |m[i]| ensures rr[i][j] == r[i][j] {
        assert rr[i][j] == ClipCell(mean, threshold)(r[i][j]);
      }
    }
  }

  // ------------------------------------------------------------------ masks

  /** The frequency mask: 1 in the outer quarters of a row of length n, 0 in the middle. */
  function FrequencyMask(n: nat): (r: seq<real>)
    ensures |r| == n
  {
    seq(n, i => if (i as real) < (n as real) / 4.0 || (i as real) > 3.0 * (n as real) / 4.0 then 1.0 else 0.0)
  }

  /** The time mask: 1 in the first quarter of a column of length n, 0 elsewhere. */
  function TimeMask(n: nat): (r: seq<real>)
    ensures |r| == n
  {
    seq(n, i => if (i as real) < (n as real) / 4.0 then 1.0 else 0.0)
  }

  /** Both masks are 0/1 masks, selected by integer comparisons; both select position 0 of a non-empty axis. */
  lemma MaskPositions(n: nat)
    ensures forall i :: 0 <= i < n ==> (FrequencyMask(n)[i] == 1.0 <==> 4 * i < n || 4 * i > 3 * n)
    ensures forall i :: 0 <= i < n ==> (FrequencyMask(n)[i] == 0.0 <==> n <= 4 * i <= 3 * n)
    ensures forall i :: 0 <= i < n ==> (TimeMask(n)[i] == 1.0 <==> 4 * i < n)
    ensures forall i :: 0 <= i < n ==> (TimeMask(n)[i] == 0.0 <==> 4 * i >= n)
    ensures n > 0 ==> FrequencyMask(n)[0] == 1.0 && TimeMask(n)[0] == 1.0
  {
    forall i | 0 <= i < n
      ensures ((i as real) < (n as real) / 4.0 <==> 4 * i < n)
      ensures ((i as real) > 3.0 * (n as real) / 4.0 <==> 4 * i > 3 * n)
    {
      assert (4 * i) as real == 4.0 * (i as real);
      assert (3 * n) as real == 3.0 * (n as real);
    }
  }

  // --------------------------------------------------------- background floor

  /** The number of histogram bins `np.histogram(secondary, bins=25)` is asked for. */
  const NBins := 25

  /** All cells, row after row. */
  function Flatten(m: seq<seq<real>>): (r: seq<real>)
    ensures forall v :: v in r <==> exists i, j :: 0 <= i < |m| && 0 <= j < |m[i]| && m[i][j] == v
  {
    if |m| == 0 then []
    else
      var init := Flatten(m[..|m| - 1]);
      assert forall i :: 0 <= i < |m| - 1 ==> m[..|m| - 1][i] == m[i];
      init + m[|m| - 1]
  }

  lemma FlattenEmpty(m: seq<seq<real>>)
    ensures |Flatten(m)| == 0 <==> forall i :: 0 <= i < |m| ==> |m[i]| == 0
  {
    if |Flatten(m)| > 0 {
      assert Flatten(m)[0] in Flatten(m);
    }
    forall i | 0 <= i < |m| && |m[i]| > 0 ensures |Flatten(m)| > 0 {
      assert m[i][0] in Flatten(m);
    }
  }

  /** `np.max` of the histogram counts. */
  function MaxCount(c: seq<nat>): (top: nat)
    requires |c| > 0
    ensures top in c && forall i :: 0 <= i < |c| ==> c[i] <= top
  {
    if |c| == 1 then c[0]
    else
      var rest := MaxCount(c[1..]);
      assert forall i :: 1 <= i < |c| ==> c[i] == c[1..][i - 1];
      if c[0] >= rest then c[0] else rest
  }

  /** `np.where(c == v)[0]`: the positions holding v, in increasing order. */
  function Where(c: seq<nat>, v: nat): (r: seq<nat>)
    ensures forall k :: 0 <= k < |r| ==> r[k] < |c| && c[r[k]] == v
    ensures forall i :: 0 <= i < |c| && c[i] == v ==> i in r
    ensures forall k, l :: 0 <= k < l < |r| ==> r[k] < r[l]
  {
    if |c| == 0 then []
    else
      var init := Where(c[..|c| - 1], v);
      if c[|c| - 1] == v then init + [|c| - 1] else init
  }

  lemma {:induction false} WhereNone(c: seq<nat>, v: nat)
    requires forall i :: 0 <= i < |c| ==> c[i] != v
    ensures Where(c, v) == []
  {
    if |c| > 0 {
      WhereNone(c[..|c| - 1], v);
    }
  }

  lemma {:induction false} WhereSingle(c: seq<nat>, v: nat, k: nat)
    requires k < |c| && c[k] == v
    requires forall i :: 0 <= i < |c| && i != k ==> c[i] != v
    ensures Where(c, v) == [k]
  {
    var n := |c| - 1;
    if k == n {
      WhereNone(c[..n], v);
    } else {
      WhereSingle(c[..n], v, k);
    }
  }

  /** `int(np.where(counts == max(counts))[0])`: the bin of the histogram peak;
      int() of an index array of any length other than one raises TypeError. */
  function PeakBin(counts: seq<nat>): Result<nat>
    requires |counts| > 0
  {
    var w := Where(counts, MaxCount(counts));
    if |w| == 1 then Ok(w[0]) else Err(TypeError)
  }

  /** The peak is found exactly when one bin holds strictly more than every other. */
  lemma PeakBinUnique(counts: seq<nat>, k: nat)
    requires |counts| > 0 && k < |counts|
    ensures PeakBin(counts) == Ok(k) <==> forall i :: 0 <= i < |counts| && i != k ==> counts[i] < counts[k]
  {
    var top := MaxCount(counts);
    var w := Where(counts, top);
    if forall i :: 0 <= i < |counts| && i != k ==> counts[i] < counts[k] {
      assert counts[k] == top;
      WhereSingle(counts, top, k);
    }
    if PeakBin(counts) == Ok(k) {
      forall i | 0 <= i < |counts| && i != k ensures counts[i] < counts[k] {
        assert counts[k] == top;
        assert counts[i] == top ==> i in w;
      }
    }
  }

  /** `xValDb` from np.min, np.max and the histogram counts: the histogram
      peak's bin floor, raised by 3 dB. A peak shared by several bins fails
      the int() conversion (TypeError). */
  function FloorFrom(lo: real, hi: real, counts: seq<nat>): Result<real>
    requires |counts| == NBins
  {
    var binsize := ((hi - lo) / (NBins as real)).Floor as real;
    match PeakBin(counts)
    case Err(e) => Err(e)
    case Ok(xVal) => Ok(lo + binsize * (xVal as real) + 3.0)
  }

  /** `xValDb` of an array: an array with no cells has no maximum (ValueError). */
  function BackgroundFloor(m: seq<seq<real>>, counts: seq<nat>): Result<real>
    requires |counts| == NBins
  {
    var flat := Flatten(m);
    if |flat| == 0 then Err(ValueError)
    else FloorFrom(MinOf(flat), MaxOf(flat), counts)
  }

  /** A value of the list no larger (no smaller) than any is its min (max). */
  lemma ExtremesUnique(s: seq<real>, lo: real, hi: real)
    requires lo in s && hi in s
    requires forall v :: v in s ==> lo <= v <= hi
    ensures MinOf(s) == lo && MaxOf(s) == hi
  {
    assert MinOf(s) in s && MaxOf(s) in s;
  }

  /** Some cell of `a` holds `v`. */
  ghost predicate Attained(a: array2<real>, v: real)
    reads a
  {
    exists k, l :: 0 <= k < a.Length0 && 0 <= l < a.Length1 && a[k, l] == v
  }

  /** Every cell of the first `i` rows lies between `lo` and `hi`. */
  ghost predicate RowsWithin(a: array2<real>, lo: real, hi: real, i: int)
    reads a
  {
    forall k, l :: 0 <= k < i && 0 <= k < a.Length0 && 0 <= l < a.Length1 ==> lo <= a[k, l] <= hi
  }

  /** Bounds attained in the array and holding for every row are its minimum
      and maximum. */
  lemma GridExtremes(a: array2<real>, lo: real, hi: real)
    requires Attained(a, lo) && Attained(a, hi) && RowsWithin(a, lo, hi, a.Length0)
    ensures |Flatten(Contents(a))| > 0
    ensures lo == MinOf(Flatten(Contents(a))) && hi == MaxOf(Flatten(Contents(a)))
  {
    var m := Contents(a);
    var flat := Flatten(m);
    assert lo in flat && hi in flat by {
      var k, l :| 0 <= k < a.Length0 && 0 <= l < a.Length1 && a[k, l] == lo;
      assert m[k][l] == lo;
      var k', l' :| 0 <= k' < a.Length0 && 0 <= l' < a.Length1 && a[k', l'] == hi;
      assert m[k'][l'] == hi;
    }
    forall v | v in flat ensures lo <= v <= hi {
      var k, l :| 0 <= k < |m| && 0 <= l < |m[k]| && m[k][l] == v;
      assert a[k, l] == v;
    }
    ExtremesUnique(flat, lo, hi);
  }

  /** np.min and np.max of a non-empty array, in one pass. */
  method Extremes(a: array2<real>) returns (lo: real, hi: real)
    requires a.Length0 > 0 && a.Length1 > 0
    ensures |Flatten(Contents(a))| > 0
    ensures lo == MinOf(Flatten(Contents(a))) && hi == MaxOf(Flatten(Contents(a)))
  {
    lo, hi := a[0, 0], a[0, 0];
    var i := 0;
    while i < a.Length0
      invariant 0 <= i <= a.Length0
      invariant Attained(a, lo) && Attained(a, hi)
      invariant RowsWithin(a, lo, hi, i)
    {
      var j := 0;
      while j < a.Length1
        invariant 0 <= j <= a.Length1
        invariant Attained(a, lo) && Attained(a, hi)
        invariant RowsWithin(a, lo, hi, i)
        invariant forall l :: 0 <= l < j ==> lo <= a[i, l] <= hi
      {
        if a[i, j] < lo {
          lo := a[i, j];
        }
        if a[i, j] > hi {
          hi := a[i, j];
        }
        j := j + 1;
      }
      i := i + 1;
    }
    GridExtremes(a, lo, hi);
  }

  /** The floor always lies at least 3 dB above the smallest cell. */
  lemma FloorFromAboveMin(lo: real, hi: real, counts: seq<nat>)
    requires |counts| == NBins && lo <= hi && FloorFrom(lo, hi, counts).Ok?
    ensures FloorFrom(lo, hi, counts).value >= lo + 3.0
  {
    var q := (hi - lo) / (NBins as real);
    assert q >= 0.0;
    assert q.Floor >= 0;
    var xVal := PeakBin(counts).value;
    assert (q.Floor as real) * (xVal as real) >= 0.0;
  }

  lemma BackgroundFloorAboveMin(m: seq<seq<real>>, counts: seq<nat>)
    requires |counts| == NBins && BackgroundFloor(m, counts).Ok?
    ensures |Flatten(m)| > 0 && BackgroundFloor(m, counts).value >= MinOf(Flatten(m)) + 3.0
  {
    var flat := Flatten(m);
    assert MinOf(flat) <= flat[0] <= MaxOf(flat);
    FloorFromAboveMin(MinOf(flat), MaxOf(flat), counts);
  }

  /** One cell after `secondary[np.where(secondary < floor)] = floor`. */
  function FloorCell(floor: real): real -> real
  {
    v => if v < floor then floor else v
  }

  function Floored(m: seq<seq<real>>, floor: real): seq<seq<real>>
  {
    MapCells(m, FloorCell(floor))
  }

  /** No cell ends below the floor, the cells at or above it are unchanged, and
      raising to the same floor again changes nothing. */
  lemma FlooredCells(m: seq<seq<real>>, floor: real)
    ensures var r := Floored(m, floor);
            |r| == |m|
            && (forall i :: 0 <= i < |m| ==> |r[i]| == |m[i]|)
            && (forall i, j :: 0 <= i < |m| && 0 <= j < |m[i]| ==> r[i][j] >= floor)
            && (forall i, j :: 0 <= i < |m| && 0 <= j < |m[i]| && m[i][j] >= floor ==> r[i][j] == m[i][j])
            && (forall i, j :: 0 <= i < |m| && 0 <= j < |m[i]| && m[i][j] < floor ==> r[i][j] == floor)
    ensures Floored(Floored(m, floor), floor) == Floored(m, floor)
  {
    var r := Floored(m, floor);
    var rr := Floored(r, floor);
    forall i | 0 <= i < |m| ensures rr[i] == r[i] {
      forall j | 0 <= j < |m[i]| ensures rr[i][j] == r[i][j] {
        assert rr[i][j] == FloorCell(floor)(r[i][j]);
      }
    }
  }

  /** The background step of get_secondary_spectrum, in place. The guard
      `index != -1` compares the tuple from np.where with an int, which never
      holds equal, so the assignment always runs. */
  method SubtractBackground(a: array2<real>, counts: seq<nat>) returns (err: Option<PyError>)
    requires |counts| == NBins
    modifies a
    ensures var f := BackgroundFloor(old(Contents(a)), counts);
            (f.Err? ==> err == Some(f.error) && Contents(a) == old(Contents(a)))
            && (f.Ok? ==> err == None && Contents(a) == Floored(old(Contents(a)), f.value))
  {
    FlattenEmpty(Contents(a));
    if a.Length0 == 0 || a.Length1 == 0 {
      // np.max of an empty array
      assert a.Length0 > 0 ==> |Contents(a)[0]| == 0;
      return Some(ValueError);
    }
    var lo, hi := Extremes(a);
    var floor := FloorFrom(lo, hi, counts);
    if floor.Err? {
      return Some(floor.error);
    }
    MapInPlace(a, FloorCell(floor.value));
    return None;
  }

  // ------------------------------------------------------------------- crop

  /** `secondary[ymin:ymax, xmin:xmax]`. */
  datatype Window = Window(ymin: int, ymax: int, xmin: int, xmax: int)

  /** The crop bounds of get_secondary_spectrum; a zero scale divides by zero. */
  function CropWindow(ysize: nat, xsize: nat, xscale: real, yscale: real, cutOffBottom: bool): Result<Window>
  {
    if xscale == 0.0 || yscale == 0.0 then Err(ZeroDivisionError)
    else
      var ys, xs := ysize as real, xsize as real;
      var xmin := Trunc(xs / 2.0 - xs / (2.0 * xscale));
      var xmax := Trunc(xs / 2.0 + xs / (2.0 * xscale));
      var ymin := Trunc(ys / 2.0 - ys / (2.0 * yscale));
      var ymax := if cutOffBottom then Trunc(ys / 2.0) else Trunc(ys / 2.0 + ys / (2.0 * yscale));
      Ok(Window(ymin, ymax, xmin, xmax))
  }

  /** Rows ymin:ymax, and in each of them columns xmin:xmax, with Python's slice rules. */
  function Crop(m: seq<seq<real>>, w: Window): (r: seq<seq<real>>)
  {
    var rows := PySlice(m, w.ymin, w.ymax);
    seq(|rows|, i requires 0 <= i < |rows| => PySlice(rows[i], w.xmin, w.xmax))
  }

  /** A scale of 1 with cut_off_bottom keeps the top half of the rows, whole. */
  lemma CropScaleOne(m: seq<seq<real>>)
    requires Rect(m)
    ensures CropWindow(|m|, Cols(m), 1.0, 1.0, true) == Ok(Window(0, |m| / 2, 0, Cols(m)))
    ensures Crop(m, Window(0, |m| / 2, 0, Cols(m))) == m[..|m| / 2]
  {
    var ys, xs := |m| as real, Cols(m) as real;
    assert xs / 2.0 - xs / (2.0 * 1.0) == 0.0;
    assert xs / 2.0 + xs / (2.0 * 1.0) == xs;
    assert ys / 2.0 - ys / (2.0 * 1.0) == 0.0;
    HalfTrunc(|m|);
    var r := Crop(m, Window(0, |m| / 2, 0, Cols(m)));
    forall i | 0 <= i < |r| ensures r[i] == m[i] {
      assert |m[i]| == Cols(m);
      assert m[i][0..Cols(m)] == m[i];
    }
  }

  /** `int(n / 2.)` is integer halving. */
  lemma HalfTrunc(n: nat)
    ensures Trunc((n as real) / 2.0) == n / 2
  {
    var h := n / 2;
    assert (n as real) / 2.0 == (h as real) + ((n % 2) as real) / 2.0;
  }

  /** x / (2s) is at most x / 2 for a scale s of at least 1. */
  lemma ShrinkHalf(x: real, s: real)
    requires x >= 0.0 && s >= 1.0
    ensures 0.0 <= x / (2.0 * s) <= x / 2.0
  {
    var q := x / (2.0 * s);
    assert q * (2.0 * s) == x;
    assert q >= 0.0;
    assert q * 2.0 <= q * 2.0 * s;
  }

  lemma TruncMono(a: real, b: real)
    requires 0.0 <= a <= b
    ensures 0 <= Trunc(a) <= Trunc(b)
  {
  }

  /** Along one axis of `size` cells, a scale of at least 1 gives bounds
      0 <= lower <= middle <= upper <= size. */
  lemma AxisBoundsInside(size: nat, scale: real)
    requires scale >= 1.0
    ensures var n := size as real;
            0 <= Trunc(n / 2.0 - n / (2.0 * scale)) <= Trunc(n / 2.0)
            <= Trunc(n / 2.0 + n / (2.0 * scale)) <= size
  {
    var n := size as real;
    ShrinkHalf(n, scale);
    var d := n / (2.0 * scale);
    TruncMono(n / 2.0 - d, n / 2.0);
    TruncMono(n / 2.0, n / 2.0 + d);
    TruncMono(n / 2.0 + d, n);
    assert Trunc(n) == size;
  }

  /** A scale of at least 1 yields a window inside the array, so the crop is an
      ordinary sub-matrix of (ymax - ymin) rows and (xmax - xmin) columns. */
  lemma CropWindowInside(m: seq<seq<real>>, xscale: real, yscale: real, cutOffBottom: bool)
    requires Rect(m) && xscale >= 1.0 && yscale >= 1.0
    ensures CropWindow(|m|, Cols(m), xscale, yscale, cutOffBottom).Ok?
    ensures var w := CropWindow(|m|, Cols(m), xscale, yscale, cutOffBottom).value;
            && 0 <= w.ymin <= w.ymax <= |m| && 0 <= w.xmin <= w.xmax <= Cols(m)
            && var r := Crop(m, w);
               |r| == w.ymax - w.ymin
               && forall i :: 0 <= i < |r| ==> r[i] == m[w.ymin + i][w.xmin..w.xmax]
  {
    AxisBoundsInside(Cols(m), xscale);
    AxisBoundsInside(|m|, yscale);
    var w := CropWindow(|m|, Cols(m), xscale, yscale, cutOffBottom).value;
    assert 0 <= w.ymin <= w.ymax <= |m| && 0 <= w.xmin <= w.xmax <= Cols(m);
    var r := Crop(m, w);
    forall i | 0 <= i < |r| ensures r[i] == m[w.ymin + i][w.xmin..w.xmax] {
      assert |m[w.ymin + i]| == Cols(m);
    }
  }

  // ---------------------------------------------------------------- axes

  /** get_dyn_axes from the header values: the frequency axis spans the band
      around the centre frequency, the time axis the integration time; with
      `rotate` the two axis lengths swap. */
  function DynAxes(tInt: real, naxis1: int, naxis2: int, freq: real, bw: real, rotate: bool)
    : (r: Result<(seq<real>, seq<real>)>)
  {
    var nsubs := if rotate then naxis2 else naxis1;
    var nchans := if rotate then naxis1 else naxis2;
    var band := Indexed.Abs(bw);
    var frequency := Linspace(freq - band / 2.0, freq + band / 2.0, nchans);
    var time := Linspace(0.0, tInt, nsubs);
    if frequency.Err? then Err(frequency.error)
    else if time.Err? then Err(time.error)
    else Ok((frequency.value, time.value))
  }

  /** The FITS data array has NAXIS2 rows of NAXIS1 columns. Its dynamic
      spectrum (rotated or not) then has exactly as many rows as the frequency
      axis and as many columns as the time axis, so the Indexed2D built from
      the two is accepted; the frequency axis runs from freq - |bw|/2 to
      freq + |bw|/2. */
  lemma DynAxesFitSpectrum(m: seq<seq<real>>, tInt: real, freq: real, bw: real, rotate: bool)
    requires Rect(m) && |m| > 0 && |m[0]| > 0
    ensures var d := if rotate then Rot90(m, |m[0]|) else m;
            var r := DynAxes(tInt, |m[0]|, |m|, freq, bw, rotate);
            && r.Ok?
            && Indexed.Matches(d, r.value.0, r.value.1)
            && r.value.0[0] == freq - Indexed.Abs(bw) / 2.0
            && (|d| >= 2 ==> r.value.0[|d| - 1] == freq + Indexed.Abs(bw) / 2.0)
  {
  }

  /** get_sec_axes: the delay axis `reversed(-linspace(0, nyq_f, nchans / 2))`
      and the fringe axis `linspace(-nyq_t, nyq_t, naxis2)`; a zero integration
      time or bandwidth divides by zero. */
  function SecAxes(tInt: real, naxis1: int, naxis2: int, bw: real, rotate: bool)
    : (r: Result<(seq<real>, seq<real>)>)
  {
    var fringeLen := if rotate then naxis2 else naxis1;
    var nchans := if rotate then naxis1 else naxis2;
    var band := Indexed.Abs(bw);
    if tInt == 0.0 || band == 0.0 then Err(ZeroDivisionError)
    else
      var nyqT := 1000.0 / (2.0 * tInt);
      var nyqF := (nchans as real) / (2.0 * band);
      var fringe := Linspace(-nyqT, nyqT, fringeLen);
      var d := Linspace(0.0, nyqF, HalfCount(nchans));
      if fringe.Err? then Err(fringe.error)
      else if d.Err? then Err(d.error)
      else Ok((ReverseNegated(d.value), fringe.value))
  }

  function ReverseNegated(s: seq<real>): (r: seq<real>)
    ensures |r| == |s| && forall i :: 0 <= i < |s| ==> r[i] == -s[|s| - 1 - i]
  {
    seq(|s|, i requires 0 <= i < |s| => -s[|s| - 1 - i])
  }

  /** With the default crop (scale 1, bottom half cut off), the secondary
      spectrum of an NAXIS2 x NAXIS1 dynamic spectrum keeps half its rows and
      all its columns: exactly the lengths of the delay and fringe axes, so
      the Indexed2D built from them is accepted. The delay axis ends at 0. */
  lemma SecAxesFitCrop(m: seq<seq<real>>, tInt: real, bw: real, rotate: bool)
    requires Rect(m) && |m| > 1 && |m[0]| > 1 && tInt != 0.0 && bw != 0.0
    ensures var d := if rotate then Rot90(m, |m[0]|) else m;
            var c := Crop(d, Window(0, |d| / 2, 0, Cols(d)));
            var r := SecAxes(tInt, |m[0]|, |m|, bw, rotate);
            && r.Ok?
            && Indexed.Matches(c, r.value.0, r.value.1)
            && (|r.value.0| >= 2 ==> r.value.0[|r.value.0| - 1] == 0.0)
  {
    var d := if rotate then Rot90(m, |m[0]|) else m;
    CropScaleOne(d);
  }

  // ------------------------------------------------------ dynamic spectrum

  /** An array numpy computed: its cells, and whether they are all finite.
      numpy fills a lost row or column with inf and NaN; `real` has neither,
      so a lost row keeps its old cells as placeholders and `finite` is false
      from then on. */
  datatype Cells = Cells(m: seq<seq<real>>, finite: bool)

  /** arr_normalize_axis on an array computed so far. Whether it raises
      depends on the shape and the mask only; an array that holds inf or NaN
      still does after it. */
  function NormalizeCells(c: Cells, cols: nat, axis: Option<string>, mask: Option<seq<real>>): (r: Result<Cells>)
    requires Rect(c.m) && (|c.m| > 0 ==> |c.m[0]| == cols)
    ensures r.Ok? ==> |r.value.m| == |c.m| && Rect(r.value.m) && (|r.value.m| > 0 ==> |r.value.m[0]| == cols)
    ensures r.Ok? && r.value.finite ==> c.finite
  {
    Normalize.NormalizeOutcomes(c.m, cols, axis, mask);
    match Normalize.NormalizeSpec(c.m, cols, axis, mask)
    case Err(e) => Err(e)
    case Ok(n) => Ok(Cells(n.m, c.finite && n.lost == {}))
  }

  /** get_dynamic_spectrum after the statistics: clip the (possibly rotated)
      data d of `cols` columns, then normalise 'y' and/or 'x' without a mask. */
  function DynamicSpec(d: seq<seq<real>>, cols: nat, mean: real, threshold: real,
                       normalizeFrequency: bool, normalizeTime: bool): Result<Cells>
    requires Rect(d) && (|d| > 0 ==> |d[0]| == cols)
  {
    ClippedShape(d, cols, mean, threshold);
    var c := Cells(Clipped(d, mean, threshold), true);
    var y := if normalizeFrequency then NormalizeCells(c, cols, Some("y"), None) else Ok(c);
    if y.Err? then y
    else if normalizeTime then NormalizeCells(y.value, cols, Some("x"), None)
    else y
  }

  /** Clipping keeps the shape. */
  lemma ClippedShape(d: seq<seq<real>>, cols: nat, mean: real, threshold: real)
    requires Rect(d) && (|d| > 0 ==> |d[0]| == cols)
    ensures var c := Clipped(d, mean, threshold); Rect(c) && |c| == |d| && (|c| > 0 ==> |c[0]| == cols)
  {
  }

  /** get_dynamic_spectrum raises exactly for an array without rows (with
      the frequency normalisation) or without columns (with the time
      normalisation), both IndexError from the default mask; it is finite
      exactly when no normalisation it asks for meets a zero row or column
      mean, or a NaN one. */
  lemma DynamicOutcomes(d: seq<seq<real>>, cols: nat, mean: real, threshold: real,
                        normalizeFrequency: bool, normalizeTime: bool)
    requires Rect(d) && (|d| > 0 ==> |d[0]| == cols)
    ensures var r := DynamicSpec(d, cols, mean, threshold, normalizeFrequency, normalizeTime);
            && (r.Err? <==> (normalizeFrequency && |d| == 0) || (normalizeTime && cols == 0))
            && (r.Err? ==> r.error == IndexError)
            && (r.Ok? ==> |r.value.m| == |d| && Rect(r.value.m) && (|d| > 0 ==> |r.value.m[0]| == cols))
            && (!normalizeFrequency && !normalizeTime ==> r == Ok(Cells(Clipped(d, mean, threshold), true)))
  {
    ClippedShape(d, cols, mean, threshold);
    var c := Clipped(d, mean, threshold);
    Normalize.DefaultMaskOutcomes(c, cols);
    if normalizeFrequency && |d| > 0 {
      var y := NormalizeCells(Cells(c, true), cols, Some("y"), None).value;
      Normalize.DefaultMaskOutcomes(y.m, cols);
    }
  }

  /** An array without cells: its rows, all empty, fix it. */
  lemma NoCells(m: seq<seq<real>>, m': seq<seq<real>>)
    requires Rect(m) && Rect(m') && |m| == |m'| && (|m| == 0 || |m[0]| == 0) && (|m'| == 0 || |m'[0]| == 0)
    ensures m == m'
  {
    forall i | 0 <= i < |m| ensures m[i] == m'[i] {
      assert |m[i]| == |m[0]| && |m'[i]| == |m'[0]|;
    }
  }

  /** get_dynamic_spectrum on the raw data array. Without `rotate` the result
      is the caller's array itself, clipped and normalised in place. With it,
      the result is np.rot90(data), a view whose writes reach `data`: the
      model works on a rotated copy and turns it back into `data` at the end. */
  method GetDynamicSpectrum(data: array2<real>, rotate: bool, normalizeFrequency: bool, normalizeTime: bool,
                            mean: real, std: real, outliersSigma: real)
    returns (dynamic: array2<real>, err: Option<PyError>, finite: bool)
    modifies data
    ensures !rotate ==> dynamic == data
    ensures rotate ==> fresh(dynamic) && dynamic.Length0 == data.Length1 && dynamic.Length1 == data.Length0
                       && Contents(data) == RotBack(Contents(dynamic), dynamic.Length1)
    ensures var d := if rotate then Rot90(old(Contents(data)), data.Length1) else old(Contents(data));
            var cols := if rotate then data.Length0 else data.Length1;
            var threshold := OutlierThreshold(mean, std, outliersSigma);
            var spec := DynamicSpec(d, cols, mean, threshold, normalizeFrequency, normalizeTime);
            && (spec.Err? ==> err == Some(spec.error) && Contents(dynamic) == Clipped(d, mean, threshold))
            && (spec.Ok? ==> err == None && Contents(dynamic) == spec.value.m && finite == spec.value.finite)
  {
    if rotate {
      dynamic := Rotated(data);
    } else {
      dynamic := data;
    }
    ghost var d := Contents(dynamic);
    ghost var cols := dynamic.Length1;
    var threshold := OutlierThreshold(mean, std, outliersSigma);
    ClipOutliers(dynamic, mean, threshold);
    ghost var c := Cells(Contents(dynamic), true);
    err, finite := None, true;
    if normalizeFrequency {
      err, finite := NormalizeInPlace(dynamic, c, finite, Some("y"), None);
    }
    if err.None? && normalizeTime {
      ghost var y := Cells(Contents(dynamic), finite);
      err, finite := NormalizeInPlace(dynamic, y, finite, Some("x"), None);
      if err.Some? {
        NoCells(Contents(dynamic), c.m);
      }
    }
    if rotate {
      WriteBack(data, dynamic);
    }
  }

  /** arr_normalize_axis on the array holding the cells c, in place. */
  method NormalizeInPlace(a: array2<real>, ghost c: Cells, finite: bool, axis: Option<string>, mask: Option<seq<real>>)
    returns (err: Option<PyError>, finite': bool)
    requires Contents(a) == c.m && finite == c.finite
    modifies a
    ensures var r := NormalizeCells(c, a.Length1, axis, mask);
            && (r.Err? ==> err == Some(r.error) && Contents(a) == c.m)
            && (r.Ok? ==> err == None && Contents(a) == r.value.m && finite' == r.value.finite)
  {
    var lost;
    err, lost := Normalize.NormalizeAxis(a, axis, mask);
    finite' := finite && lost == {};
  }

  /** np.rot90(m, -1): a quarter turn clockwise of an array of |m| rows of
      `cols` cells, undoing Rot90. */
  function RotBack(m: seq<seq<real>>, cols: nat): (r: seq<seq<real>>)
    requires Rect(m) && (|m| > 0 ==> |m[0]| == cols)
    ensures |r| == cols && Rect(r)
    ensures forall i :: 0 <= i < cols ==> |r[i]| == |m|
    ensures forall i, j :: 0 <= i < cols && 0 <= j < |m| ==> r[i][j] == m[|m| - 1 - j][i]
  {
    seq(cols, i requires 0 <= i < cols => seq(|m|, j requires 0 <= j < |m| => m[|m| - 1 - j][i]))
  }

  /** Turning back a quarter turn gives the array again. */
  lemma RotBackRot90(m: seq<seq<real>>, cols: nat)
    requires Rect(m) && (|m| > 0 ==> |m[0]| == cols)
    ensures RotBack(Rot90(m, cols), |m|) == m
  {
    var r := RotBack(Rot90(m, cols), |m|);
    forall i | 0 <= i < |m| ensures r[i] == m[i] {
      forall j | 0 <= j < cols ensures r[i][j] == m[i][j] {
      }
    }
  }

  /** A quarter turn back is three quarter turns forward. */
  lemma RotBackThreeTurns(m: seq<seq<real>>, cols: nat)
    requires Rect(m) && (|m| > 0 ==> |m[0]| == cols)
    ensures RotBack(m, cols) == Rot90(Rot90(Rot90(m, cols), |m|), cols)
  {
    Rot90Twice(m, cols);
    var h := HalfTurn(m, cols);
    assert Rect(h) && (|h| > 0 ==> |h[0]| == cols);
    var r, q := RotBack(m, cols), Rot90(h, cols);
    forall i | 0 <= i < cols ensures r[i] == q[i] {
      forall j | 0 <= j < |m| ensures r[i][j] == q[i][j] {
        assert q[i][j] == h[j][cols - 1 - i];
      }
    }
  }

  /** The writes through the view: `data` becomes the rotated array turned back. */
  method WriteBack(data: array2<real>, dynamic: array2<real>)
    requires data != dynamic && data.Length0 == dynamic.Length1 && data.Length1 == dynamic.Length0
    modifies data
    ensures Contents(data) == RotBack(Contents(dynamic), dynamic.Length1)
  {
    var rows, cols := dynamic.Length0, dynamic.Length1;
    var i := 0;
    while i < cols
      invariant 0 <= i <= cols
      invariant forall k, l :: 0 <= k < i && 0 <= l < rows ==> data[k, l] == dynamic[rows - 1 - l, k]
    {
      var j := 0;
      while j < rows
        invariant 0 <= j <= rows
        invariant forall k, l :: 0 <= k < i && 0 <= l < rows ==> data[k, l] == dynamic[rows - 1 - l, k]
        invariant forall l :: 0 <= l < j ==> data[i, l] == dynamic[rows - 1 - l, i]
      {
        data[i, j] := dynamic[rows - 1 - j, i];
        j := j + 1;
      }
      i := i + 1;
    }
    ghost var rm := RotBack(Contents(dynamic), cols);
    forall k | 0 <= k < cols ensures Contents(data)[k] == rm[k] {
      forall l | 0 <= l < rows ensures Contents(data)[k][l] == rm[k][l] {}
    }
  }

  /** np.rot90(data) into a new array. */
  method Rotated(data: array2<real>) returns (r: array2<real>)
    ensures fresh(r) && r.Length0 == data.Length1 && r.Length1 == data.Length0
    ensures Contents(r) == Rot90(Contents(data), data.Length1)
  {
    var rows, cols := data.Length0, data.Length1;
    r := new real[cols, rows];
    var i := 0;
    while i < cols
      invariant 0 <= i <= cols
      invariant forall k, l :: 0 <= k < i && 0 <= l < rows ==> r[k, l] == data[l, cols - 1 - k]
    {
      var j := 0;
      while j < rows
        invariant 0 <= j <= rows
        invariant forall k, l :: 0 <= k < i && 0 <= l < rows ==> r[k, l] == data[l, cols - 1 - k]
        invariant forall l :: 0 <= l < j ==> r[i, l] == data[l, cols - 1 - i]
      {
        r[i, j] := data[j, cols - 1 - i];
        j := j + 1;
      }
      i := i + 1;
    }
    ghost var rm := Rot90(Contents(data), cols);
    forall k | 0 <= k < cols ensures Contents(r)[k] == rm[k] {
      forall l | 0 <= l < rows ensures Contents(r)[k][l] == rm[k][l] {}
    }
  }

  // ----------------------------------------------------- secondary spectrum

  /** The normalisation steps of get_secondary_spectrum, on the spectrum s
      (in dB) of |s| rows of `cols` cells: the rows with the frequency mask,
      then the columns with the time mask. Building the frequency mask reads
      `secondary[0]`, which an array without rows does not have (IndexError). */
  function SecondaryNormalized(s: seq<seq<real>>, cols: nat, normalizeFrequency: bool, normalizeTime: bool)
    : (r: Result<Cells>)
    requires Rect(s) && (|s| > 0 ==> |s[0]| == cols)
    ensures r.Ok? ==> |r.value.m| == |s| && Rect(r.value.m) && (|s| > 0 ==> |r.value.m[0]| == cols)
  {
    var c := Cells(s, true);
    var y := if !normalizeFrequency then Ok(c)
             else if |s| == 0 then Err(IndexError)
             else NormalizeCells(c, cols, Some("y"), Some(FrequencyMask(cols)));
    if y.Err? then y
    else if normalizeTime then NormalizeCells(y.value, cols, Some("x"), Some(TimeMask(|y.value.m|)))
    else y
  }

  /** get_secondary_spectrum after the FFT: normalise, raise the background
      to its floor, and cut out the crop window. np.histogram of an array
      holding inf or NaN has no finite range (ValueError). */
  function SecondarySpec(s: seq<seq<real>>, cols: nat, normalizeFrequency: bool, normalizeTime: bool,
                         subtractBackground: bool, cutOffBottom: bool, xscale: real, yscale: real,
                         counts: seq<nat>): Result<Cells>
    requires |counts| == NBins && Rect(s) && (|s| > 0 ==> |s[0]| == cols)
  {
    var x := SecondaryNormalized(s, cols, normalizeFrequency, normalizeTime);
    if x.Err? then x
    else
      var b := if !subtractBackground then x
               else if !x.value.finite then Err(ValueError)
               else match BackgroundFloor(x.value.m, counts)
                    case Err(e) => Err(e)
                    case Ok(f) => Ok(Cells(Floored(x.value.m, f), true));
      if b.Err? then b
      else match CropWindow(|b.value.m|, cols, xscale, yscale, cutOffBottom)
           case Err(e) => Err(e)
           case Ok(w) => Ok(Cells(Crop(b.value.m, w), b.value.finite))
  }

  /** The normalisations of get_secondary_spectrum raise only for a spectrum
      without rows: IndexError building the frequency mask, or
      ZeroDivisionError from the time normalisation on its own. */
  lemma SecondaryNormalizedOutcomes(s: seq<seq<real>>, cols: nat, normalizeFrequency: bool, normalizeTime: bool)
    requires Rect(s) && (|s| > 0 ==> |s[0]| == cols)
    ensures var r := SecondaryNormalized(s, cols, normalizeFrequency, normalizeTime);
            && (r.Err? <==> (normalizeFrequency && |s| == 0) || (normalizeTime && cols == 0))
            && (r.Err? ==> r.error == if normalizeFrequency && |s| == 0 then IndexError else ZeroDivisionError)
            && (!normalizeFrequency && !normalizeTime ==> r == Ok(Cells(s, true)))
  {
    Normalize.NormalizeOutcomes(s, cols, Some("y"), Some(FrequencyMask(cols)));
    if normalizeFrequency && |s| > 0 {
      var y := Normalize.NormalizeSpec(s, cols, Some("y"), Some(FrequencyMask(cols))).value;
      Normalize.NormalizeOutcomes(y.m, cols, Some("x"), Some(TimeMask(|y.m|)));
    } else {
      Normalize.NormalizeOutcomes(s, cols, Some("x"), Some(TimeMask(|s|)));
    }
  }

  /** With normalisation and background subtraction switched off and the
      default crop, the secondary spectrum is the top half of the rows. */
  lemma SecondaryPlainCrop(s: seq<seq<real>>, counts: seq<nat>)
    requires Rect(s) && |counts| == NBins
    ensures SecondarySpec(s, Cols(s), false, false, false, true, 1.0, 1.0, counts) == Ok(Cells(s[..|s| / 2], true))
  {
    CropScaleOne(s);
  }

  /** After background subtraction the secondary spectrum is finite, and
      every cell of it is at or above the floor computed from the normalised
      spectrum, whatever window is cut out. */
  lemma SecondaryAboveFloor(s: seq<seq<real>>, cols: nat, normalizeFrequency: bool, normalizeTime: bool,
                            cutOffBottom: bool, xscale: real, yscale: real, counts: seq<nat>)
    requires |counts| == NBins && Rect(s) && (|s| > 0 ==> |s[0]| == cols)
    requires SecondarySpec(s, cols, normalizeFrequency, normalizeTime, true, cutOffBottom, xscale, yscale, counts).Ok?
    ensures var x := SecondaryNormalized(s, cols, normalizeFrequency, normalizeTime);
            x.Ok? && x.value.finite && BackgroundFloor(x.value.m, counts).Ok?
    ensures var r := SecondarySpec(s, cols, normalizeFrequency, normalizeTime, true, cutOffBottom, xscale, yscale, counts).value;
            var f := BackgroundFloor(SecondaryNormalized(s, cols, normalizeFrequency, normalizeTime).value.m, counts).value;
            r.finite && forall i, j :: 0 <= i < |r.m| && 0 <= j < |r.m[i]| ==> r.m[i][j] >= f
  {
    var x := SecondaryNormalized(s, cols, normalizeFrequency, normalizeTime).value.m;
    var f := BackgroundFloor(x, counts).value;
    var b := Floored(x, f);
    FlooredCells(x, f);
    var w := CropWindow(|b|, cols, xscale, yscale, cutOffBottom).value;
    var r := Crop(b, w);
    forall i, j | 0 <= i < |r| && 0 <= j < |r[i]| ensures r[i][j] >= f {
      CropCellFrom(b, w, i, j);
    }
  }

  /** Every cell of a crop is a cell of the cropped array. */
  lemma CropCellFrom(m: seq<seq<real>>, w: Window, i: nat, j: nat)
    requires i < |Crop(m, w)| && j < |Crop(m, w)[i]|
    ensures exists k, l :: 0 <= k < |m| && 0 <= l < |m[k]| && Crop(m, w)[i][j] == m[k][l]
  {
    var lo, hi := SliceBound(w.ymin, |m|), SliceBound(w.ymax, |m|);
    var row := m[lo + i];
    var xlo, xhi := SliceBound(w.xmin, |row|), SliceBound(w.xmax, |row|);
    assert Crop(m, w)[i][j] == row[xlo + j];
  }

  /** The array Crop cuts out of the array's contents. */
  method CropArray(a: array2<real>, w: Window) returns (r: seq<seq<real>>)
    ensures r == Crop(Contents(a), w)
  {
    var lo, hi := SliceBound(w.ymin, a.Length0), SliceBound(w.ymax, a.Length0);
    var xlo, xhi := SliceBound(w.xmin, a.Length1), SliceBound(w.xmax, a.Length1);
    ghost var rows := PySlice(Contents(a), w.ymin, w.ymax);
    ghost var spec := Crop(Contents(a), w);
    r := [];
    if lo < hi {
      var i := lo;
      while i < hi
        invariant lo <= i <= hi
        invariant |r| == i - lo
        invariant forall k :: 0 <= k < |r| ==> r[k] == spec[k]
      {
        var row := [];
        if xlo < xhi {
          var j := xlo;
          while j < xhi
            invariant xlo <= j <= xhi
            invariant row == Contents(a)[i][xlo..j]
          {
            assert Contents(a)[i][xlo..j + 1] == Contents(a)[i][xlo..j] + [Contents(a)[i][j]];
            row := row + [a[i, j]];
            j := j + 1;
          }
        }
        assert rows[i - lo] == Contents(a)[i];
        r := r + [row];
        i := i + 1;
      }
    }
  }

  /** get_secondary_spectrum from the spectrum in dB onward: the array is
      normalised and floored in place, and the crop window returned. */
  method SecondaryCleanup(a: array2<real>, normalizeFrequency: bool, normalizeTime: bool,
                          subtractBackground: bool, cutOffBottom: bool, xscale: real, yscale: real,
                          counts: seq<nat>)
    returns (r: Result<Cells>)
    requires |counts| == NBins
    modifies a
    ensures r == SecondarySpec(old(Contents(a)), a.Length1, normalizeFrequency, normalizeTime,
                               subtractBackground, cutOffBottom, xscale, yscale, counts)
  {
    ghost var s := Contents(a);
    var finite := true;
    if normalizeFrequency {
      if a.Length0 == 0 {
        return Err(IndexError);  // `secondary[0]` building the mask
      }
      var err;
      err, finite := NormalizeInPlace(a, Cells(Contents(a), finite), finite, Some("y"), Some(FrequencyMask(a.Length1)));
      // with at least one row and a mask as long as a row, 'y' cannot raise
      assert err.None?;
    }
    if normalizeTime {
      var err;
      err, finite := NormalizeInPlace(a, Cells(Contents(a), finite), finite, Some("x"), Some(TimeMask(a.Length0)));
      if err.Some? {
        return Err(err.value);
      }
    }
    assert SecondaryNormalized(s, a.Length1, normalizeFrequency, normalizeTime) == Ok(Cells(Contents(a), finite));
    if subtractBackground {
      if !finite {
        return Err(ValueError);  // np.histogram: the range is not finite
      }
      var err := SubtractBackground(a, counts);
      if err.Some? {
        return Err(err.value);
      }
    }
    var w := CropWindow(a.Length0, a.Length1, xscale, yscale, cutOffBottom);
    if w.Err? {
      return Err(w.error);
    }
    var c := CropArray(a, w.value);
    return Ok(Cells(c, finite));
  }
}
