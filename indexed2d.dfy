// Indexed2D (arcfinder/computing.py): a rectangular matrix kept together with
// its y axis and x axis, built through the validating setters, and sliced by
// axis coordinates rather than by positions.

module Indexed {
  import opened PyCore
  import opened Seqs

  /** One element of the `data` argument, as `set_data` sees it. */
  datatype PyRow =
    | RowList(cells: seq<real>)  // a list or ndarray of numbers
    | RowSized(size: nat)        // another object with a len(), e.g. a tuple
    | RowScalar                  // an object without len(), e.g. a float

  /** The `data` argument: a list/ndarray of rows, or anything else. */
  datatype PyData = DataList(rows: seq<PyRow>) | DataOther

  /** One axis: a list/ndarray of numbers, or anything else. */
  datatype PyAxis = AxisList(values: seq<real>) | AxisOther

  /** The `axes` argument: a tuple, or anything else. */
  datatype PyAxes = AxesTuple(items: seq<PyAxis>) | AxesOther

  /** A coordinate key: `a:b` with optional bounds, or a single coordinate. */
  datatype Key = Slice(start: Option<real>, stop: Option<real>) | Point(coord: real)

  /** What a key maps to: a positional slice `[start, stop)` or one position. */
  datatype Index = Range(start: int, stop: int) | At(pos: nat)

  /** The observable state of an Indexed2D object. */
  datatype GridState = GridState(
    data: seq<seq<real>>, yAxis: seq<real>, xAxis: seq<real>,
    isDataSet: bool, areAxesSet: bool)

  function Abs(r: real): real { if r < 0.0 then -r else r }

  function RowLen(r: PyRow): Option<nat>
  {
    match r
    case RowList(cells) => Some(|cells|)
    case RowSized(n) => Some(n)
    case RowScalar => None
  }

  /** The rectangular-shape loop of set_data, from row i on: the first row without a
      len() raises TypeError, the first row of another length raises IndexError. */
  function ShapeError(rows: seq<PyRow>, i: nat): (e: Option<PyError>)
    requires 0 < |rows| && i <= |rows|
    ensures e.None? <==> forall k :: i <= k < |rows| ==> RowLen(rows[k]).Some? && RowLen(rows[k]) == RowLen(rows[0])
    ensures e.Some? ==> e.value == TypeError || e.value == IndexError
    decreases |rows| - i
  {
    if i == |rows| then None
    else if RowLen(rows[i]).None? then Some(TypeError)
    else if RowLen(rows[i]) != RowLen(rows[0]) then Some(IndexError)
    else ShapeError(rows, i + 1)
  }

  predicate AllLists(rows: seq<PyRow>)
  {
    forall k :: 0 <= k < |rows| ==> rows[k].RowList?
  }

  function Cells(rows: seq<PyRow>): (m: seq<seq<real>>)
    requires AllLists(rows)
    ensures |m| == |rows| && forall k :: 0 <= k < |rows| ==> m[k] == rows[k].cells
  {
    seq(|rows|, k requires 0 <= k < |rows| => rows[k].cells)
  }

  /** The checks of set_data, in the order it makes them. */
  function CheckData(d: PyData): (r: Result<seq<seq<real>>>)
    ensures d.DataOther? ==> r == Err(TypeError)
    ensures r.Ok? <==> d.DataList? && AllLists(d.rows) && (|d.rows| == 0 || ShapeError(d.rows, 0).None?)
    ensures r.Ok? ==> Rect(r.value) && r.value == Cells(d.rows)
    ensures r.Err? ==> r.error == TypeError || r.error == IndexError
  {
    match d
    case DataOther => Err(TypeError)
    case DataList(rows) =>
      if |rows| > 0 && ShapeError(rows, 0).Some? then Err(ShapeError(rows, 0).value)
      else if !AllLists(rows) then Err(TypeError)
      else
        assert |rows| > 0 ==> forall k :: 0 <= k < |rows| ==> |rows[k].cells| == |rows[0].cells| by {
          if |rows| > 0 {
            forall k | 0 <= k < |rows| ensures |rows[k].cells| == |rows[0].cells| {
              assert RowLen(rows[k]) == RowLen(rows[0]);
            }
          }
        }
        Ok(Cells(rows))
  }

  /** The type checks of set_axes: a tuple whose first two items are lists. */
  function CheckAxes(a: PyAxes): (r: Result<(seq<real>, seq<real>)>)
    ensures r.Ok? <==> a.AxesTuple? && |a.items| >= 2 && a.items[0].AxisList? && a.items[1].AxisList?
    ensures r.Ok? ==> r.value == (a.items[0].values, a.items[1].values)
    ensures a.AxesTuple? && |a.items| < 2 ==> r == Err(IndexError)
    ensures r.Err? && r.error != IndexError ==> r.error == TypeError
  {
    match a
    case AxesOther => Err(TypeError)
    case AxesTuple(items) =>
      if |items| < 2 then Err(IndexError)
      else if !items[0].AxisList? || !items[1].AxisList? then Err(TypeError)
      else Ok((items[0].values, items[1].values))
  }

  /** The dimension test both setters make once data and axes are present;
      with no rows, `data[0]` itself raises IndexError. */
  predicate Matches(data: seq<seq<real>>, y: seq<real>, x: seq<real>)
  {
    |data| > 0 && |data| == |y| && |data[0]| == |x|
  }

  /** set_data on a grid in state s. */
  function SetDataSpec(s: GridState, d: PyData): Result<GridState>
  {
    match CheckData(d)
    case Err(e) => Err(e)
    case Ok(m) =>
      if s.areAxesSet && !Matches(m, s.yAxis, s.xAxis) then Err(IndexError)
      else Ok(s.(data := m, isDataSet := true))
  }

  /** set_axes on a grid in state s. */
  function SetAxesSpec(s: GridState, a: PyAxes): Result<GridState>
  {
    match CheckAxes(a)
    case Err(e) => Err(e)
    case Ok(yx) =>
      if s.isDataSet && !Matches(s.data, yx.0, yx.1) then Err(IndexError)
      else Ok(s.(yAxis := yx.0, xAxis := yx.1, areAxesSet := true))
  }

  const EmptyState := GridState([[]], [], [], false, false)

  /** `Indexed2D(data, axes)`: set_data first, then set_axes, each only when given. */
  function Build(data: Option<PyData>, axes: Option<PyAxes>): Result<GridState>
  {
    var afterData := if data.Some? then SetDataSpec(EmptyState, data.value) else Ok(EmptyState);
    if afterData.Err? then afterData
    else if axes.Some? then SetAxesSpec(afterData.value, axes.value)
    else afterData
  }

  lemma BuildChecks(data: PyData, axes: PyAxes)
    ensures data.DataOther? ==> Build(Some(data), Some(axes)) == Err(TypeError)
    ensures data.DataList? && |data.rows| > 0 && ShapeError(data.rows, 0) == Some(IndexError) ==>
              Build(Some(data), Some(axes)) == Err(IndexError)
    ensures axes.AxesOther? && CheckData(data).Ok? ==> Build(Some(data), Some(axes)) == Err(TypeError)
    ensures CheckData(data).Ok? && CheckAxes(axes).Ok? ==>
              var m, yx := CheckData(data).value, CheckAxes(axes).value;
              (Build(Some(data), Some(axes)).Ok? <==> Matches(m, yx.0, yx.1))
              && (!Matches(m, yx.0, yx.1) ==> Build(Some(data), Some(axes)) == Err(IndexError))
              && (Matches(m, yx.0, yx.1) ==> Build(Some(data), Some(axes)) == Ok(GridState(m, yx.0, yx.1, true, true)))
  {
  }

  /** Data and axes both set, rectangular and of matching sizes. */
  ghost predicate Complete(st: GridState)
  {
    st.isDataSet && st.areAxesSet && Rect(st.data) && Matches(st.data, st.yAxis, st.xAxis)
  }

  /** A constructor call given both data and axes either raises or yields a complete grid. */
  lemma BuildComplete(data: PyData, axes: PyAxes)
    ensures Build(Some(data), Some(axes)).Ok? ==> Complete(Build(Some(data), Some(axes)).value)
  {
  }

  /** The position of the axis value nearest to `b`: `list(abs(p - b)).index(min(...))`. */
  function Nearest(axis: seq<real>, b: real): (k: nat)
    requires |axis| > 0
    ensures k < |axis|
    ensures forall i :: 0 <= i < |axis| ==> Abs(axis[k] - b) <= Abs(axis[i] - b)
    ensures forall i :: 0 <= i < k ==> Abs(axis[k] - b) < Abs(axis[i] - b)
  {
    var dists := seq(|axis|, i requires 0 <= i < |axis| => Abs(axis[i] - b));
    var k := FirstMinIndex(dists);
    assert forall i :: 0 <= i < |axis| ==> dists[i] == Abs(axis[i] - b);
    k
  }

  /** One slice bound: IndexError outside [min(axis), max(axis)], else the nearest position. */
  function BoundIndex(axis: seq<real>, b: real): (r: Result<nat>)
    ensures |axis| == 0 ==> r == Err(ValueError)
    ensures |axis| > 0 ==> (r.Err? <==> b < MinOf(axis) || b > MaxOf(axis))
    ensures r.Err? && |axis| > 0 ==> r.error == IndexError
    ensures r.Ok? ==> |axis| > 0 && r.value == Nearest(axis, b)
  {
    if |axis| == 0 then Err(ValueError)  // min() of an empty list
    else if b < MinOf(axis) || b > MaxOf(axis) then Err(IndexError)
    else Ok(Nearest(axis, b))
  }

  /** `__get_y_index` / `__get_x_index` (identical code for the two axes). */
  function AxisIndex(axis: seq<real>, key: Key): (r: Result<Index>)
    ensures key.Slice? && r.Ok? ==> r.value.Range?
    ensures key.Point? && r.Ok? ==> r.value.At? && r.value.pos < |axis|
    ensures key.Slice? && key.start.None? && key.stop.None? ==> r == Ok(Range(0, |axis|))
  {
    match key
    case Slice(start, stop) =>
      var lo := if start.Some? then BoundIndex(axis, start.value) else Ok(0);
      if lo.Err? then Err(lo.error)
      else
        var hi := if stop.Some? then BoundIndex(axis, stop.value) else Ok(|axis| - 1);
        if hi.Err? then Err(hi.error)
        else Ok(Range(lo.value, hi.value + 1))
    case Point(v) =>
      if |axis| == 0 then Err(ValueError)
      else
        // the difference is not made absolute
        var diffs := seq(|axis|, i requires 0 <= i < |axis| => axis[i] - v);
        Ok(At(FirstMinIndex(diffs)))
  }

  lemma {:induction false} FirstMinIndexShift(s: seq<real>, t: seq<real>, c: real)
    requires |s| > 0 && |t| == |s|
    requires forall i :: 0 <= i < |s| ==> t[i] == s[i] - c
    ensures FirstMinIndex(t) == FirstMinIndex(s)
  {
    if |s| > 1 {
      FirstMinIndexShift(s[1..], t[1..], c);
    }
  }

  /** A single coordinate always selects the first smallest axis value,
      whatever coordinate was asked for. */
  lemma PointIgnoresCoordinate(axis: seq<real>, v: real)
    requires |axis| > 0
    ensures AxisIndex(axis, Point(v)) == Ok(At(FirstMinIndex(axis)))
  {
    var diffs := seq(|axis|, i requires 0 <= i < |axis| => axis[i] - v);
    FirstMinIndexShift(axis, diffs, v);
  }

  /** `self.data[y_index, x_index]` for two positional slices. */
  function SubMatrix(m: seq<seq<real>>, ys: Index, xs: Index): (r: seq<seq<real>>)
    requires ys.Range? && xs.Range?
    ensures |r| <= |m|
  {
    var rows := PySlice(m, ys.start, ys.stop);
    seq(|rows|, i requires 0 <= i < |rows| => PySlice(rows[i], xs.start, xs.stop))
  }

  /** `__getitem__`: map both keys, then build a new Indexed2D from the selection.
      A single coordinate yields a 1-D array or a float, which the constructor
      rejects with TypeError. */
  function GetItemSpec(s: GridState, yKey: Key, xKey: Key): Result<GridState>
  {
    var yi := AxisIndex(s.yAxis, yKey);
    if yi.Err? then Err(yi.error)
    else
      var xi := AxisIndex(s.xAxis, xKey);
      if xi.Err? then Err(xi.error)
      else if yi.value.At? || xi.value.At? then Err(TypeError)
      else
        var sub := SubMatrix(s.data, yi.value, xi.value);
        Build(Some(DataList(seq(|sub|, i requires 0 <= i < |sub| => RowList(sub[i])))),
              Some(AxesTuple([AxisList(PySlice(s.yAxis, yi.value.start, yi.value.stop)),
                              AxisList(PySlice(s.xAxis, xi.value.start, xi.value.stop))])))
  }

  /** A selection either raises or yields a complete grid. */
  lemma GetItemComplete(s: GridState, yKey: Key, xKey: Key)
    ensures GetItemSpec(s, yKey, xKey).Ok? ==> Complete(GetItemSpec(s, yKey, xKey).value)
  {
    var yi := AxisIndex(s.yAxis, yKey);
    var xi := AxisIndex(s.xAxis, xKey);
    if yi.Ok? && xi.Ok? && yi.value.Range? && xi.value.Range? {
      var sub := SubMatrix(s.data, yi.value, xi.value);
      BuildComplete(DataList(seq(|sub|, i requires 0 <= i < |sub| => RowList(sub[i]))),
                    AxesTuple([AxisList(PySlice(s.yAxis, yi.value.start, yi.value.stop)),
                               AxisList(PySlice(s.xAxis, xi.value.start, xi.value.stop))]));
    }
  }

  /** Slicing a complete grid with all four bounds omitted rebuilds the same grid. */
  lemma {:induction false} FullSliceIsIdentity(s: GridState)
    requires s.isDataSet && s.areAxesSet && Rect(s.data) && Matches(s.data, s.yAxis, s.xAxis)
    ensures GetItemSpec(s, Slice(None, None), Slice(None, None)) == Ok(s)
  {
    var full := Range(0, |s.data|);
    var fullX := Range(0, |s.xAxis|);
    var sub := SubMatrix(s.data, full, fullX);
    assert PySlice(s.data, 0, |s.data|) == s.data;
    forall i | 0 <= i < |sub| ensures sub[i] == s.data[i] {
      assert PySlice(s.data[i], 0, |s.xAxis|) == s.data[i][0..|s.xAxis|];
      assert s.data[i][0..|s.xAxis|] == s.data[i];
    }
    assert sub == s.data;
    var rows := seq(|sub|, i requires 0 <= i < |sub| => RowList(sub[i]));
    assert ShapeError(rows, 0).None?;
    assert Cells(rows) == s.data;
    assert PySlice(s.yAxis, 0, |s.yAxis|) == s.yAxis;
    assert PySlice(s.xAxis, 0, |s.xAxis|) == s.xAxis;
  }

  /** A slice whose rows come out empty is rejected: set_axes reads `data[0]`. */
  lemma EmptyRowSelectionFails(s: GridState, yKey: Key, xKey: Key)
    requires AxisIndex(s.yAxis, yKey).Ok? && AxisIndex(s.xAxis, xKey).Ok?
    requires yKey.Slice? && xKey.Slice?
    requires var yi := AxisIndex(s.yAxis, yKey).value;
             PySlice(s.data, yi.start, yi.stop) == []
    ensures GetItemSpec(s, yKey, xKey) == Err(IndexError)
  {
  }

  class Indexed2D {
    var data: seq<seq<real>>
    var yAxis: seq<real>
    var xAxis: seq<real>
    var axes: (seq<real>, seq<real>)
    var isDataSet: bool
    var areAxesSet: bool

    ghost predicate Valid()
      reads this
    {
      && axes == (yAxis, xAxis)
      && (isDataSet ==> Rect(data))
      && (!isDataSet ==> data == [[]])
      && (isDataSet && areAxesSet ==> Matches(data, yAxis, xAxis))
    }

    ghost function State(): GridState
      reads this
    {
      GridState(data, yAxis, xAxis, isDataSet, areAxesSet)
    }

    /** `Indexed2D()` with neither data nor axes. */
    constructor ()
      ensures Valid() && State() == EmptyState
    {
      data := [[]];
      yAxis, xAxis := [], [];
      axes := ([], []);
      isDataSet, areAxesSet := false, false;
    }

    method SetData(d: PyData) returns (err: Option<PyError>)
      requires Valid()
      modifies this
      ensures Valid()
      ensures var r := SetDataSpec(old(State()), d);
              (r.Err? ==> err == Some(r.error) && State() == old(State()))
              && (r.Ok? ==> err == None && State() == r.value)
    {
      if d.DataOther? {
        return Some(TypeError);
      }
      var rows := d.rows;
      // every row must have a len() equal to that of the first
      var i := 0;
      while i < |rows|
        invariant 0 <= i <= |rows|
        invariant |rows| > 0 ==> ShapeError(rows, 0) == ShapeError(rows, i)
      {
        var n := RowLen(rows[i]);
        if n.None? {
          return Some(TypeError);
        }
        if n != RowLen(rows[0]) {
          return Some(IndexError);
        }
        i := i + 1;
      }
      // every row must be a list or ndarray
      var m: seq<seq<real>> := [];
      i := 0;
      while i < |rows|
        invariant 0 <= i <= |rows|
        invariant forall k :: 0 <= k < i ==> rows[k].RowList?
        invariant |m| == i && forall k :: 0 <= k < i ==> m[k] == rows[k].cells
      {
        if !rows[i].RowList? {
          return Some(TypeError);
        }
        m := m + [rows[i].cells];
        i := i + 1;
      }
      assert m == Cells(rows);
      if areAxesSet && !Matches(m, yAxis, xAxis) {
        return Some(IndexError);
      }
      data := m;
      isDataSet := true;
      return None;
    }

    method SetAxes(a: PyAxes) returns (err: Option<PyError>)
      requires Valid()
      modifies this
      ensures Valid()
      ensures var r := SetAxesSpec(old(State()), a);
              (r.Err? ==> err == Some(r.error) && State() == old(State()))
              && (r.Ok? ==> err == None && State() == r.value)
    {
      var checked := CheckAxes(a);
      if checked.Err? {
        return Some(checked.error);
      }
      var (y, x) := checked.value;
      if isDataSet && !Matches(data, y, x) {
        return Some(IndexError);
      }
      areAxesSet := true;
      axes := (y, x);
      xAxis := x;
      yAxis := y;
      return None;
    }

    /** `self[y_key, x_key]`: a new grid over the selected coordinates. */
    method GetItem(yKey: Key, xKey: Key) returns (r: Result<Indexed2D>)
      requires Valid() && isDataSet && areAxesSet
      ensures var spec := GetItemSpec(State(), yKey, xKey);
              (r.Err? <==> spec.Err?)
              && (r.Err? ==> r.error == spec.error)
              && (r.Ok? ==> fresh(r.value) && r.value.Valid() && r.value.State() == spec.value)
    {
      var yi := AxisIndex(yAxis, yKey);
      if yi.Err? {
        return Err(yi.error);
      }
      var xi := AxisIndex(xAxis, xKey);
      if xi.Err? {
        return Err(xi.error);
      }
      if yi.value.At? || xi.value.At? {
        return Err(TypeError);
      }
      var sub := SubMatrix(data, yi.value, xi.value);
      r := Create(Some(DataList(seq(|sub|, i requires 0 <= i < |sub| => RowList(sub[i])))),
                  Some(AxesTuple([AxisList(PySlice(yAxis, yi.value.start, yi.value.stop)),
                                  AxisList(PySlice(xAxis, xi.value.start, xi.value.stop))])));
    }
  }

  /** `Indexed2D(data=..., axes=...)`. */
  method Create(data: Option<PyData>, axes: Option<PyAxes>) returns (r: Result<Indexed2D>)
    ensures var spec := Build(data, axes);
            (r.Err? <==> spec.Err?)
            && (r.Err? ==> r.error == spec.error)
            && (r.Ok? ==> fresh(r.value) && r.value.Valid() && r.value.State() == spec.value)
  {
    var g := new Indexed2D();
    if data.Some? {
      var err := g.SetData(data.value);
      if err.Some? {
        return Err(err.value);
      }
    }
    if axes.Some? {
      var err := g.SetAxes(axes.value);
      if err.Some? {
        return Err(err.value);
      }
    }
    return Ok(g);
  }
}
