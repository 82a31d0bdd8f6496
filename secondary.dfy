// The Secondary object of arcfinder/computing.py once it is built: the grid
// it holds (cropped by crop and crop_percent) and the results its curvature
// searches store (make_1D_by_quadratic, power_along_parabola,
// parabola_width).

module SecondarySpectrum {
  import opened PyCore
  import opened Seqs
  import opened PyDict
  import opened Indexed
  import opened Weights
  import opened Search

  /** The grid a complete Indexed2D offers the reducers. */
  function GridOf(st: GridState): Grid
  {
    Grid(st.data, st.yAxis, st.xAxis)
  }

  lemma CompleteFits(st: GridState)
    requires Complete(st)
    ensures Fits(GridOf(st)) && |st.yAxis| > 0
  {
  }

  /** `crop`: `self.sec[y0:y1, x0:x1]` with all four bounds given. */
  function CropSpec(st: GridState, yLim: (real, real), xLim: (real, real)): Result<GridState>
  {
    GetItemSpec(st, Slice(Some(yLim.0), Some(yLim.1)), Slice(Some(xLim.0), Some(xLim.1)))
  }

  /** The window of crop_percent: from `max(y) * y_scale` up, and from
      `-max(x) * x_scale` to `max(x) * x_scale`, a window centred on 0. */
  function CropPercentKeys(y: seq<real>, x: seq<real>, yScale: real, xScale: real): (keys: (Key, Key))
    requires |y| > 0 && |x| > 0
    ensures keys.0.Slice? && keys.0.start.Some? && keys.0.stop.None?
    ensures keys.1.Slice? && keys.1.start.Some? && keys.1.stop.Some? && keys.1.start.value == -keys.1.stop.value
  {
    var yMax, xMax := MaxOf(y), MaxOf(x);
    (Slice(Some(yMax * yScale), None), Slice(Some(-xMax * xScale), Some(xMax * xScale)))
  }

  /** `crop_percent`: scales outside [0, 1] raise ValueError, as does max()
      of an empty x axis; otherwise the selection of CropPercentKeys. */
  function CropPercentSpec(st: GridState, yScale: real, xScale: real): (r: Result<GridState>)
    requires |st.yAxis| > 0
    ensures (yScale < 0.0 || xScale < 0.0 || yScale > 1.0 || xScale > 1.0 || |st.xAxis| == 0) ==> r == Err(ValueError)
  {
    if yScale < 0.0 || xScale < 0.0 || yScale > 1.0 || xScale > 1.0 then Err(ValueError)
    else if |st.xAxis| == 0 then Err(ValueError)
    else
      var keys := CropPercentKeys(st.yAxis, st.xAxis, yScale, xScale);
      GetItemSpec(st, keys.0, keys.1)
  }

  /** A crop either fails or leaves a complete grid behind. */
  lemma CropKeepsComplete(st: GridState, yLim: (real, real), xLim: (real, real), yScale: real, xScale: real)
    requires Complete(st)
    ensures CropSpec(st, yLim, xLim).Ok? ==> Complete(CropSpec(st, yLim, xLim).value)
    ensures CropPercentSpec(st, yScale, xScale).Ok? ==> Complete(CropPercentSpec(st, yScale, xScale).value)
  {
    GetItemComplete(st, Slice(Some(yLim.0), Some(yLim.1)), Slice(Some(xLim.0), Some(xLim.1)));
    if |st.xAxis| > 0 {
      var keys := CropPercentKeys(st.yAxis, st.xAxis, yScale, xScale);
      GetItemComplete(st, keys.0, keys.1);
    }
  }

  class Secondary {
    var sec: Indexed2D
    var madeOneD: bool
    var etas: seq<real>
    var powers: seq<Power>
    var offsets: seq<real>
    var offsetPowers: seq<Power>
    var parabolaPower: Dict<real, Dict<(real, real), Power>>

    ghost predicate Valid()
      reads this, sec
    {
      sec.Valid() && sec.isDataSet && sec.areAxesSet && DistinctKeys(parabolaPower)
    }

    /** The grid the reducers read. */
    ghost function Cells(): Grid
      reads this, sec
    {
      GridOf(sec.State())
    }

    /** `Secondary(...)` around the grid built from the secondary spectrum
        and its axes: no search has run yet. */
    constructor (grid: Indexed2D)
      requires grid.Valid() && grid.isDataSet && grid.areAxesSet
      ensures Valid() && sec == grid
      ensures !madeOneD && parabolaPower == []
      ensures etas == [] && powers == [] && offsets == [] && offsetPowers == []
    {
      sec := grid;
      madeOneD := false;
      etas, powers := [], [];
      offsets, offsetPowers := [], [];
      parabolaPower := [];
    }

    /** `crop(y_lim, x_lim)`: on success the grid is replaced by the selection. */
    method Crop(yLim: (real, real), xLim: (real, real)) returns (err: Option<PyError>)
      requires Valid()
      modifies this
      ensures Valid()
      ensures var spec := CropSpec(old(sec.State()), yLim, xLim);
              && (spec.Err? ==> err == Some(spec.error) && sec == old(sec))
              && (spec.Ok? ==> err == None && sec.State() == spec.value)
      ensures madeOneD == old(madeOneD) && etas == old(etas) && powers == old(powers)
      ensures offsets == old(offsets) && offsetPowers == old(offsetPowers) && parabolaPower == old(parabolaPower)
    {
      var r := sec.GetItem(Slice(Some(yLim.0), Some(yLim.1)), Slice(Some(xLim.0), Some(xLim.1)));
      GetItemComplete(sec.State(), Slice(Some(yLim.0), Some(yLim.1)), Slice(Some(xLim.0), Some(xLim.1)));
      if r.Err? {
        return Some(r.error);
      }
      sec := r.value;
      return None;
    }

    /** `crop_percent(y_scale, x_scale)`. */
    method CropPercent(yScale: real, xScale: real) returns (err: Option<PyError>)
      requires Valid()
      modifies this
      ensures Valid()
      ensures |old(sec.yAxis)| > 0
      ensures var spec := CropPercentSpec(old(sec.State()), yScale, xScale);
              && (spec.Err? ==> err == Some(spec.error) && sec == old(sec))
              && (spec.Ok? ==> err == None && sec.State() == spec.value)
      ensures madeOneD == old(madeOneD) && etas == old(etas) && powers == old(powers)
      ensures offsets == old(offsets) && offsetPowers == old(offsetPowers) && parabolaPower == old(parabolaPower)
    {
      ghost var st := sec.State();
      if yScale < 0.0 || xScale < 0.0 || yScale > 1.0 || xScale > 1.0 {
        return Some(ValueError);
      }
      if |sec.xAxis| == 0 {
        return Some(ValueError);  // max() of an empty list
      }
      var keys := CropPercentKeys(sec.yAxis, sec.xAxis, yScale, xScale);
      var r := sec.GetItem(keys.0, keys.1);
      GetItemComplete(st, keys.0, keys.1);
      if r.Err? {
        return Some(r.error);
      }
      sec := r.value;
      return None;
    }

    /** `make_1D_by_quadratic`: the power of every listed eta, stored sorted
        by eta. */
    method MakeOneDByQuadratic(k: Kernel, etaRange: (real, real), numEtas: int, numThreads: int, sigma: Option<Sigma>)
      returns (r: Result<(seq<real>, seq<Power>)>)
      requires Valid() && k.cutoff > 0.0
      requires numEtas != 1 ==> Min2(etaRange) >= 0.0
      requires numEtas != 1 && Min2(etaRange) > 0.0 ==>
                 k.sqrt(1.0 / Min2(etaRange)) > 0.0 && k.sqrt(1.0 / Max2(etaRange)) > 0.0
      modifies this
      ensures Valid() && sec == old(sec)
      ensures offsets == old(offsets) && offsetPowers == old(offsetPowers) && parabolaPower == old(parabolaPower)
      ensures var out := OneDOutput(k, etaRange, numEtas, numThreads, sigma, Cells());
              && (out.Err? ==> r == Err(out.error)
                               && etas == old(etas) && powers == old(powers) && madeOneD == old(madeOneD))
              && (out.Ok? ==> r == Ok((etas, powers)) && madeOneD && |etas| == |powers|)
      ensures r.Ok? ==>
                && (forall i, j :: 0 <= i < j < |etas| ==> etas[i] < etas[j])
                && (forall e :: e in etas <==> e in EtaList(k.sqrt, etaRange, numEtas).value)
                && (forall i :: 0 <= i < |etas| ==> CrunchySpec(k, etas[i], Cells(), sigma) == Ok((etas[i], powers[i])))
    {
      var threads := ClampThreads(numThreads);
      var etaList := EtaList(k.sqrt, etaRange, numEtas);
      if etaList.Err? {
        return Err(etaList.error);
      }
      var pool := PoolCheck(threads);
      if pool.Some? {
        return Err(pool.value);
      }
      var g := Grid(sec.data, sec.yAxis, sec.xAxis);
      CompleteFits(sec.State());
      var output := MapCrunchy(k, etaList.value, g, sigma);
      if output.Err? {
        return Err(output.error);
      }
      var keys, values := CollectSorted(output.value);
      SortedCrunchy(k, etaList.value, g, sigma, output.value, keys, values);
      madeOneD := true;
      etas := keys;
      powers := values;
      return Ok((keys, values));
    }

    /** `power_along_parabola`: the power around each arclet of the
        parabola y = eta x**2, stored under eta in `parabola_power`. */
    method PowerAlongParabola(k: Kernel, eta: real, numArclets: int, numThreads: int, sigmaPx: real)
      returns (r: Result<Dict<(real, real), Power>>)
      requires Valid() && k.cutoff > 0.0
      modifies this
      ensures Valid() && sec == old(sec)
      ensures madeOneD == old(madeOneD) && etas == old(etas) && powers == old(powers)
      ensures offsets == old(offsets) && offsetPowers == old(offsetPowers)
      ensures |Cells().yAxis| > 0 && Fits(Cells())
      ensures var out := ArcletOutput(k, eta, numArclets, numThreads, sigmaPx, Cells());
              && (out.Err? ==> r == Err(out.error) && parabolaPower == old(parabolaPower))
              && (out.Ok? ==> r.Ok? && DistinctKeys(r.value)
                              && (forall p :: Get(r.value, p) == LastValue(out.value, p))
                              && parabolaPower == Put(old(parabolaPower), eta, r.value))
    {
      var threads := ClampThreads(numThreads);
      CompleteFits(sec.State());
      var g := Grid(sec.data, sec.yAxis, sec.xAxis);
      var arclets := BuildArclets(k.sqrt, eta, numArclets, sigmaPx, g);
      if arclets.Err? {
        return Err(arclets.error);
      }
      var ps := arclets.value;
      var pool := PoolCheck(threads);
      if pool.Some? {
        return Err(pool.value);
      }
      var output := MapCrunchy2(k, ps, g);
      if output.Err? {
        return Err(output.error);
      }
      var found := CollectResults(output.value);
      parabolaPower := Put(parabolaPower, eta, found);
      return Ok(found);
    }

    /** `parabola_width`: the power along the parabola shifted sideways by
        each offset, stored sorted by offset. */
    method ParabolaWidth(k: Kernel, eta: real, maxWidth: real, numOffsets: int, numThreads: int)
      returns (r: Result<(seq<real>, seq<Power>)>)
      requires Valid() && k.cutoff > 0.0
      modifies this
      ensures Valid() && sec == old(sec)
      ensures madeOneD == old(madeOneD) && etas == old(etas) && powers == old(powers) && parabolaPower == old(parabolaPower)
      ensures Fits(Cells())
      ensures var out := WidthOutput(k, eta, maxWidth, numOffsets, numThreads, Cells());
              && (out.Err? ==> r == Err(out.error) && offsets == old(offsets) && offsetPowers == old(offsetPowers))
              && (out.Ok? ==> r == Ok((offsets, offsetPowers)) && |offsets| == |offsetPowers|)
      ensures r.Ok? ==>
                && (forall i, j :: 0 <= i < j < |offsets| ==> offsets[i] < offsets[j])
                && (forall e :: e in offsets <==> e in OffsetList(k.sqrt, maxWidth, numOffsets).value)
                && (forall i :: 0 <= i < |offsets| ==>
                      Crunchy3Spec(k, offsets[i], eta, Cells(), None) == Ok((offsets[i], offsetPowers[i])))
    {
      var threads := ClampThreads(numThreads);
      CompleteFits(sec.State());
      var offsetList := OffsetList(k.sqrt, maxWidth, numOffsets);
      if offsetList.Err? {
        return Err(offsetList.error);
      }
      var pool := PoolCheck(threads);
      if pool.Some? {
        return Err(pool.value);
      }
      var g := Grid(sec.data, sec.yAxis, sec.xAxis);
      var output := MapCrunchy3(k, offsetList.value, eta, g);
      if output.Err? {
        return Err(output.error);
      }
      var keys, values := CollectSorted(output.value);
      SortedCrunchy3(k, offsetList.value, eta, g, output.value, keys, values);
      offsets := keys;
      offsetPowers := values;
      return Ok((keys, values));
    }
  }
}
