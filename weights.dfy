// The weighting and reduction helpers of
// arcfinder/multiprocessing_helper_functions.py: the three weight functions
// with their cut-off, and the reducers crunchy, crunchy2 and crunchy3, each a
// variance-weighted mean over the cells of the secondary spectrum.
//
// The Gaussian, the closest point on a parabola (a complex Cardano solution),
// the square root and the cut-off 1/e**3 are not reproduced: a Kernel value
// carries them, and every statement here holds whatever they compute.

module Weights {
  import opened PyCore
  import opened Seqs

  /** The transcendental pieces the weight functions are made of. */
  datatype Kernel = Kernel(
    gaussian: (real, real, real) -> real,  // gaussian(x, mu, sig)
    closest: (real, real, real) -> real,   // closest_point_on_the_parabola(a, px, py)
    sqrt: real -> real,                    // np.sqrt
    cutoff: real)                          // 1/np.e**3

  /** A sigma list `[sigma_y, sigma_x]`. */
  type Sigma = (real, real)

  function Abs(r: real): real { if r < 0.0 then -r else r }

  /** `if ret < 1/np.e**3: ret = None`: a weight below the cut-off is dropped,
      any other is kept as it is. */
  function Cut(k: Kernel, ret: real): (r: Option<real>)
    ensures r.None? <==> ret < k.cutoff
    ensures r.Some? ==> r.value == ret && r.value >= k.cutoff
  {
    if ret < k.cutoff then None else Some(ret)
  }

  /** The weight weight_function computes before the cut-off: the point
      (py, px) against its closest point on the parabola y = eta x**2, scaled
      by the distance of (origY, origX) from the origin. */
  function CurveWeight(k: Kernel, eta: real, origY: real, origX: real, py: real, px: real, sigma: Sigma): real
  {
    var x := k.closest(eta, px, py);
    var y := eta * x * x;
    var distFromOrigin := k.sqrt(origX * origX + origY * origY);
    var retY := k.gaussian(py - y, 0.0, sigma.0);
    var retX := k.gaussian(px - x, 0.0, sigma.1);
    distFromOrigin * k.sqrt(retX * retY)
  }

  /** The weight weight_function2 computes before the cut-off. */
  function PointWeight(k: Kernel, y: real, x: real, py: real, px: real, sigma: Sigma): real
  {
    var retY := k.gaussian(py - y, 0.0, sigma.0);
    var retX := k.gaussian(px - x, 0.0, sigma.1);
    k.sqrt(retX * retY)
  }

  /** weight_function(eta, px, py, sigma): the distance of the point is taken from the point itself. */
  function WeightFunction(k: Kernel, eta: real, px: real, py: real, sigma: Sigma): (r: Option<real>)
    ensures r.None? <==> CurveWeight(k, eta, py, px, py, px, sigma) < k.cutoff
    ensures r.Some? ==> r.value == CurveWeight(k, eta, py, px, py, px, sigma) >= k.cutoff
  {
    Cut(k, CurveWeight(k, eta, py, px, py, px, sigma))
  }

  /** weight_function2(y, x, py, px, sigma): the weight of cell (y, x) around the point (py, px). */
  function WeightFunction2(k: Kernel, y: real, x: real, py: real, px: real, sigma: Sigma): (r: Option<real>)
    ensures r.None? <==> PointWeight(k, y, x, py, px, sigma) < k.cutoff
    ensures r.Some? ==> r.value == PointWeight(k, y, x, py, px, sigma) >= k.cutoff
  {
    Cut(k, PointWeight(k, y, x, py, px, sigma))
  }

  /** weight_function3(eta, orig_y, orig_x, py, px, sigma): the kernel is
      evaluated at (py, px), the distance taken from (orig_y, orig_x). */
  function WeightFunction3(k: Kernel, eta: real, origY: real, origX: real, py: real, px: real, sigma: Sigma)
    : (r: Option<real>)
    ensures r.None? <==> CurveWeight(k, eta, origY, origX, py, px, sigma) < k.cutoff
    ensures r.Some? ==> r.value == CurveWeight(k, eta, origY, origX, py, px, sigma) >= k.cutoff
  {
    Cut(k, CurveWeight(k, eta, origY, origX, py, px, sigma))
  }

  /** weight_function3 evaluates the kernel at the shifted point but takes the
      distance from the unshifted one; at offset 0 it is weight_function. */
  lemma WeightFunction3AtOrigin(k: Kernel, eta: real, y: real, x: real, sigma: Sigma)
    ensures WeightFunction3(k, eta, y, x, y + eta * 0.0 * 0.0, x - 0.0, sigma) == WeightFunction(k, eta, x, y, sigma)
  {
    assert y + eta * 0.0 * 0.0 == y && x - 0.0 == x;
  }

  // ------------------------------------------------------------- reduction

  /** Which weight function a reducer applies to each cell (y, x). */
  datatype Weigher =
    | AlongCurve(eta: real, sigma: Sigma)                  // crunchy
    | AroundPoint(py: real, px: real, sigma: Sigma)        // crunchy2
    | OffCurve(eta: real, offset: real, sigma: Sigma)      // crunchy3

  function WeightAt(k: Kernel, wr: Weigher, y: real, x: real): (w: Option<real>)
    ensures w.Some? ==> w.value >= k.cutoff
  {
    match wr
    case AlongCurve(eta, sigma) => WeightFunction(k, eta, x, y, sigma)
    case AroundPoint(py, px, sigma) => WeightFunction2(k, y, x, py, px, sigma)
    case OffCurve(eta, offset, sigma) =>
      WeightFunction3(k, eta, y, x, y + eta * offset * offset, x - offset, sigma)
  }

  /** The grid a reducer reads: `sec.get([yi, xi])` and the two axes. */
  datatype Grid = Grid(data: seq<seq<real>>, yAxis: seq<real>, xAxis: seq<real>)

  predicate Fits(g: Grid)
  {
    |g.data| == |g.yAxis| && forall i :: 0 <= i < |g.data| ==> |g.data[i]| == |g.xAxis|
  }

  /** A visited cell: its y and x coordinates and its value. */
  type Cell = (real, real, real)

  function RowCells(g: Grid, yi: nat): (r: seq<Cell>)
    requires Fits(g) && yi < |g.yAxis|
    ensures |r| == |g.xAxis|
    ensures forall xi :: 0 <= xi < |r| ==> r[xi] == (g.yAxis[yi], g.xAxis[xi], g.data[yi][xi])
  {
    seq(|g.xAxis|, xi requires 0 <= xi < |g.xAxis| => (g.yAxis[yi], g.xAxis[xi], g.data[yi][xi]))
  }

  /** The cells of the first `rows` rows, in the order of the nested loops. */
  function CellsUpTo(g: Grid, rows: nat): (r: seq<Cell>)
    requires Fits(g) && rows <= |g.yAxis|
  {
    if rows == 0 then [] else CellsUpTo(g, rows - 1) + RowCells(g, rows - 1)
  }

  /** A weight for every cell coordinate (y, x): None when the cell is left out. */
  type WeightFn = (real, real) -> Option<real>

  /** The weight of cell (y, x). */
  function WeightOf(weight: WeightFn, y: real, x: real): Option<real>
  {
    weight(y, x)
  }

  /** Every weight that is kept is positive, so `1 / weight` is defined. */
  ghost predicate Positive(weight: WeightFn)
  {
    forall y, x :: WeightOf(weight, y, x).Some? ==> WeightOf(weight, y, x).value > 0.0
  }

  /** The weight a reducer gives each cell. */
  function Weight(k: Kernel, wr: Weigher): WeightFn
  {
    (y, x) => WeightAt(k, wr, y, x)
  }

  lemma WeightPositive(k: Kernel, wr: Weigher)
    requires k.cutoff > 0.0
    ensures Positive(Weight(k, wr))
  {
    forall y, x | WeightOf(Weight(k, wr), y, x).Some? ensures WeightOf(Weight(k, wr), y, x).value > 0.0 {
      assert WeightOf(Weight(k, wr), y, x) == WeightAt(k, wr, y, x);
    }
  }

  /** The entry appended to `powers` for a cell: None when excluded, else
      `value / variance` with `variance = 1 / weight`, that is value·weight. */
  function PowerTerm(weight: WeightFn, c: Cell): Option<real>
  {
    var w := WeightOf(weight, c.0, c.1);
    if w.None? then None else Some(Product(c.2, w.value))
  }

  /** The entry appended to `powers_norm`: None when excluded, else
      `1 / variance`, that is the weight. */
  function NormTerm(weight: WeightFn, c: Cell): Option<real>
  {
    var w := WeightOf(weight, c.0, c.1);
    if w.None? then None else Some(w.value)
  }

  /** The `powers` list of the cells visited so far. */
  function Powers(weight: WeightFn, cs: seq<Cell>): (r: seq<Option<real>>)
    ensures |r| == |cs|
  {
    if |cs| == 0 then [] else Powers(weight, cs[..|cs| - 1]) + [PowerTerm(weight, cs[|cs| - 1])]
  }

  /** The `powers_norm` list of the cells visited so far. */
  function Norms(weight: WeightFn, cs: seq<Cell>): (r: seq<Option<real>>)
    ensures |r| == |cs|
  {
    if |cs| == 0 then [] else Norms(weight, cs[..|cs| - 1]) + [NormTerm(weight, cs[|cs| - 1])]
  }

  lemma VisitCell(weight: WeightFn, cs: seq<Cell>, c: Cell)
    ensures Powers(weight, cs + [c]) == Powers(weight, cs) + [PowerTerm(weight, c)]
    ensures Norms(weight, cs + [c]) == Norms(weight, cs) + [NormTerm(weight, c)]
  {
    assert (cs + [c])[..|cs|] == cs;
  }

  /** `list(filter(None, s))`: drops the None entries and the zeros. */
  function FilterTruthy(s: seq<Option<real>>): (r: seq<real>)
    ensures forall v :: v in r ==> v != 0.0
  {
    if |s| == 0 then []
    else
      var init := FilterTruthy(s[..|s| - 1]);
      var last := s[|s| - 1];
      if last.Some? && last.value != 0.0 then init + [last.value] else init
  }

  /** The sum of the values a list holds, zeros included. */
  function SumSome(s: seq<Option<real>>): real
  {
    if |s| == 0 then 0.0
    else SumSome(s[..|s| - 1]) + (if s[|s| - 1].Some? then s[|s| - 1].value else 0.0)
  }

  /** Dropping the zeros along with the None entries does not change the sum. */
  lemma {:induction false} FilterTruthySum(s: seq<Option<real>>)
    ensures Sum(FilterTruthy(s)) == SumSome(s)
  {
    if |s| > 0 {
      var init := s[..|s| - 1];
      FilterTruthySum(init);
      var last := s[|s| - 1];
      if last.Some? && last.value != 0.0 {
        SumAppend(FilterTruthy(init), [last.value]);
        assert Sum([last.value]) == Sum([last.value][..0]) + last.value;
      }
    }
  }

  /** The (value, weight) pairs of the cells that are kept. */
  function Included(weight: WeightFn, cs: seq<Cell>): (r: seq<(real, real)>)
    ensures |r| <= |cs|
  {
    if |cs| == 0 then []
    else
      var init := Included(weight, cs[..|cs| - 1]);
      var c := cs[|cs| - 1];
      var w := WeightOf(weight, c.0, c.1);
      if w.Some? then init + [(c.2, w.value)] else init
  }

  lemma {:induction false} IncludedPositive(weight: WeightFn, cs: seq<Cell>)
    requires Positive(weight)
    ensures forall i :: 0 <= i < |Included(weight, cs)| ==> Included(weight, cs)[i].1 > 0.0
  {
    if |cs| > 0 {
      IncludedPositive(weight, cs[..|cs| - 1]);
      var c := cs[|cs| - 1];
      var w := WeightOf(weight, c.0, c.1);
      if w.Some? {
        assert w.value > 0.0;
      }
    }
  }

  /** value * weight. */
  function Product(v: real, w: real): real
  {
    v * w
  }

  /** Σ value * weight. */
  function WeightedTotal(ps: seq<(real, real)>): real
  {
    if |ps| == 0 then 0.0 else WeightedTotal(ps[..|ps| - 1]) + Product(ps[|ps| - 1].0, ps[|ps| - 1].1)
  }

  /** Σ weight. */
  function TotalWeight(ps: seq<(real, real)>): real
  {
    if |ps| == 0 then 0.0 else TotalWeight(ps[..|ps| - 1]) + ps[|ps| - 1].1
  }

  /** Dividing by the variance `1 / w` multiplies by the weight w. */
  lemma InverseVariance(v: real, w: real)
    requires w != 0.0
    ensures v / (1.0 / w) == Product(v, w)
    ensures 1.0 / (1.0 / w) == w
  {
    var variance := 1.0 / w;
    assert variance * w == 1.0;
    assert (v * w) * variance == v * (w * variance);
  }

  lemma AppendSums(s: seq<Option<real>>, x: Option<real>, ps: seq<(real, real)>, p: (real, real))
    ensures SumSome(s + [x]) == SumSome(s) + (if x.Some? then x.value else 0.0)
    ensures WeightedTotal(ps + [p]) == WeightedTotal(ps) + Product(p.0, p.1)
    ensures TotalWeight(ps + [p]) == TotalWeight(ps) + p.1
  {
    assert (s + [x])[..|s|] == s;
    assert (ps + [p])[..|ps|] == ps;
  }

  /** The two lists a reducer builds hold, as their sums, the weighted total
      and the total weight of the included cells; excluded cells add to neither. */
  lemma {:induction false} SumsOverIncluded(weight: WeightFn, cs: seq<Cell>)
    ensures SumSome(Powers(weight, cs)) == WeightedTotal(Included(weight, cs))
    ensures SumSome(Norms(weight, cs)) == TotalWeight(Included(weight, cs))
  {
    if |cs| > 0 {
      var n := |cs| - 1;
      var init, c := cs[..n], cs[n];
      SumsOverIncluded(weight, init);
      var w := WeightOf(weight, c.0, c.1);
      var pt, nt := PowerTerm(weight, c), NormTerm(weight, c);
      var inc := Included(weight, init);
      var p := (c.2, if w.Some? then w.value else 0.0);
      AppendSums(Powers(weight, init), pt, inc, p);
      AppendSums(Norms(weight, init), nt, inc, p);
    }
  }

  lemma {:induction false} TotalWeightPositive(ps: seq<(real, real)>)
    requires forall i :: 0 <= i < |ps| ==> ps[i].1 > 0.0
    ensures |ps| > 0 ==> TotalWeight(ps) > 0.0
    ensures |ps| == 0 ==> TotalWeight(ps) == 0.0
  {
    if |ps| > 0 {
      TotalWeightPositive(ps[..|ps| - 1]);
    }
  }

  /** A weighted sum of values between lo and hi, with positive weights, lies
      between lo and hi times the total weight. */
  lemma {:induction false} WeightedBetween(ps: seq<(real, real)>, lo: real, hi: real)
    requires forall i :: 0 <= i < |ps| ==> ps[i].1 > 0.0 && lo <= ps[i].0 <= hi
    ensures lo * TotalWeight(ps) <= WeightedTotal(ps) <= hi * TotalWeight(ps)
  {
    if |ps| > 0 {
      var n := |ps| - 1;
      WeightedBetween(ps[..n], lo, hi);
      var v, w := ps[n].0, ps[n].1;
      var t := TotalWeight(ps[..n]);
      MulLe(lo, v, w);
      MulLe(v, hi, w);
      assert WeightedTotal(ps) == WeightedTotal(ps[..n]) + Product(v, w);
      assert TotalWeight(ps) == t + w;
      Distribute(lo, t, w);
      Distribute(hi, t, w);
    }
  }

  lemma MulLe(a: real, b: real, w: real)
    requires a <= b && w >= 0.0
    ensures a * w <= Product(b, w) && Product(a, w) <= b * w
  {
    assert (b - a) * w >= 0.0;
  }

  lemma Distribute(a: real, t: real, w: real)
    ensures a * (t + w) == a * t + a * w
  {
  }

  /** A weighted mean with positive weights of values between lo and hi lies between lo and hi. */
  lemma MeanBetween(ps: seq<(real, real)>, lo: real, hi: real)
    requires |ps| > 0 && forall i :: 0 <= i < |ps| ==> ps[i].1 > 0.0 && lo <= ps[i].0 <= hi
    ensures TotalWeight(ps) > 0.0
    ensures lo <= WeightedTotal(ps) / TotalWeight(ps) <= hi
  {
    WeightedBetween(ps, lo, hi);
    TotalWeightPositive(ps);
    DivBetween(WeightedTotal(ps), TotalWeight(ps), lo, hi);
  }

  lemma DivBetween(s: real, t: real, lo: real, hi: real)
    requires t > 0.0 && lo * t <= s <= hi * t
    ensures lo <= s / t <= hi
  {
    var q := s / t;
    assert q * t == s;
    assert (q - lo) * t >= 0.0;
    assert (hi - q) * t >= 0.0;
  }

  /** What a reducer returns: a float, or numpy's nan for 0/0. */
  datatype Power = Value(v: real) | NaN

  /** `p / pn` in numpy: pn is zero only when no cell was included, and then
      p is zero too, so the quotient is nan. */
  function Quotient(p: real, pn: real): Power
  {
    if pn == 0.0 then NaN else Value(p / pn)
  }

  /** The power a reducer computes over all cells of the grid. */
  function ReduceSpec(weight: WeightFn, g: Grid): Power
    requires Fits(g)
  {
    var cs := CellsUpTo(g, |g.yAxis|);
    Quotient(Sum(FilterTruthy(Powers(weight, cs))), Sum(FilterTruthy(Norms(weight, cs))))
  }

  /** The reducers' result is Σ(value·w) / Σ(w) over the included cells, and
      nan exactly when no cell is included. */
  lemma ReduceIsWeightedMean(weight: WeightFn, g: Grid)
    requires Positive(weight) && Fits(g)
    ensures var ps := Included(weight, CellsUpTo(g, |g.yAxis|));
            && ReduceSpec(weight, g) == Quotient(WeightedTotal(ps), TotalWeight(ps))
            && (|ps| == 0 <==> ReduceSpec(weight, g) == NaN)
  {
    var cs := CellsUpTo(g, |g.yAxis|);
    var ps := Included(weight, cs);
    FilterTruthySum(Powers(weight, cs));
    FilterTruthySum(Norms(weight, cs));
    SumsOverIncluded(weight, cs);
    IncludedPositive(weight, cs);
    TotalWeightPositive(ps);
  }

  /** When every included value lies between lo and hi, so does the reducers'
      result: in particular it lies between the smallest and the largest
      included value. */
  lemma ReduceBetween(weight: WeightFn, g: Grid, lo: real, hi: real)
    requires Positive(weight) && Fits(g)
    requires var ps := Included(weight, CellsUpTo(g, |g.yAxis|));
             |ps| > 0 && forall i :: 0 <= i < |ps| ==> lo <= ps[i].0 <= hi
    ensures ReduceSpec(weight, g).Value?
    ensures lo <= ReduceSpec(weight, g).v <= hi
  {
    var cs := CellsUpTo(g, |g.yAxis|);
    var ps := Included(weight, cs);
    ReduceIsWeightedMean(weight, g);
    IncludedPositive(weight, cs);
    MeanBetween(ps, lo, hi);
  }

  /** `variance = 1/w`, then `value / variance` and `1 / variance`: the
      weighted value and the weight. */
  function Terms(v: real, w: real): (t: (real, real))
    requires w != 0.0
    ensures t == (Product(v, w), w)
  {
    InverseVariance(v, w);
    var variance := 1.0 / w;
    (v / variance, 1.0 / variance)
  }

  /** The inner loop of a reducer: row yi appended cell by cell. */
  method ReduceRow(weight: WeightFn, g: Grid, yi: nat, powers0: seq<Option<real>>, norms0: seq<Option<real>>)
    returns (powers: seq<Option<real>>, powersNorm: seq<Option<real>>)
    requires Positive(weight) && Fits(g) && yi < |g.yAxis|
    requires powers0 == Powers(weight, CellsUpTo(g, yi)) && norms0 == Norms(weight, CellsUpTo(g, yi))
    ensures powers == Powers(weight, CellsUpTo(g, yi + 1)) && powersNorm == Norms(weight, CellsUpTo(g, yi + 1))
  {
    powers, powersNorm := powers0, norms0;
    var y := g.yAxis[yi];
    ghost var done := CellsUpTo(g, yi);
    ghost var row := RowCells(g, yi);
    var xi := 0;
    assert done + row[..0] == done;
    while xi < |g.xAxis|
      invariant 0 <= xi <= |g.xAxis|
      invariant powers == Powers(weight, done + row[..xi])
      invariant powersNorm == Norms(weight, done + row[..xi])
    {
      var x := g.xAxis[xi];
      var thisWeight := WeightOf(weight, y, x);
      assert done + row[..xi + 1] == (done + row[..xi]) + [row[xi]];
      VisitCell(weight, done + row[..xi], row[xi]);
      if thisWeight.None? {
        powers := powers + [None];
        powersNorm := powersNorm + [None];
      } else {
        var (pt, nt) := Terms(g.data[yi][xi], thisWeight.value);
        powers := powers + [Some(pt)];
        powersNorm := powersNorm + [Some(nt)];
      }
      xi := xi + 1;
    }
    assert row[..xi] == row;
  }

  /** The nested loops over every cell: `powers` and `powers_norm` are built
      entry by entry, filtered, summed and divided. */
  method Reduce(weight: WeightFn, g: Grid) returns (p: Power)
    requires Positive(weight) && Fits(g)
    ensures p == ReduceSpec(weight, g)
  {
    var powers: seq<Option<real>> := [];
    var powersNorm: seq<Option<real>> := [];
    var yi := 0;
    while yi < |g.yAxis|
      invariant 0 <= yi <= |g.yAxis|
      invariant powers == Powers(weight, CellsUpTo(g, yi))
      invariant powersNorm == Norms(weight, CellsUpTo(g, yi))
    {
      powers, powersNorm := ReduceRow(weight, g, yi, powers, powersNorm);
      yi := yi + 1;
    }
    var total := Sum(FilterTruthy(powers));
    var norm := Sum(FilterTruthy(powersNorm));
    p := Quotient(total, norm);
  }

  lemma {:induction false} SameWeightsSameLists(w1: WeightFn, w2: WeightFn, cs: seq<Cell>)
    requires forall y, x :: WeightOf(w1, y, x) == WeightOf(w2, y, x)
    ensures Powers(w1, cs) == Powers(w2, cs) && Norms(w1, cs) == Norms(w2, cs)
  {
    if |cs| > 0 {
      SameWeightsSameLists(w1, w2, cs[..|cs| - 1]);
      var c := cs[|cs| - 1];
      assert WeightOf(w1, c.0, c.1) == WeightOf(w2, c.0, c.1);
      assert PowerTerm(w1, c) == PowerTerm(w2, c) && NormTerm(w1, c) == NormTerm(w2, c);
    }
  }

  /** Reducing with two weightings that agree on every cell gives the same power. */
  lemma SameWeightsSamePower(w1: WeightFn, w2: WeightFn, g: Grid)
    requires Fits(g)
    requires forall y, x :: WeightOf(w1, y, x) == WeightOf(w2, y, x)
    ensures ReduceSpec(w1, g) == ReduceSpec(w2, g)
  {
    SameWeightsSameLists(w1, w2, CellsUpTo(g, |g.yAxis|));
  }

  // -------------------------------------------------------------- reducers

  /** The pixel spacing `[|y1 - y0|, |x1 - x0|]`; an axis of fewer than two
      entries has no `axis[1]` (IndexError). */
  function PixelSpacing(g: Grid): (r: Result<Sigma>)
    ensures r.Err? <==> |g.yAxis| < 2 || |g.xAxis| < 2
    ensures r.Err? ==> r.error == IndexError
  {
    if |g.yAxis| < 2 || |g.xAxis| < 2 then Err(IndexError)
    else Ok((Abs(g.yAxis[1] - g.yAxis[0]), Abs(g.xAxis[1] - g.xAxis[0])))
  }

  /** crunchy's sigma: a supplied sigma is used as it is, otherwise the pixel spacing. */
  function CrunchySigma(g: Grid, sigma: Option<Sigma>): Result<Sigma>
  {
    if sigma.Some? then Ok(sigma.value) else PixelSpacing(g)
  }

  /** crunchy2's and crunchy3's sigma: the pixel spacing is always read, and
      each component is raised to at least the spacing of its axis. */
  function ClampSigma(g: Grid, sigma: Option<Sigma>): Result<Sigma>
  {
    match PixelSpacing(g)
    case Err(e) => Err(e)
    case Ok(px) =>
      var s := if sigma.None? then px else sigma.value;
      var s1 := if s.0 < px.0 then (px.0, s.1) else s;
      var s2 := if s1.1 < px.1 then (s1.0, px.1) else s1;
      Ok(s2)
  }

  /** Each component comes out as the larger of the requested one and the spacing. */
  lemma ClampSigmaMeaning(g: Grid, sigma: Option<Sigma>)
    ensures ClampSigma(g, sigma).Err? <==> PixelSpacing(g).Err?
    ensures PixelSpacing(g).Ok? ==>
              var px, s, r := PixelSpacing(g).value, (if sigma.None? then PixelSpacing(g).value else sigma.value), ClampSigma(g, sigma).value;
              && r.0 >= px.0 && r.1 >= px.1
              && (r.0 == s.0 || r.0 == px.0) && (r.1 == s.1 || r.1 == px.1)
              && (s.0 >= px.0 ==> r.0 == s.0) && (s.1 >= px.1 ==> r.1 == s.1)
              && (sigma.None? ==> r == px)
  {
  }

  /** crunchy(eta, sec, sigma): the power along the parabola y = eta x**2. */
  function CrunchySpec(k: Kernel, eta: real, g: Grid, sigma: Option<Sigma>): (r: Result<(real, Power)>)
    requires k.cutoff > 0.0 && Fits(g)
  {
    match CrunchySigma(g, sigma)
    case Err(e) => Err(e)
    case Ok(s) => Ok((eta, ReduceSpec(Weight(k, AlongCurve(eta, s)), g)))
  }

  /** crunchy2((pt, sigma), sec): the power around the point pt = (py, px). */
  function Crunchy2Spec(k: Kernel, pt: (real, real), sigma: Option<Sigma>, g: Grid): (r: Result<((real, real), Power)>)
    requires k.cutoff > 0.0 && Fits(g)
  {
    match ClampSigma(g, sigma)
    case Err(e) => Err(e)
    case Ok(s) => Ok((pt, ReduceSpec(Weight(k, AroundPoint(pt.0, pt.1, s)), g)))
  }

  /** crunchy3(offset, eta, sec, sigma): the power along the parabola shifted by offset. */
  function Crunchy3Spec(k: Kernel, offset: real, eta: real, g: Grid, sigma: Option<Sigma>): (r: Result<(real, Power)>)
    requires k.cutoff > 0.0 && Fits(g)
  {
    match ClampSigma(g, sigma)
    case Err(e) => Err(e)
    case Ok(s) => Ok((offset, ReduceSpec(Weight(k, OffCurve(eta, offset, s)), g)))
  }

  /** The reducers return their key unchanged; crunchy fails only for a
      missing sigma on a short axis, crunchy2 and crunchy3 on any short axis. */
  lemma ReducerOutcomes(k: Kernel, eta: real, offset: real, pt: (real, real), g: Grid, sigma: Option<Sigma>)
    requires k.cutoff > 0.0 && Fits(g)
    ensures CrunchySpec(k, eta, g, sigma).Err? <==> sigma.None? && (|g.yAxis| < 2 || |g.xAxis| < 2)
    ensures CrunchySpec(k, eta, g, sigma).Ok? ==> CrunchySpec(k, eta, g, sigma).value.0 == eta
    ensures Crunchy2Spec(k, pt, sigma, g).Err? <==> |g.yAxis| < 2 || |g.xAxis| < 2
    ensures Crunchy2Spec(k, pt, sigma, g).Ok? ==> Crunchy2Spec(k, pt, sigma, g).value.0 == pt
    ensures Crunchy3Spec(k, offset, eta, g, sigma).Err? <==> |g.yAxis| < 2 || |g.xAxis| < 2
    ensures Crunchy3Spec(k, offset, eta, g, sigma).Ok? ==> Crunchy3Spec(k, offset, eta, g, sigma).value.0 == offset
  {
    ClampSigmaMeaning(g, sigma);
  }

  /** With offset 0 and the default sigma, crunchy3 computes the power crunchy
      computes for the same eta. */
  lemma Crunchy3AtZeroIsCrunchy(k: Kernel, eta: real, g: Grid)
    requires k.cutoff > 0.0 && Fits(g)
    ensures Crunchy3Spec(k, 0.0, eta, g, None).Err? <==> CrunchySpec(k, eta, g, None).Err?
    ensures Crunchy3Spec(k, 0.0, eta, g, None).Ok? ==>
              Crunchy3Spec(k, 0.0, eta, g, None).value.1 == CrunchySpec(k, eta, g, None).value.1
  {
    if PixelSpacing(g).Ok? {
      var s := PixelSpacing(g).value;
      ClampSigmaMeaning(g, None);
      var w3, w1 := Weight(k, OffCurve(eta, 0.0, s)), Weight(k, AlongCurve(eta, s));
      forall y, x ensures WeightOf(w3, y, x) == WeightOf(w1, y, x) {
        WeightFunction3AtOrigin(k, eta, y, x, s);
      }
      SameWeightsSamePower(w3, w1, g);
    }
  }

  method Crunchy(k: Kernel, eta: real, g: Grid, sigma: Option<Sigma>) returns (r: Result<(real, Power)>)
    requires k.cutoff > 0.0 && Fits(g)
    ensures r == CrunchySpec(k, eta, g, sigma)
  {
    var s := CrunchySigma(g, sigma);
    if s.Err? {
      return Err(s.error);
    }
    WeightPositive(k, AlongCurve(eta, s.value));
    var p := Reduce(Weight(k, AlongCurve(eta, s.value)), g);
    return Ok((eta, p));
  }

  method Crunchy2(k: Kernel, pt: (real, real), sigma: Option<Sigma>, g: Grid) returns (r: Result<((real, real), Power)>)
    requires k.cutoff > 0.0 && Fits(g)
    ensures r == Crunchy2Spec(k, pt, sigma, g)
  {
    var s := ClampSigma(g, sigma);
    if s.Err? {
      return Err(s.error);
    }
    WeightPositive(k, AroundPoint(pt.0, pt.1, s.value));
    var p := Reduce(Weight(k, AroundPoint(pt.0, pt.1, s.value)), g);
    return Ok((pt, p));
  }

  method Crunchy3(k: Kernel, offset: real, eta: real, g: Grid, sigma: Option<Sigma>) returns (r: Result<(real, Power)>)
    requires k.cutoff > 0.0 && Fits(g)
    ensures r == Crunchy3Spec(k, offset, eta, g, sigma)
  {
    var s := ClampSigma(g, sigma);
    if s.Err? {
      return Err(s.error);
    }
    WeightPositive(k, OffCurve(eta, offset, s.value));
    var p := Reduce(Weight(k, OffCurve(eta, offset, s.value)), g);
    return Ok((offset, p));
  }
}
