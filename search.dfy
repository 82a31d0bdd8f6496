// The curvature search of arcfinder/computing.py: the eta list, the mirrored
// sample and offset lists, the per-point sigmas, the worker-pool map (run here
// in order, one key after another), the collection of the reducers' results
// into a dict and sort_dict_by_key; and the Secondary object whose crop,
// crop_percent, make_1D_by_quadratic, power_along_parabola and
// parabola_width drive them.

module Search {
  import opened PyCore
  import opened Seqs
  import opened PyDict
  import opened Indexed
  import opened Weights

  // ------------------------------------------------------ result collection

  /** The value the last pair with key k carries, if any. */
  function LastValue<K(==), V>(pairs: seq<(K, V)>, k: K): (r: Option<V>)
    ensures r.None? <==> forall i :: 0 <= i < |pairs| ==> pairs[i].0 != k
    ensures r.Some? ==> exists i :: 0 <= i < |pairs| && pairs[i] == (k, r.value)
  {
    if |pairs| == 0 then None
    else if pairs[|pairs| - 1].0 == k then Some(pairs[|pairs| - 1].1)
    else
      var r := LastValue(pairs[..|pairs| - 1], k);
      assert forall i :: 0 <= i < |pairs| - 1 ==> pairs[..|pairs| - 1][i] == pairs[i];
      r
  }

  /** `powers = {}; for item in output: powers[item[0]] = item[1]`. */
  function Collect<K(==,!new), V>(pairs: seq<(K, V)>): (r: Dict<K, V>)
    ensures DistinctKeys(r)
  {
    if |pairs| == 0 then []
    else Put(Collect(pairs[..|pairs| - 1]), pairs[|pairs| - 1].0, pairs[|pairs| - 1].1)
  }

  /** Every key of the output is in the dict, with the value of its last occurrence. */
  lemma {:induction false} CollectLastWins<K(!new), V>(pairs: seq<(K, V)>, k: K)
    ensures Get(Collect(pairs), k) == LastValue(pairs, k)
  {
    if |pairs| > 0 {
      CollectLastWins(pairs[..|pairs| - 1], k);
    }
  }

  method CollectResults<K(==,!new), V>(output: seq<(K, V)>) returns (powers: Dict<K, V>)
    ensures DistinctKeys(powers)
    ensures forall k :: Get(powers, k) == LastValue(output, k)
  {
    powers := [];
    for i := 0 to |output|
      invariant powers == Collect(output[..i])
    {
      assert output[..i + 1][..i] == output[..i];
      powers := Put(powers, output[i].0, output[i].1);
    }
    assert output[..|output|] == output;
    forall k ensures Get(powers, k) == LastValue(output, k) {
      CollectLastWins(output, k);
    }
  }

  // ------------------------------------------------------ sort_dict_by_key

  predicate Ascending<V>(d: Dict<real, V>)
  {
    forall i, j :: 0 <= i < j < |d| ==> d[i].0 < d[j].0
  }

  /** One item put into its place in an ascending list that lacks its key. */
  function Insert<V(!new)>(s: Dict<real, V>, item: (real, V)): (r: Dict<real, V>)
    requires Ascending(s) && item.0 !in Keys(s)
    ensures |r| == |s| + 1 && Ascending(r)
    ensures forall x :: x in r <==> x in s || x == item
    ensures forall i :: 0 <= i < |r| ==> r[i].0 == item.0 || r[i].0 in Keys(s)
  {
    if |s| == 0 then [item]
    else if item.0 < s[0].0 then [item] + s
    else
      assert Ascending(s[1..]);
      assert Keys(s[1..]) == Keys(s)[1..];
      [s[0]] + Insert(s[1..], item)
  }

  /** `sorted(dictionary.items())`: the items in ascending key order (keys are distinct). */
  function SortedItems<V(!new)>(d: Dict<real, V>): (r: Dict<real, V>)
    requires DistinctKeys(d)
    ensures |r| == |d| && Ascending(r)
    ensures forall x :: x in r <==> x in d
    ensures forall i :: 0 <= i < |r| ==> r[i].0 in Keys(d)
  {
    if |d| == 0 then []
    else
      var init := d[..|d| - 1];
      assert DistinctKeys(init);
      var rest := SortedItems(init);
      assert forall x :: x in init <==> x in d && x != d[|d| - 1] by {
        assert d == init + [d[|d| - 1]];
      }
      assert d[|d| - 1].0 !in Keys(rest) by {
        forall i | 0 <= i < |rest| ensures rest[i].0 != d[|d| - 1].0 {
          assert rest[i].0 in Keys(init);
        }
      }
      Insert(rest, d[|d| - 1])
  }

  /** sort_dict_by_key: the keys in strictly ascending order, each with its value. */
  method SortDictByKey<V(!new)>(dictionary: Dict<real, V>) returns (keys: seq<real>, values: seq<V>)
    requires DistinctKeys(dictionary)
    ensures |keys| == |values| == |dictionary|
    ensures forall i, j :: 0 <= i < j < |keys| ==> keys[i] < keys[j]
    ensures forall i :: 0 <= i < |keys| ==> Get(dictionary, keys[i]) == Some(values[i])
    ensures forall k :: k in keys <==> k in Keys(dictionary)
  {
    var items := SortedItems(dictionary);
    keys, values := [], [];
    for i := 0 to |items|
      invariant |keys| == |values| == i
      invariant forall l :: 0 <= l < i ==> keys[l] == items[l].0 && values[l] == items[l].1
    {
      keys := keys + [items[i].0];
      values := values + [items[i].1];
    }
    forall i | 0 <= i < |keys| ensures Get(dictionary, keys[i]) == Some(values[i]) {
      assert items[i] in dictionary;
      var j :| 0 <= j < |dictionary| && dictionary[j] == items[i];
      GetAt(dictionary, j);
    }
    forall k | k in Keys(dictionary) ensures k in keys {
      var j :| 0 <= j < |dictionary| && dictionary[j].0 == k;
      assert dictionary[j] in items;
      var i :| 0 <= i < |items| && items[i] == dictionary[j];
      assert keys[i] == k;
    }
  }

  // ----------------------------------------------------------- small lists

  /** `if num_threads == 0: num_threads = 1`. */
  function ClampThreads(numThreads: int): (n: int)
    ensures numThreads == 0 ==> n == 1
    ensures numThreads != 0 ==> n == numThreads
  {
    if numThreads == 0 then 1 else numThreads
  }

  /** `mp.Pool(processes=n)` refuses fewer than one process. */
  function PoolCheck(processes: int): (r: Option<PyError>)
    ensures r.None? <==> processes >= 1
    ensures r.Some? ==> r.value == ValueError
  {
    if processes < 1 then Some(ValueError) else None
  }

  /** Only a negative thread count makes the pool fail once 0 has been raised to 1. */
  lemma PoolAfterClamp(numThreads: int)
    ensures PoolCheck(ClampThreads(numThreads)).Some? <==> numThreads < 0
  {
  }

  function Min2(r: (real, real)): real { if r.0 <= r.1 then r.0 else r.1 }
  function Max2(r: (real, real)): real { if r.0 >= r.1 then r.0 else r.1 }

  /** A point of `start + (stop - start) * t` with t in [0, 1] lies between start and stop. */
  lemma Lerp(start: real, stop: real, d: real, n: real)
    requires 0.0 <= d <= n && n > 0.0
    ensures Min2((start, stop)) <= LinspacePoint(start, stop, d, n) <= Max2((start, stop))
  {
    var t := d / n;
    assert 0.0 <= t <= 1.0 by {
      assert t * n == d;
      assert (1.0 - t) * n == n - d;
    }
    assert LinspacePoint(start, stop, d, n) == start + (stop - start) * t;
    if start <= stop {
      MulNonNeg(stop - start, t);
      MulNonNeg(stop - start, 1.0 - t);
    } else {
      MulNonNeg(start - stop, t);
      MulNonNeg(start - stop, 1.0 - t);
    }
  }

  lemma MulNonNeg(a: real, b: real)
    requires a >= 0.0 && b >= 0.0
    ensures a * b >= 0.0
  {
  }

  /** Every point of np.linspace(start, stop, num) lies between start and stop. */
  lemma LinspaceWithin(start: real, stop: real, num: nat)
    ensures forall i :: 0 <= i < num ==>
              Min2((start, stop)) <= Linspace(start, stop, num).value[i] <= Max2((start, stop))
  {
    forall i | 0 <= i < num
      ensures Min2((start, stop)) <= Linspace(start, stop, num).value[i] <= Max2((start, stop))
    {
      if num > 1 {
        assert Linspace(start, stop, num).value[i] == LinspacePoint(start, stop, i as real, (num - 1) as real);
        Lerp(start, stop, i as real, (num - 1) as real);
      }
    }
  }

  /** 1 / x**2 of a non-zero x. */
  function InverseSquare(x: real): (r: real)
    requires x != 0.0
    ensures r > 0.0
  {
    assert x * x > 0.0;
    1.0 / (x * x)
  }

  /** `__give_eta_list(eta_range, num_etas)` for an eta range (a, b): the
      average for a single eta, otherwise `1/x**2` over np.linspace between
      `sqrt(1/max)` and `sqrt(1/min)`. `1 / min(eta_range)` of a zero
      minimum raises ZeroDivisionError before linspace sees the count. For
      positive curvatures the caller's sqrt gives positive roots. */
  function EtaList(sqrt: real -> real, etaRange: (real, real), numEtas: int): (r: Result<seq<real>>)
    requires numEtas != 1 ==> Min2(etaRange) >= 0.0
    requires numEtas != 1 && Min2(etaRange) > 0.0 ==>
               sqrt(1.0 / Min2(etaRange)) > 0.0 && sqrt(1.0 / Max2(etaRange)) > 0.0
    ensures numEtas == 1 ==> r == Ok([(etaRange.0 + etaRange.1) / 2.0])
    ensures numEtas != 1 ==> (r.Err? <==> Min2(etaRange) == 0.0 || numEtas < 0)
    ensures r.Err? ==> r.error == if Min2(etaRange) == 0.0 then ZeroDivisionError else ValueError
    ensures r.Ok? && numEtas != 1 ==> |r.value| == numEtas && forall i :: 0 <= i < |r.value| ==> r.value[i] > 0.0
    ensures r.Ok? && numEtas >= 2 ==>
              r.value[0] == InverseSquare(sqrt(1.0 / Max2(etaRange)))
              && r.value[numEtas - 1] == InverseSquare(sqrt(1.0 / Min2(etaRange)))
  {
    if numEtas == 1 then Ok([(etaRange.0 + etaRange.1) / 2.0])
    else if Min2(etaRange) == 0.0 then Err(ZeroDivisionError)
    else
      var xMax := sqrt(1.0 / Min2(etaRange));
      var xMin := sqrt(1.0 / Max2(etaRange));
      var xs := Linspace(xMin, xMax, numEtas);
      if xs.Err? then Err(xs.error)
      else
        LinspaceWithin(xMin, xMax, numEtas);
        Ok(seq(|xs.value|, i requires 0 <= i < |xs.value| => InverseSquare(xs.value[i])))
  }

  /** `[-x for x in list(reversed(temp))[:-1]] + temp`: the list mirrored
      about its first element. */
  function Mirror(temp: seq<real>): (r: seq<real>)
    ensures |temp| == 0 ==> r == []
    ensures |temp| > 0 ==> |r| == 2 * |temp| - 1
  {
    if |temp| == 0 then []
    else
      var n := |temp|;
      seq(n - 1, i requires 0 <= i < n - 1 => -temp[n - 1 - i]) + temp
  }

  /** `s[i] == -s[len(s)-1-i]` for every i: the list is symmetric about 0. */
  predicate Antisymmetric(s: seq<real>)
  {
    forall i :: 0 <= i < |s| ==> s[i] == -s[|s| - 1 - i]
  }

  /** The same, except possibly at the middle element of an odd-length list. */
  predicate AntisymmetricOffMiddle(s: seq<real>)
  {
    forall i :: 0 <= i < |s| && 2 * i + 1 != |s| ==> s[i] == -s[|s| - 1 - i]
  }

  /** The mirrored list holds temp from its middle on and negated copies
      before it, so it is antisymmetric about its middle, and at the middle
      too when temp starts at 0. */
  lemma MirrorSymmetric(temp: seq<real>)
    requires |temp| > 0
    ensures var n, r := |temp|, Mirror(temp);
            && r[n - 1..] == temp
            && r[n - 1] == temp[0] && r[|r| - 1] == temp[n - 1]
            && (forall i :: 0 <= i < n - 1 ==> r[i] == -temp[n - 1 - i])
            && AntisymmetricOffMiddle(r)
            && (temp[0] == 0.0 ==> Antisymmetric(r))
  {
    var n, r := |temp|, Mirror(temp);
    var neg := seq(n - 1, i requires 0 <= i < n - 1 => -temp[n - 1 - i]);
    assert r == neg + temp;
    forall i | 0 <= i < |r| && i != n - 1 ensures r[i] == -r[|r| - 1 - i] {
      if i < n - 1 {
        assert r[|r| - 1 - i] == temp[n - 1 - i];
      } else {
        assert r[i] == temp[i - n + 1];
        assert r[|r| - 1 - i] == -temp[i - n + 1];
      }
    }
  }

  /** `eta * x**2`: the height of the parabola at x. */
  function Parabola(eta: real, x: real): real
  {
    eta * x * x
  }

  /** The arclet points `(eta x**2, x)` for the mirrored x list. */
  function Points(eta: real, xs: seq<real>): (pts: seq<(real, real)>)
    ensures |pts| == |xs| && forall i :: 0 <= i < |xs| ==> pts[i] == (Parabola(eta, xs[i]), xs[i])
  {
    seq(|xs|, i requires 0 <= i < |xs| => (Parabola(eta, xs[i]), xs[i]))
  }

  /** The sigmas of power_along_parabola: each end point takes its distance
      to its neighbour, every inner point the pixel spacing times sigma_px.
      A single point has no neighbour: `pts[1]` raises IndexError. */
  function PointSigmas(pts: seq<(real, real)>, pxY: real, pxX: real, sigmaPx: real): (r: Result<seq<Sigma>>)
    ensures r.Err? <==> |pts| == 1
    ensures r.Err? ==> r.error == IndexError
    ensures r.Ok? ==> |r.value| == |pts|
    ensures r.Ok? && |pts| >= 2 ==>
              var n := |pts|;
              && r.value[0] == (Weights.Abs(pts[1].0 - pts[0].0), Weights.Abs(pts[1].1 - pts[0].1))
              && r.value[n - 1] == (Weights.Abs(pts[n - 1].0 - pts[n - 2].0), Weights.Abs(pts[n - 1].1 - pts[n - 2].1))
              && forall i :: 0 < i < n - 1 ==> r.value[i] == (pxY * sigmaPx, pxX * sigmaPx)
  {
    if |pts| == 1 then Err(IndexError)
    else
      var n := |pts|;
      Ok(seq(n, i requires 0 <= i < n =>
        if i == 0 then (Weights.Abs(pts[1].0 - pts[0].0), Weights.Abs(pts[1].1 - pts[0].1))
        else if i == n - 1 then (Weights.Abs(pts[n - 1].0 - pts[n - 2].0), Weights.Abs(pts[n - 1].1 - pts[n - 2].1))
        else (pxY * sigmaPx, pxX * sigmaPx)))
  }

  // ------------------------------------------------------------ the pool

  /** `pool.map(f, keys)` given the outcome of each call in key order: the
      list of results, or the exception of the first call that raised. */
  function PoolMap<R>(rs: seq<Result<R>>): (r: Result<seq<R>>)
    ensures r.Ok? <==> forall i :: 0 <= i < |rs| ==> rs[i].Ok?
    ensures r.Ok? ==> |r.value| == |rs| && forall i :: 0 <= i < |rs| ==> r.value[i] == rs[i].value
    ensures r.Err? ==> exists i :: 0 <= i < |rs| && rs[i] == Err(r.error) && forall j :: 0 <= j < i ==> rs[j].Ok?
  {
    if |rs| == 0 then Ok([])
    else
      var init := rs[..|rs| - 1];
      assert forall i :: 0 <= i < |rs| - 1 ==> init[i] == rs[i];
      match PoolMap(init)
      case Err(e) => Err(e)
      case Ok(out) =>
        if rs[|rs| - 1].Err? then Err(rs[|rs| - 1].error)
        else Ok(out + [rs[|rs| - 1].value])
  }

  /** The first `i` calls succeeded and `out` holds their values. */
  ghost predicate DoneUpTo<R>(rs: seq<Result<R>>, out: seq<R>, i: nat)
  {
    && i <= |rs| && |out| == i
    && forall j :: 0 <= j < i ==> rs[j].Ok? && out[j] == rs[j].value
  }

  lemma DoneStep<R>(rs: seq<Result<R>>, out: seq<R>, i: nat)
    requires DoneUpTo(rs, out, i) && i < |rs| && rs[i].Ok?
    ensures DoneUpTo(rs, out + [rs[i].value], i + 1)
  {
  }

  /** The first failing call decides the exception. */
  lemma PoolMapFails<R>(rs: seq<Result<R>>, i: nat)
    requires i < |rs| && rs[i].Err? && forall j :: 0 <= j < i ==> rs[j].Ok?
    ensures PoolMap(rs) == Err(rs[i].error)
  {
    var r := PoolMap(rs);
    var n :| 0 <= n < |rs| && rs[n] == Err(r.error) && forall j :: 0 <= j < n ==> rs[j].Ok?;
    assert n == i;
  }

  /** When every call succeeds, the pool returns their values in order. */
  lemma PoolMapAll<R>(rs: seq<Result<R>>, out: seq<R>)
    requires DoneUpTo(rs, out, |rs|)
    ensures PoolMap(rs) == Ok(out)
  {
    assert PoolMap(rs).value == out;
  }

  /** crunchy called for every eta, in order. */
  function CrunchyCalls(k: Kernel, etas: seq<real>, g: Grid, sigma: Option<Sigma>): (rs: seq<Result<(real, Power)>>)
    requires k.cutoff > 0.0 && Fits(g)
    ensures |rs| == |etas| && forall i :: 0 <= i < |etas| ==> rs[i] == CrunchySpec(k, etas[i], g, sigma)
  {
    seq(|etas|, i requires 0 <= i < |etas| => CrunchySpec(k, etas[i], g, sigma))
  }

  /** crunchy2 called for every (point, sigma) pair, in order. */
  function Crunchy2Calls(k: Kernel, ps: seq<((real, real), Sigma)>, g: Grid): (rs: seq<Result<((real, real), Power)>>)
    requires k.cutoff > 0.0 && Fits(g)
    ensures |rs| == |ps| && forall i :: 0 <= i < |ps| ==> rs[i] == Crunchy2Spec(k, ps[i].0, Some(ps[i].1), g)
  {
    seq(|ps|, i requires 0 <= i < |ps| => Crunchy2Spec(k, ps[i].0, Some(ps[i].1), g))
  }

  /** crunchy3 called for every offset, in order, with the default sigma. */
  function Crunchy3Calls(k: Kernel, offsets: seq<real>, eta: real, g: Grid): (rs: seq<Result<(real, Power)>>)
    requires k.cutoff > 0.0 && Fits(g)
    ensures |rs| == |offsets| && forall i :: 0 <= i < |offsets| ==> rs[i] == Crunchy3Spec(k, offsets[i], eta, g, None)
  {
    seq(|offsets|, i requires 0 <= i < |offsets| => Crunchy3Spec(k, offsets[i], eta, g, None))
  }

  /** `pool.map(partial(crunchy, sec=self, sigma=sigma), etas)`, one eta after another. */
  method MapCrunchy(k: Kernel, etas: seq<real>, g: Grid, sigma: Option<Sigma>) returns (r: Result<seq<(real, Power)>>)
    requires k.cutoff > 0.0 && Fits(g)
    ensures r == PoolMap(CrunchyCalls(k, etas, g, sigma))
  {
    ghost var rs := CrunchyCalls(k, etas, g, sigma);
    var out := [];
    for i := 0 to |etas|
      invariant DoneUpTo(rs, out, i)
    {
      var one := Crunchy(k, etas[i], g, sigma);
      if one.Err? {
        PoolMapFails(rs, i);
        return Err(one.error);
      }
      DoneStep(rs, out, i);
      out := out + [one.value];
    }
    PoolMapAll(rs, out);
    return Ok(out);
  }

  /** `pool.map(partial(crunchy2, sec=self), pts_and_sigmas)`, one point after another. */
  method MapCrunchy2(k: Kernel, ps: seq<((real, real), Sigma)>, g: Grid) returns (r: Result<seq<((real, real), Power)>>)
    requires k.cutoff > 0.0 && Fits(g)
    ensures r == PoolMap(Crunchy2Calls(k, ps, g))
  {
    ghost var rs := Crunchy2Calls(k, ps, g);
    var out := [];
    for i := 0 to |ps|
      invariant DoneUpTo(rs, out, i)
    {
      var one := Crunchy2(k, ps[i].0, Some(ps[i].1), g);
      if one.Err? {
        PoolMapFails(rs, i);
        return Err(one.error);
      }
      DoneStep(rs, out, i);
      out := out + [one.value];
    }
    PoolMapAll(rs, out);
    return Ok(out);
  }

  /** `pool.map(partial(crunchy3, sec=self, eta=eta), offsets)`, one offset after another. */
  method MapCrunchy3(k: Kernel, offsets: seq<real>, eta: real, g: Grid) returns (r: Result<seq<(real, Power)>>)
    requires k.cutoff > 0.0 && Fits(g)
    ensures r == PoolMap(Crunchy3Calls(k, offsets, eta, g))
  {
    ghost var rs := Crunchy3Calls(k, offsets, eta, g);
    var out := [];
    for i := 0 to |offsets|
      invariant DoneUpTo(rs, out, i)
    {
      var one := Crunchy3(k, offsets[i], eta, g, None);
      if one.Err? {
        PoolMapFails(rs, i);
        return Err(one.error);
      }
      DoneStep(rs, out, i);
      out := out + [one.value];
    }
    PoolMapAll(rs, out);
    return Ok(out);
  }

  /** What sorting the collected output gives: each key of the output once,
      in ascending order, with the value of its last occurrence. */
  ghost predicate SortedResults<V>(output: seq<(real, V)>, keys: seq<real>, values: seq<V>)
  {
    && |keys| == |values|
    && (forall i, j :: 0 <= i < j < |keys| ==> keys[i] < keys[j])
    && (forall e :: e in keys <==> e in Keys(output))
    && (forall i :: 0 <= i < |keys| ==> LastValue(output, keys[i]) == Some(values[i]))
  }

  /** The pool's output put into a dict (`powers[item[0]] = item[1]`) and
      then through sort_dict_by_key. */
  method CollectSorted<V(!new)>(output: seq<(real, V)>) returns (keys: seq<real>, values: seq<V>)
    ensures SortedResults(output, keys, values)
  {
    var powers := CollectResults(output);
    keys, values := SortDictByKey(powers);
    forall e | e in Keys(output) ensures e in keys {
      var j :| 0 <= j < |output| && output[j].0 == e;
      assert Get(powers, e).Some?;
    }
  }

  /** Sorted crunchy results: the keys are exactly the etas searched, each
      with the power crunchy finds for it. */
  lemma SortedCrunchy(k: Kernel, etas: seq<real>, g: Grid, sigma: Option<Sigma>,
                      out: seq<(real, Power)>, keys: seq<real>, values: seq<Power>)
    requires k.cutoff > 0.0 && Fits(g)
    requires PoolMap(CrunchyCalls(k, etas, g, sigma)) == Ok(out)
    requires SortedResults(out, keys, values)
    ensures forall e :: e in keys <==> e in etas
    ensures forall i :: 0 <= i < |keys| ==> CrunchySpec(k, keys[i], g, sigma) == Ok((keys[i], values[i]))
  {
    var calls := CrunchyCalls(k, etas, g, sigma);
    forall j | 0 <= j < |out| ensures calls[j] == Ok(out[j]) && Keys(out)[j] == etas[j] {
      ReducerOutcomes(k, etas[j], 0.0, (0.0, 0.0), g, sigma);
    }
    forall e ensures e in keys <==> e in etas {
      if e in etas {
        var j :| 0 <= j < |etas| && etas[j] == e;
        assert Keys(out)[j] == e;
      }
      if e in Keys(out) {
        var j :| 0 <= j < |out| && Keys(out)[j] == e;
        assert etas[j] == e;
      }
    }
    forall i | 0 <= i < |keys| ensures CrunchySpec(k, keys[i], g, sigma) == Ok((keys[i], values[i])) {
      var j :| 0 <= j < |out| && out[j] == (keys[i], values[i]);
      assert Keys(out)[j] == keys[i];
    }
  }

  /** Sorted crunchy3 results: the keys are exactly the offsets searched,
      each with the power crunchy3 finds for it. */
  lemma SortedCrunchy3(k: Kernel, offsets: seq<real>, eta: real, g: Grid,
                       out: seq<(real, Power)>, keys: seq<real>, values: seq<Power>)
    requires k.cutoff > 0.0 && Fits(g)
    requires PoolMap(Crunchy3Calls(k, offsets, eta, g)) == Ok(out)
    requires SortedResults(out, keys, values)
    ensures forall e :: e in keys <==> e in offsets
    ensures forall i :: 0 <= i < |keys| ==> Crunchy3Spec(k, keys[i], eta, g, None) == Ok((keys[i], values[i]))
  {
    var calls := Crunchy3Calls(k, offsets, eta, g);
    forall j | 0 <= j < |out| ensures calls[j] == Ok(out[j]) && Keys(out)[j] == offsets[j] {
      ReducerOutcomes(k, eta, offsets[j], (0.0, 0.0), g, None);
    }
    forall e ensures e in keys <==> e in offsets {
      if e in offsets {
        var j :| 0 <= j < |offsets| && offsets[j] == e;
        assert Keys(out)[j] == e;
      }
      if e in Keys(out) {
        var j :| 0 <= j < |out| && Keys(out)[j] == e;
        assert offsets[j] == e;
      }
    }
    forall i | 0 <= i < |keys| ensures Crunchy3Spec(k, keys[i], eta, g, None) == Ok((keys[i], values[i])) {
      var j :| 0 <= j < |out| && out[j] == (keys[i], values[i]);
      assert Keys(out)[j] == keys[i];
    }
  }

  /** The loop of power_along_parabola that appends one sigma per point. */
  method BuildSigmas(pts: seq<(real, real)>, pxY: real, pxX: real, sigmaPx: real) returns (r: Result<seq<Sigma>>)
    ensures r == PointSigmas(pts, pxY, pxX, sigmaPx)
  {
    var n := |pts|;
    var sigmas: seq<Sigma> := [];
    for i := 0 to n
      invariant |sigmas| == i
      invariant n >= 2 ==> forall j :: 0 <= j < i ==> sigmas[j] == PointSigmas(pts, pxY, pxX, sigmaPx).value[j]
      invariant n == 1 ==> i == 0
    {
      if i == 0 {
        if n < 2 {
          return Err(IndexError);  // pts[1]
        }
        sigmas := sigmas + [(Weights.Abs(pts[1].0 - pts[0].0), Weights.Abs(pts[1].1 - pts[0].1))];
      } else if i == n - 1 {
        sigmas := sigmas + [(Weights.Abs(pts[n - 1].0 - pts[n - 2].0), Weights.Abs(pts[n - 1].1 - pts[n - 2].1))];
      } else {
        var sigmaY := pxY * sigmaPx;
        var sigmaX := pxX * sigmaPx;
        sigmas := sigmas + [(sigmaY, sigmaX)];
      }
    }
    if n == 0 {
      return Ok([]);
    }
    assert sigmas == PointSigmas(pts, pxY, pxX, sigmaPx).value;
    return Ok(sigmas);
  }

  // ------------------------------------------------------- sample lists

  /** The parabola is even: x and -x give the same height. */
  lemma ParabolaEven(eta: real, x: real)
    ensures Parabola(eta, -x) == Parabola(eta, x)
  {
    assert eta * -x * -x == eta * (x * x);
  }

  /** power_along_parabola's x positions: `[max_x * x**2 for x in
      np.linspace(0, 1, num_arclets / 2)]` mirrored about its first element;
      a count of -1 halves to 0. */
  function ArcletXs(maxX: real, numArclets: int): (r: Result<seq<real>>)
    ensures r.Err? <==> numArclets < -1
    ensures r.Err? ==> r.error == ValueError
    ensures r.Ok? && HalfCount(numArclets) == 0 ==> r.value == []
    ensures r.Ok? && HalfCount(numArclets) > 0 ==> |r.value| == 2 * (HalfCount(numArclets)) - 1
  {
    var ts := Linspace(0.0, 1.0, HalfCount(numArclets));
    if ts.Err? then Err(ts.error)
    else
      var temp := seq(|ts.value|, i requires 0 <= i < |ts.value| => Parabola(maxX, ts.value[i]));
      Ok(Mirror(temp))
  }

  /** The x positions are antisymmetric, since the first sample is 0, and
      run from -max_x to max_x. */
  lemma ArcletXsShape(maxX: real, numArclets: int)
    requires numArclets >= -1
    ensures var r := ArcletXs(maxX, numArclets).value;
            && Antisymmetric(r)
            && (HalfCount(numArclets) >= 2 ==> r[0] == -maxX && r[|r| - 1] == maxX)
  {
    var ts := Linspace(0.0, 1.0, HalfCount(numArclets)).value;
    var temp := seq(|ts|, i requires 0 <= i < |ts| => Parabola(maxX, ts[i]));
    if |temp| > 0 {
      assert temp[0] == Parabola(maxX, 0.0) == 0.0;
      assert |temp| >= 2 ==> temp[|temp| - 1] == Parabola(maxX, 1.0) == maxX;
      MirrorSymmetric(temp);
    }
  }

  /** parabola_width's offsets: `[max_width * np.sqrt(x) for x in
      np.linspace(0, 1, num_offsets / 2)]` mirrored about its first element;
      a count of -1 halves to 0. */
  function OffsetList(sqrt: real -> real, maxWidth: real, numOffsets: int): (r: Result<seq<real>>)
    ensures r.Err? <==> numOffsets < -1
    ensures r.Err? ==> r.error == ValueError
    ensures r.Ok? && HalfCount(numOffsets) == 0 ==> r.value == []
    ensures r.Ok? && HalfCount(numOffsets) > 0 ==> |r.value| == 2 * (HalfCount(numOffsets)) - 1
  {
    var ts := Linspace(0.0, 1.0, HalfCount(numOffsets));
    if ts.Err? then Err(ts.error)
    else
      var temp := seq(|ts.value|, i requires 0 <= i < |ts.value| => maxWidth * sqrt(ts.value[i]));
      Ok(Mirror(temp))
  }

  /** The offsets are antisymmetric away from the middle, and at the middle
      too when sqrt(0) is 0; they run from -max_width*sqrt(1) through
      max_width*sqrt(0) to max_width*sqrt(1). */
  lemma OffsetListShape(sqrt: real -> real, maxWidth: real, numOffsets: int)
    requires numOffsets >= -1
    ensures var r := OffsetList(sqrt, maxWidth, numOffsets).value;
            && (HalfCount(numOffsets) > 0 ==> r[HalfCount(numOffsets) - 1] == maxWidth * sqrt(0.0))
            && AntisymmetricOffMiddle(r)
            && (sqrt(0.0) == 0.0 ==> Antisymmetric(r))
            && (HalfCount(numOffsets) >= 2 ==> r[|r| - 1] == maxWidth * sqrt(1.0) && r[0] == -(maxWidth * sqrt(1.0)))
  {
    var ts := Linspace(0.0, 1.0, HalfCount(numOffsets)).value;
    var temp := seq(|ts|, i requires 0 <= i < |ts| => maxWidth * sqrt(ts[i]));
    if |temp| > 0 {
      assert temp[0] == maxWidth * sqrt(0.0);
      assert sqrt(0.0) == 0.0 ==> temp[0] == 0.0;
      assert |temp| >= 2 ==> temp[|temp| - 1] == maxWidth * sqrt(1.0);
      MirrorSymmetric(temp);
    }
  }

  /** `max_x`: sqrt(max(y) / eta), capped at |max(x)|. */
  function MaxX(sqrt: real -> real, eta: real, y: seq<real>, x: seq<real>): (m: real)
    requires eta != 0.0 && |y| > 0 && |x| > 0
    ensures m <= Weights.Abs(MaxOf(x))
    ensures m == sqrt(MaxOf(y) / eta) || m == Weights.Abs(MaxOf(x))
  {
    var m := sqrt(MaxOf(y) / eta);
    if m > Weights.Abs(MaxOf(x)) then Weights.Abs(MaxOf(x)) else m
  }

  /** Python's `zip` of two lists of the same length. */
  function Zip<A, B>(a: seq<A>, b: seq<B>): (r: seq<(A, B)>)
    requires |a| == |b|
    ensures |r| == |a| && forall i :: 0 <= i < |a| ==> r[i] == (a[i], b[i])
  {
    seq(|a|, i requires 0 <= i < |a| => (a[i], b[i]))
  }

  /** The loop of power_along_parabola that appends `(pts[i], sigmas[i])`
      for each i. */
  method PairUp<A, B>(a: seq<A>, b: seq<B>) returns (r: seq<(A, B)>)
    requires |a| == |b|
    ensures r == Zip(a, b)
  {
    r := [];
    for i := 0 to |b|
      invariant |r| == i && forall j :: 0 <= j < i ==> r[j] == (a[j], b[j])
    {
      r := r + [(a[i], b[i])];
    }
  }

  /** `pts_and_sigmas` for a given x list and pixel spacing: each point of
      the parabola paired with its sigma. */
  function PairSigmas(eta: real, xs: Result<seq<real>>, px: Sigma, sigmaPx: real)
    : (r: Result<seq<((real, real), Sigma)>>)
    ensures r.Err? <==> xs.Err? || |xs.value| == 1
    ensures r.Err? ==> r.error == if xs.Err? then xs.error else IndexError
    ensures r.Ok? ==> |r.value| == |xs.value|
                      && forall i :: 0 <= i < |xs.value| ==> r.value[i].0 == (Parabola(eta, xs.value[i]), xs.value[i])
  {
    match xs
    case Err(e) => Err(e)
    case Ok(xs) =>
      var pts := Points(eta, xs);
      match PointSigmas(pts, px.0, px.1, sigmaPx)
      case Err(e) => Err(e)
      case Ok(sigmas) => Ok(Zip(pts, sigmas))
  }

  /** The `pts_and_sigmas` list of power_along_parabola, or the exception
      raised building it: max() of an empty y axis (ValueError), the float
      division `max(y) / eta` by a zero eta (ZeroDivisionError), max() of an
      empty x axis (ValueError), a pixel spacing read past a short axis
      (IndexError), a negative linspace count (ValueError), the neighbour of
      a single point (IndexError). */
  function ArcletPoints(sqrt: real -> real, eta: real, numArclets: int, sigmaPx: real, g: Grid)
    : (r: Result<seq<((real, real), Sigma)>>)
  {
    if |g.yAxis| == 0 then Err(ValueError)
    else if eta == 0.0 then Err(ZeroDivisionError)
    else if |g.xAxis| == 0 then Err(ValueError)
    else
      match PixelSpacing(g)
      case Err(e) => Err(e)
      case Ok(px) => PairSigmas(eta, ArcletXs(MaxX(sqrt, eta, g.yAxis, g.xAxis), numArclets), px, sigmaPx)
  }

  /** The steps of power_along_parabola up to `pts_and_sigmas`, with the
      loop that pairs each point with its sigma. */
  method BuildArclets(sqrt: real -> real, eta: real, numArclets: int, sigmaPx: real, g: Grid)
    returns (r: Result<seq<((real, real), Sigma)>>)
    ensures r == ArcletPoints(sqrt, eta, numArclets, sigmaPx, g)
  {
    if |g.yAxis| == 0 {
      return Err(ValueError);  // max() of an empty list
    }
    if eta == 0.0 {
      return Err(ZeroDivisionError);
    }
    if |g.xAxis| == 0 {
      return Err(ValueError);  // max() of an empty list
    }
    var maxX := MaxX(sqrt, eta, g.yAxis, g.xAxis);
    var px := PixelSpacing(g);
    if px.Err? {
      return Err(px.error);
    }
    var xs := ArcletXs(maxX, numArclets);
    if xs.Err? {
      return Err(xs.error);
    }
    var pts := Points(eta, xs.value);
    var sigmas := BuildSigmas(pts, px.value.0, px.value.1, sigmaPx);
    if sigmas.Err? {
      return Err(sigmas.error);
    }
    var ps := PairUp(pts, sigmas.value);
    assert PairSigmas(eta, xs, px.value, sigmaPx) == Ok(ps);
    return Ok(ps);
  }

  /** Building the arclet list fails exactly on the conditions named above. */
  lemma ArcletPointsFail(sqrt: real -> real, eta: real, numArclets: int, sigmaPx: real, g: Grid)
    ensures var r := ArcletPoints(sqrt, eta, numArclets, sigmaPx, g);
            && (r.Err? <==> |g.yAxis| < 2 || eta == 0.0 || |g.xAxis| < 2 || numArclets < -1 || HalfCount(numArclets) == 1)
            && (r.Err? && (|g.yAxis| == 0 || (eta != 0.0 && |g.xAxis| == 0)) ==> r.error == ValueError)
            && (r.Err? && |g.yAxis| > 0 && eta == 0.0 ==> r.error == ZeroDivisionError)
            && (r.Err? && |g.yAxis| > 0 && eta != 0.0 && |g.xAxis| > 0 && numArclets >= -1 ==> r.error == IndexError)
  {
  }

  /** The arclets lie on y = eta x**2, in mirrored pairs (x, -x) of equal height. */
  lemma ArcletPointsShape(sqrt: real -> real, eta: real, numArclets: int, sigmaPx: real, g: Grid)
    requires ArcletPoints(sqrt, eta, numArclets, sigmaPx, g).Ok?
    ensures var ps := ArcletPoints(sqrt, eta, numArclets, sigmaPx, g).value;
            && (HalfCount(numArclets) == 0 ==> |ps| == 0)
            && (HalfCount(numArclets) > 1 ==> |ps| == 2 * (HalfCount(numArclets)) - 1)
            && (forall i :: 0 <= i < |ps| ==> ps[i].0.0 == Parabola(eta, ps[i].0.1))
            && (forall i :: 0 <= i < |ps| ==> ps[i].0.1 == -ps[|ps| - 1 - i].0.1)
            && (forall i :: 0 <= i < |ps| ==> ps[i].0.0 == ps[|ps| - 1 - i].0.0)
  {
    var xs := ArcletXs(MaxX(sqrt, eta, g.yAxis, g.xAxis), numArclets);
    ArcletXsShape(MaxX(sqrt, eta, g.yAxis, g.xAxis), numArclets);
    assert ArcletPoints(sqrt, eta, numArclets, sigmaPx, g) == PairSigmas(eta, xs, PixelSpacing(g).value, sigmaPx);
    PairSigmasShape(eta, xs.value, PixelSpacing(g).value, sigmaPx);
  }

  /** Paired with sigmas, an antisymmetric x list gives points on the
      parabola in mirrored pairs. */
  lemma PairSigmasShape(eta: real, xs: seq<real>, px: Sigma, sigmaPx: real)
    requires Antisymmetric(xs) && PairSigmas(eta, Ok(xs), px, sigmaPx).Ok?
    ensures var ps := PairSigmas(eta, Ok(xs), px, sigmaPx).value;
            && |ps| == |xs|
            && (forall i :: 0 <= i < |ps| ==> ps[i].0.0 == Parabola(eta, ps[i].0.1))
            && (forall i :: 0 <= i < |ps| ==> ps[i].0.1 == -ps[|ps| - 1 - i].0.1)
            && (forall i :: 0 <= i < |ps| ==> ps[i].0.0 == ps[|ps| - 1 - i].0.0)
  {
    var ps := PairSigmas(eta, Ok(xs), px, sigmaPx).value;
    forall i | 0 <= i < |ps|
      ensures ps[i].0.1 == -ps[|ps| - 1 - i].0.1 && ps[i].0.0 == ps[|ps| - 1 - i].0.0
    {
      ParabolaEven(eta, xs[|ps| - 1 - i]);
    }
  }

  // ------------------------------------------------------- the searches

  /** The pool output of make_1D_by_quadratic, or the exception raised first:
      the eta list, then `mp.Pool`, then crunchy. */
  function OneDOutput(k: Kernel, etaRange: (real, real), numEtas: int, numThreads: int, sigma: Option<Sigma>, g: Grid)
    : Result<seq<(real, Power)>>
    requires k.cutoff > 0.0 && Fits(g)
    requires numEtas != 1 ==> Min2(etaRange) >= 0.0
    requires numEtas != 1 && Min2(etaRange) > 0.0 ==>
               k.sqrt(1.0 / Min2(etaRange)) > 0.0 && k.sqrt(1.0 / Max2(etaRange)) > 0.0
  {
    match EtaList(k.sqrt, etaRange, numEtas)
    case Err(e) => Err(e)
    case Ok(etas) =>
      if PoolCheck(ClampThreads(numThreads)).Some? then Err(ValueError)
      else PoolMap(CrunchyCalls(k, etas, g, sigma))
  }

  /** make_1D_by_quadratic fails for a zero smallest eta when more or fewer
      than one eta is asked for (ZeroDivisionError), for a negative eta count
      or thread count, and otherwise only when crunchy needs the pixel
      spacing of a short axis; on success there is one (eta, power) pair
      per listed eta. */
  lemma OneDOutcome(k: Kernel, etaRange: (real, real), numEtas: int, numThreads: int, sigma: Option<Sigma>, g: Grid)
    requires k.cutoff > 0.0 && Fits(g)
    requires numEtas != 1 ==> Min2(etaRange) >= 0.0
    requires numEtas != 1 && Min2(etaRange) > 0.0 ==>
               k.sqrt(1.0 / Min2(etaRange)) > 0.0 && k.sqrt(1.0 / Max2(etaRange)) > 0.0
    ensures var r := OneDOutput(k, etaRange, numEtas, numThreads, sigma, g);
            var zero := numEtas != 1 && Min2(etaRange) == 0.0;
            && (r.Err? <==> zero || numEtas < 0 || numThreads < 0
                            || (numEtas != 0 && sigma.None? && (|g.yAxis| < 2 || |g.xAxis| < 2)))
            && (zero ==> r == Err(ZeroDivisionError))
            && (r.Err? && !zero && (numEtas < 0 || numThreads < 0) ==> r.error == ValueError)
            && (r.Err? && !zero && numEtas >= 0 && numThreads >= 0 ==> r.error == IndexError)
            && (r.Ok? ==> var etas := EtaList(k.sqrt, etaRange, numEtas).value;
                          |r.value| == |etas| && forall i :: 0 <= i < |etas| ==> r.value[i].0 == etas[i])
  {
    var el := EtaList(k.sqrt, etaRange, numEtas);
    if el.Ok? {
      var rs := CrunchyCalls(k, el.value, g, sigma);
      forall i | 0 <= i < |rs| ensures rs[i].Err? <==> sigma.None? && (|g.yAxis| < 2 || |g.xAxis| < 2) {
        ReducerOutcomes(k, el.value[i], 0.0, (0.0, 0.0), g, sigma);
      }
      if numEtas != 0 && numEtas >= 0 {
        assert |rs| > 0;
      }
    }
  }

  /** The pool step of power_along_parabola: `mp.Pool`, then crunchy2 over
      the arclet list. */
  function ArcletPool(k: Kernel, ps: seq<((real, real), Sigma)>, numThreads: int, g: Grid)
    : Result<seq<((real, real), Power)>>
    requires k.cutoff > 0.0 && Fits(g)
  {
    if PoolCheck(ClampThreads(numThreads)).Some? then Err(ValueError)
    else PoolMap(Crunchy2Calls(k, ps, g))
  }

  /** The pool output of power_along_parabola, or the exception raised first. */
  function ArcletOutput(k: Kernel, eta: real, numArclets: int, numThreads: int, sigmaPx: real, g: Grid)
    : Result<seq<((real, real), Power)>>
    requires k.cutoff > 0.0 && Fits(g)
  {
    match ArcletPoints(k.sqrt, eta, numArclets, sigmaPx, g)
    case Err(e) => Err(e)
    case Ok(ps) => ArcletPool(k, ps, numThreads, g)
  }

  /** On axes long enough for a pixel spacing, the pool fails only for a
      negative thread count, and every arclet gets its power. */
  lemma ArcletPoolOutcome(k: Kernel, ps: seq<((real, real), Sigma)>, numThreads: int, g: Grid)
    requires k.cutoff > 0.0 && Fits(g) && |g.yAxis| >= 2 && |g.xAxis| >= 2
    ensures var r := ArcletPool(k, ps, numThreads, g);
            && (r.Err? <==> numThreads < 0)
            && (r.Err? ==> r.error == ValueError)
            && (r.Ok? ==> |r.value| == |ps| && forall i :: 0 <= i < |ps| ==> r.value[i].0 == ps[i].0)
  {
    Crunchy2CallsOk(k, ps, g);
  }

  /** power_along_parabola fails exactly when building the arclet list does
      (as ArcletPointsFail lists: a zero eta among them) or for a negative
      thread count; once the list is built crunchy2 cannot fail, since the
      spacing it reads was already read. Every arclet gets its power. */
  lemma ArcletOutcome(k: Kernel, eta: real, numArclets: int, numThreads: int, sigmaPx: real, g: Grid)
    requires k.cutoff > 0.0 && Fits(g)
    ensures var r, ps := ArcletOutput(k, eta, numArclets, numThreads, sigmaPx, g), ArcletPoints(k.sqrt, eta, numArclets, sigmaPx, g);
            && (r.Err? <==> ps.Err? || numThreads < 0)
            && (r.Err? ==> r.error == if ps.Err? then ps.error else ValueError)
            && (eta == 0.0 && |g.yAxis| > 0 ==> r == Err(ZeroDivisionError))
            && (r.Ok? ==> |r.value| == |ps.value| && forall i :: 0 <= i < |ps.value| ==> r.value[i].0 == ps.value[i].0)
  {
    var ps := ArcletPoints(k.sqrt, eta, numArclets, sigmaPx, g);
    if ps.Ok? {
      ArcletPointsFail(k.sqrt, eta, numArclets, sigmaPx, g);
      ArcletPoolOutcome(k, ps.value, numThreads, g);
    }
  }

  /** With both axes long enough, crunchy2 succeeds at every point and keeps
      the point as its key. */
  lemma Crunchy2CallsOk(k: Kernel, ps: seq<((real, real), Sigma)>, g: Grid)
    requires k.cutoff > 0.0 && Fits(g) && |g.yAxis| >= 2 && |g.xAxis| >= 2
    ensures var rs := Crunchy2Calls(k, ps, g);
            forall i :: 0 <= i < |ps| ==> rs[i].Ok? && rs[i].value.0 == ps[i].0
  {
    var rs := Crunchy2Calls(k, ps, g);
    forall i | 0 <= i < |ps| ensures rs[i].Ok? && rs[i].value.0 == ps[i].0 {
      ReducerOutcomes(k, 0.0, 0.0, ps[i].0, g, Some(ps[i].1));
    }
  }

  /** The pool output of parabola_width, or the exception raised first. */
  function WidthOutput(k: Kernel, eta: real, maxWidth: real, numOffsets: int, numThreads: int, g: Grid)
    : Result<seq<(real, Power)>>
    requires k.cutoff > 0.0 && Fits(g)
  {
    match OffsetList(k.sqrt, maxWidth, numOffsets)
    case Err(e) => Err(e)
    case Ok(offsets) =>
      if PoolCheck(ClampThreads(numThreads)).Some? then Err(ValueError)
      else PoolMap(Crunchy3Calls(k, offsets, eta, g))
  }

  /** parabola_width fails for an offset count below -1 (its half is
      negative) or a negative thread count, and otherwise only when there
      are offsets and an axis is too short for the pixel spacing; on
      success there is one pair per offset. */
  lemma WidthOutcome(k: Kernel, eta: real, maxWidth: real, numOffsets: int, numThreads: int, g: Grid)
    requires k.cutoff > 0.0 && Fits(g)
    ensures var r := WidthOutput(k, eta, maxWidth, numOffsets, numThreads, g);
            && (r.Err? <==> numOffsets < -1 || numThreads < 0
                            || (HalfCount(numOffsets) > 0 && (|g.yAxis| < 2 || |g.xAxis| < 2)))
            && (r.Err? && (numOffsets < -1 || numThreads < 0) ==> r.error == ValueError)
            && (r.Err? && numOffsets >= -1 && numThreads >= 0 ==> r.error == IndexError)
            && (r.Ok? ==> var offsets := OffsetList(k.sqrt, maxWidth, numOffsets).value;
                          |r.value| == |offsets| && forall i :: 0 <= i < |offsets| ==> r.value[i].0 == offsets[i])
  {
    var ol := OffsetList(k.sqrt, maxWidth, numOffsets);
    if ol.Ok? {
      var rs := Crunchy3Calls(k, ol.value, eta, g);
      forall i | 0 <= i < |rs| ensures rs[i].Err? <==> |g.yAxis| < 2 || |g.xAxis| < 2 {
        ReducerOutcomes(k, eta, ol.value[i], (0.0, 0.0), g, None);
      }
      if HalfCount(numOffsets) > 0 {
        assert |rs| > 0;
      }
    }
  }

  /** The middle offset is 0 when sqrt(0) is 0, and the power there is the
      power crunchy finds for the same eta. */
  lemma WidthAtCentre(k: Kernel, eta: real, maxWidth: real, numOffsets: int, numThreads: int, g: Grid)
    requires k.cutoff > 0.0 && Fits(g) && k.sqrt(0.0) == 0.0 && HalfCount(numOffsets) > 0
    requires WidthOutput(k, eta, maxWidth, numOffsets, numThreads, g).Ok?
    ensures CrunchySpec(k, eta, g, None).Ok?
    ensures WidthOutput(k, eta, maxWidth, numOffsets, numThreads, g).value[HalfCount(numOffsets) - 1]
              == (0.0, CrunchySpec(k, eta, g, None).value.1)
  {
    WidthOutcome(k, eta, maxWidth, numOffsets, numThreads, g);
    OffsetListShape(k.sqrt, maxWidth, numOffsets);
    var offsets := OffsetList(k.sqrt, maxWidth, numOffsets).value;
    var mid := HalfCount(numOffsets) - 1;
    assert offsets[mid] == maxWidth * 0.0 == 0.0;
    var rs := Crunchy3Calls(k, offsets, eta, g);
    assert rs[mid] == Crunchy3Spec(k, 0.0, eta, g, None);
    Crunchy3AtZeroIsCrunchy(k, eta, g);
  }
}
