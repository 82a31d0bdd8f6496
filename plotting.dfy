// The computations inside arcfinder/plotting.py: the document title the Pdf
// wrapper stores, the extent show_image gives its image, and the lines
// overplot_parabolas draws over a secondary spectrum. The drawing itself
// (matplotlib) is not modelled: a figure is the data handed to it.

module Plotting {
  import opened PyCore
  import opened Seqs
  import opened PyStr
  import opened PyDict
  import opened Search

  // ------------------------------------------------------------------
  // Pdf.__init__

  /** `'{0}: {1}'.format(attr, value)` for every item. */
  function TitleParts(attrs: Dict<string, string>): (r: seq<string>)
    ensures |r| == |attrs|
  {
    seq(|attrs|, i requires 0 <= i < |attrs| => attrs[i].0 + ": " + attrs[i].1)
  }

  /** The items as the title loop appends them, each followed by ", ". */
  function TitleItems(attrs: Dict<string, string>): string
  {
    if |attrs| == 0 then ""
    else TitleItems(attrs[..|attrs| - 1]) + attrs[|attrs| - 1].0 + ": " + attrs[|attrs| - 1].1 + ", "
  }

  /** The title Pdf.__init__ builds as written: the `[:-2]` trim also runs when
      there is no item, and then cuts the last two letters of the fixed text. */
  function TitleAsWritten(attrs: Dict<string, string>): string
  {
    var started := "pulsarpkg result" + (if |attrs| > 0 then " (" else "") + TitleItems(attrs);
    var trimmed := DropLast(started, 2);
    if |attrs| > 0 then trimmed + " )" else trimmed
  }

  /** Without search attributes the written title loses its last two letters. */
  lemma EmptyTitleCut()
    ensures TitleAsWritten([]) == "pulsarpkg resu"
  {
    assert "pulsarpkg result" + "" + "" == "pulsarpkg resu" + "lt";
  }

  /** The title the document evidently should carry: the fixed text alone when
      there are no search attributes, otherwise the items joined by ", " in
      parentheses. */
  function PdfTitle(attrs: Dict<string, string>): string
  {
    if |attrs| == 0 then "pulsarpkg result"
    else "pulsarpkg result" + " (" + Join(", ", TitleParts(attrs)) + " )"
  }

  lemma {:induction false} TitleItemsJoin(attrs: Dict<string, string>)
    requires |attrs| > 0
    ensures TitleItems(attrs) == Join(", ", TitleParts(attrs)) + ", "
  {
    var init := attrs[..|attrs| - 1];
    var last := attrs[|attrs| - 1];
    assert TitleParts(attrs)[..|attrs| - 1] == TitleParts(init);
    if |init| > 0 {
      TitleItemsJoin(init);
    } else {
      assert TitleItems(init) == "";
    }
  }

  /** With at least one item the written and the intended title agree; only
      the empty dict tells them apart. */
  lemma TitleAgrees(attrs: Dict<string, string>)
    ensures |attrs| > 0 <==> TitleAsWritten(attrs) == PdfTitle(attrs)
  {
    if |attrs| > 0 {
      TitleClosed(attrs);
    } else {
      EmptyTitleCut();
      assert "pulsarpkg result" != "pulsarpkg resu" by {
        assert |"pulsarpkg result"| != |"pulsarpkg resu"|;
      }
    }
  }

  /** The document information of the query PDF. */
  class Pdf {
    var info: Dict<string, string>

    /** `infodict` is what the PDF backend starts with; the title is built item
        by item and trimmed only when items were appended. */
    constructor (infodict: Dict<string, string>, attrs: Dict<string, string>)
      requires DistinctKeys(infodict)
      ensures DistinctKeys(info)
      ensures Get(info, "Title") == Some(PdfTitle(attrs))
      ensures Get(info, "Author") == Some("pulsarpkg")
      ensures forall k :: k != "Title" && k != "Author" ==> Get(info, k) == Get(infodict, k)
    {
      var title := "pulsarpkg result";
      if |attrs| > 0 {
        title := title + " (";
      }
      ghost var start := title;
      for i := 0 to |attrs|
        invariant title == start + TitleItems(attrs[..i])
      {
        assert attrs[..i + 1][..i] == attrs[..i];
        title := title + attrs[i].0 + ": " + attrs[i].1 + ", ";
      }
      assert attrs[..|attrs|] == attrs;
      if |attrs| > 0 {
        title := DropLast(title, 2) + " )";
        TitleClosed(attrs);
      }
      var d := Put(infodict, "Title", title);
      info := Put(d, "Author", "pulsarpkg");
    }
  }

  lemma TitleClosed(attrs: Dict<string, string>)
    requires |attrs| > 0
    ensures DropLast("pulsarpkg result" + " (" + TitleItems(attrs), 2) + " )" == PdfTitle(attrs)
  {
    TitleItemsJoin(attrs);
    var head := "pulsarpkg result" + " (" + Join(", ", TitleParts(attrs));
    assert "pulsarpkg result" + " (" + TitleItems(attrs) == head + ", ";
    DropTail(head, ", ");
  }

  lemma DropTail(s: string, t: string)
    requires |t| >= 1
    ensures DropLast(s + t, |t|) == s
  {
    assert (s + t)[..|s|] == s;
  }

  // ------------------------------------------------------------------
  // show_image

  /** `range(n)` as plot coordinates. */
  function Range(n: nat): (r: seq<real>)
    ensures |r| == n && forall i :: 0 <= i < n ==> r[i] == i as real
  {
    seq(n, i requires 0 <= i < n => i as real)
  }

  /** The `(x_min, x_max, y_min, y_max)` extent of show_image: an absent axis
      defaults to the pixel indices; indexing the first row of an empty image
      raises IndexError and the minimum of an empty axis ValueError. */
  function Extent(showme: seq<seq<real>>, axisY: Option<seq<real>>, axisX: Option<seq<real>>): Result<(real, real, real, real)>
  {
    if axisX.None? && |showme| == 0 then Err(IndexError)
    else
      var xs := if axisX.Some? then axisX.value else Range(|showme[0]|);
      var ys := if axisY.Some? then axisY.value else Range(|showme|);
      if |xs| == 0 || |ys| == 0 then Err(ValueError)
      else Ok((MinOf(xs), MaxOf(xs), MinOf(ys), MaxOf(ys)))
  }

  lemma RangeBounds(n: nat)
    requires n > 0
    ensures MinOf(Range(n)) == 0.0 && MaxOf(Range(n)) == (n - 1) as real
  {
    var r := Range(n);
    assert r[0] == 0.0 && r[n - 1] == (n - 1) as real;
  }

  /** Without axes the image spans column 0 to the last column and row 0 to
      the last row; it fails only on an empty image or an empty first row. */
  lemma DefaultExtent(showme: seq<seq<real>>)
    ensures Extent(showme, None, None).Err? <==> |showme| == 0 || |showme[0]| == 0
    ensures Extent(showme, None, None).Err? ==>
      Extent(showme, None, None).error == if |showme| == 0 then IndexError else ValueError
    ensures Extent(showme, None, None).Ok? ==>
      Extent(showme, None, None).value == (0.0, (|showme[0]| - 1) as real, 0.0, (|showme| - 1) as real)
  {
    if |showme| > 0 && |showme[0]| > 0 {
      RangeBounds(|showme[0]|);
      RangeBounds(|showme|);
    }
  }

  /** A given axis decides its side of the extent: its least and greatest value. */
  lemma GivenExtent(showme: seq<seq<real>>, axisY: seq<real>, axisX: seq<real>)
    requires |axisY| > 0 && |axisX| > 0
    ensures Extent(showme, Some(axisY), Some(axisX)).Ok?
    ensures var e := Extent(showme, Some(axisY), Some(axisX)).value;
      && e.0 in axisX && e.1 in axisX && e.2 in axisY && e.3 in axisY
      && (forall i :: 0 <= i < |axisX| ==> e.0 <= axisX[i] <= e.1)
      && (forall i :: 0 <= i < |axisY| ==> e.2 <= axisY[i] <= e.3)
  {
  }

  // ------------------------------------------------------------------
  // overplot_parabolas

  /** One drawn curve: the shifted x positions and the parabola values. */
  datatype Curve = Curve(plotX: seq<real>, parab: seq<real>)

  /** The curve for one curvature and one offset over the x axis. */
  function CurveOf(eta: real, offset: real, axisX: seq<real>): Curve
  {
    Curve(seq(|axisX|, i requires 0 <= i < |axisX| => axisX[i] + offset),
          seq(|axisX|, i requires 0 <= i < |axisX| => Parabola(eta, axisX[i]) - Parabola(eta, offset)))
  }

  /** The curves overplot_parabolas draws, one row per curvature and one curve
      per offset, or the ValueError `min` raises on an empty axis once a curve
      has been drawn. */
  function ParabolaCurves(axisX: seq<real>, axisY: seq<real>, etas: seq<real>, offsets: Option<seq<real>>): Result<seq<seq<Curve>>>
  {
    var offs := if offsets.Some? then offsets.value else [0.0];
    if |etas| > 0 && |offs| > 0 && (|axisX| == 0 || |axisY| == 0) then Err(ValueError)
    else Ok(seq(|etas|, e requires 0 <= e < |etas| =>
              seq(|offs|, o requires 0 <= o < |offs| => CurveOf(etas[e], offs[o], axisX))))
  }

  /** Every drawn point (X, Y) lies on `eta·X·(X − 2·offset)`: the parabola
      `eta·x²` moved right by the offset and down by `eta·offset²`, so every
      curve passes through the origin. */
  lemma CurveOnParabola(eta: real, offset: real, axisX: seq<real>)
    ensures var c := CurveOf(eta, offset, axisX);
      && |c.plotX| == |c.parab| == |axisX|
      && forall i :: 0 <= i < |axisX| ==>
           c.parab[i] == Parabola(eta, c.plotX[i] - offset) - Parabola(eta, offset)
           && c.parab[i] == eta * c.plotX[i] * (c.plotX[i] - 2.0 * offset)
  {
    var c := CurveOf(eta, offset, axisX);
    forall i | 0 <= i < |axisX|
      ensures c.parab[i] == Parabola(eta, c.plotX[i] - offset) - Parabola(eta, offset)
      ensures c.parab[i] == eta * c.plotX[i] * (c.plotX[i] - 2.0 * offset)
    {
      var x := axisX[i];
      assert c.plotX[i] - offset == x;
      assert eta * (x + offset) * (x + offset - 2.0 * offset) == eta * x * x - eta * offset * offset;
    }
  }

  /** Without offsets each curvature gets one curve: the unshifted parabola
      over the x axis. */
  lemma DefaultOffset(axisX: seq<real>, axisY: seq<real>, etas: seq<real>)
    requires |axisX| > 0 && |axisY| > 0
    ensures ParabolaCurves(axisX, axisY, etas, None).Ok?
    ensures var r := ParabolaCurves(axisX, axisY, etas, None).value;
      && |r| == |etas|
      && (forall e :: 0 <= e < |etas| ==> |r[e]| == 1 && r[e][0].plotX == axisX && |r[e][0].parab| == |axisX|)
      && (forall e, i :: 0 <= e < |etas| && 0 <= i < |axisX| ==> r[e][0].parab[i] == Parabola(etas[e], axisX[i]))
  {
    var r: seq<seq<Curve>> := ParabolaCurves(axisX, axisY, etas, None).value;
    forall e | 0 <= e < |etas|
      ensures |r[e]| == 1 && r[e][0].plotX == axisX && |r[e][0].parab| == |axisX|
      ensures forall i :: 0 <= i < |axisX| ==> r[e][0].parab[i] == Parabola(etas[e], axisX[i])
    {
      assert r[e][0] == CurveOf(etas[e], 0.0, axisX);
      assert Parabola(etas[e], 0.0) == 0.0;
    }
  }

  /** overplot_parabolas: for each curvature and each offset, the shifted x list
      and the parabola list built point by point, then the axis limits. */
  method OverplotParabolas(axisX: seq<real>, axisY: seq<real>, etas: seq<real>, offsets: Option<seq<real>>)
    returns (r: Result<seq<seq<Curve>>>)
    ensures r == ParabolaCurves(axisX, axisY, etas, offsets)
  {
    var offs := if offsets.Some? then offsets.value else [0.0];
    var drawn: seq<seq<Curve>> := [];
    for e := 0 to |etas|
      invariant |drawn| == e
      invariant forall e' :: 0 <= e' < e ==> drawn[e'] == seq(|offs|, o requires 0 <= o < |offs| => CurveOf(etas[e'], offs[o], axisX))
      invariant e > 0 && |offs| > 0 ==> |axisX| > 0 && |axisY| > 0
    {
      var row: seq<Curve> := [];
      for o := 0 to |offs|
        invariant |row| == o
        invariant forall o' :: 0 <= o' < o ==> row[o'] == CurveOf(etas[e], offs[o'], axisX)
        invariant o > 0 ==> |axisX| > 0 && |axisY| > 0
      {
        var eta, offset := etas[e], offs[o];
        var plotX := seq(|axisX|, i requires 0 <= i < |axisX| => axisX[i] + offset);
        var parab: seq<real> := [];
        for j := 0 to |axisX|
          invariant |parab| == j
          invariant forall i :: 0 <= i < j ==> parab[i] == Parabola(eta, axisX[i]) - Parabola(eta, offset)
        {
          var x := axisX[j];
          parab := parab + [eta * x * x - eta * offset * offset];
        }
        assert Curve(plotX, parab) == CurveOf(eta, offset, axisX);
        row := row + [Curve(plotX, parab)];
        if |axisX| == 0 || |axisY| == 0 {
          return Err(ValueError);
        }
      }
      assert row == seq(|offs|, o requires 0 <= o < |offs| => CurveOf(etas[e], offs[o], axisX));
      drawn := drawn + [row];
    }
    assert drawn == ParabolaCurves(axisX, axisY, etas, offsets).value;
    return Ok(drawn);
  }

  // ------------------------------------------------------------------
  // __give_eta_list

  /** The module-level `__give_eta_list`: its body is that of the search's
      eta list, so it gives the same list, or raises the same exception. */
  function GiveEtaList(sqrt: real -> real, etaRange: (real, real), numEtas: int): (r: Result<seq<real>>)
    requires numEtas != 1 ==> Min2(etaRange) >= 0.0
    requires numEtas != 1 && Min2(etaRange) > 0.0 ==>
               sqrt(1.0 / Min2(etaRange)) > 0.0 && sqrt(1.0 / Max2(etaRange)) > 0.0
    ensures numEtas == 1 ==> r == Ok([(etaRange.0 + etaRange.1) / 2.0])
    ensures numEtas != 1 && Min2(etaRange) == 0.0 ==> r == Err(ZeroDivisionError)
    ensures numEtas < 0 && Min2(etaRange) > 0.0 ==> r == Err(ValueError)
    ensures r.Ok? && numEtas != 1 ==> |r.value| == numEtas && forall i :: 0 <= i < numEtas ==> r.value[i] > 0.0
  {
    EtaList(sqrt, etaRange, numEtas)
  }
}
