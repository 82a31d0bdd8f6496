// The query side of pulsarpkg_frontend.py: the attribute dict that
// create_attr_dict hands to DB.extract, the output-column table `outp` that
// main builds, and the header line and rule line main prints above the rows.

module Frontend {
  import opened PyCore
  import opened PyStr
  import opened PyDict

  /** The parsed command line, as far as a query reads it. An empty string or
      list is an argument that was not given (Python's falsy value); `files` is
      the `-f` switch for local files. */
  datatype Args = Args(
    filename: string, pulsar: string, mjd: string, freq: string,
    attr: seq<string>, attrValue: seq<string>,
    files: bool)

  /** A command-line value as the dict sees it: absent when falsy. */
  function Given(s: string): Option<string>
  {
    if s == "" then None else Some(s)
  }

  // ------------------------------------------------------------------
  // create_attr_dict

  /** `if v: d[k] = v`, for a key d does not hold yet. */
  function PutGiven(d: Dict<string, string>, k: string, v: string): Dict<string, string>
  {
    if v != "" then d + [(k, v)] else d
  }

  /** The search fields given on the command line, under their column names,
      in the order create_attr_dict stores them. */
  function FieldAttrs(args: Args): Dict<string, string>
  {
    PutGiven(PutGiven(PutGiven(PutGiven([], "filename", args.filename),
      "SOURCE", args.pulsar), "MJD", args.mjd), "FREQ", args.freq)
  }

  /** Storing a given value under a fresh key adds exactly that key. */
  lemma PutGivenGet(d: Dict<string, string>, k: string, v: string)
    requires DistinctKeys(d) && Get(d, k) == None
    ensures DistinctKeys(PutGiven(d, k, v))
    ensures Get(PutGiven(d, k, v), k) == Given(v)
    ensures forall k' :: k' != k ==> Get(PutGiven(d, k, v), k') == Get(d, k')
  {
    if v != "" {
      var r := d + [(k, v)];
      assert r[..|d|] == d;
      forall i | 0 <= i < |d|
        ensures d[i].0 != k
      {
        assert Keys(d)[i] == d[i].0;
      }
    }
  }

  /** The dicts after each of the four field assignments hold distinct keys and
      none of the keys still to come. */
  lemma FieldSteps(args: Args)
    ensures var d1 := PutGiven([], "filename", args.filename);
            var d2 := PutGiven(d1, "SOURCE", args.pulsar);
            var d3 := PutGiven(d2, "MJD", args.mjd);
            && DistinctKeys(d1) && Get(d1, "SOURCE") == None && Get(d1, "MJD") == None && Get(d1, "FREQ") == None
            && DistinctKeys(d2) && Get(d2, "MJD") == None && Get(d2, "FREQ") == None
            && DistinctKeys(d3) && Get(d3, "FREQ") == None
  {
    var d1 := PutGiven([], "filename", args.filename);
    var d2 := PutGiven(d1, "SOURCE", args.pulsar);
    PutGivenFresh([], "filename", args.filename, ["SOURCE", "MJD", "FREQ"]);
    PutGivenFresh(d1, "SOURCE", args.pulsar, ["MJD", "FREQ"]);
    PutGivenFresh(d2, "MJD", args.mjd, ["FREQ"]);
  }

  lemma PutGivenFresh(d: Dict<string, string>, k: string, v: string, later: seq<string>)
    requires DistinctKeys(d) && Get(d, k) == None && k !in later
    requires forall x :: x in later ==> Get(d, x) == None
    ensures DistinctKeys(PutGiven(d, k, v))
    ensures forall x :: x in later ==> Get(PutGiven(d, k, v), x) == None
  {
    PutGivenGet(d, k, v);
  }

  /** filename, pulsar, mjd and freq appear as "filename", "SOURCE", "MJD" and
      "FREQ" exactly when given, and nothing else is in the dict. */
  lemma FieldAttrsMeaning(args: Args, k: string)
    ensures DistinctKeys(FieldAttrs(args))
    ensures Get(FieldAttrs(args), k) == FieldValue(args, k)
  {
    var d1 := PutGiven([], "filename", args.filename);
    var d2 := PutGiven(d1, "SOURCE", args.pulsar);
    var d3 := PutGiven(d2, "MJD", args.mjd);
    FieldSteps(args);
    PutGivenGet([], "filename", args.filename);
    PutGivenGet(d1, "SOURCE", args.pulsar);
    PutGivenGet(d2, "MJD", args.mjd);
    PutGivenGet(d3, "FREQ", args.freq);
    if k == "filename" {
      assert Get(FieldAttrs(args), k) == Get(d1, k);
    } else if k == "SOURCE" {
      assert Get(FieldAttrs(args), k) == Get(d2, k);
    } else if k == "MJD" {
      assert Get(FieldAttrs(args), k) == Get(d3, k);
    } else if k != "FREQ" {
      assert Get(FieldAttrs(args), k) == Get([], k);
    }
  }

  /** The value create_attr_dict stores under k for the search fields. */
  function FieldValue(args: Args, k: string): Option<string>
  {
    if k == "filename" then Given(args.filename)
    else if k == "SOURCE" then Given(args.pulsar)
    else if k == "MJD" then Given(args.mjd)
    else if k == "FREQ" then Given(args.freq)
    else None
  }

  /** The pairs `zip(attr, attr_value)` yields: as many as the shorter list. */
  function ZipPairs(attr: seq<string>, values: seq<string>): (r: Dict<string, string>)
    ensures |r| == if |attr| <= |values| then |attr| else |values|
    ensures forall i :: 0 <= i < |r| ==> r[i] == (attr[i], values[i])
  {
    var n := if |attr| <= |values| then |attr| else |values|;
    seq(n, i requires 0 <= i < n => (attr[i], values[i]))
  }

  /** `for a, v in pairs: d[a] = v`. */
  function PutAll(d: Dict<string, string>, pairs: Dict<string, string>): (r: Dict<string, string>)
    requires DistinctKeys(d)
    ensures DistinctKeys(r)
  {
    if |pairs| == 0 then d
    else Put(PutAll(d, pairs[..|pairs| - 1]), pairs[|pairs| - 1].0, pairs[|pairs| - 1].1)
  }

  /** After the loop a key holds the value of its last pair, so later duplicates
      overwrite earlier ones; a key without a pair keeps its value. (`Get` on the
      pair list reads it from the end, which is exactly the last pair.) */
  lemma {:induction false} PutAllGet(d: Dict<string, string>, pairs: Dict<string, string>, k: string)
    requires DistinctKeys(d)
    ensures Get(PutAll(d, pairs), k) == if k in Keys(pairs) then Get(pairs, k) else Get(d, k)
  {
    if |pairs| > 0 {
      var init := pairs[..|pairs| - 1];
      PutAllGet(d, init, k);
      PutAllLast(d, pairs, k);
      KeysLast(pairs, k);
    }
  }

  lemma PutAllLast(d: Dict<string, string>, pairs: Dict<string, string>, k: string)
    requires DistinctKeys(d) && |pairs| > 0
    ensures Get(PutAll(d, pairs), k) ==
      if pairs[|pairs| - 1].0 == k then Some(pairs[|pairs| - 1].1) else Get(PutAll(d, pairs[..|pairs| - 1]), k)
  {
  }

  lemma KeysLast(pairs: Dict<string, string>, k: string)
    requires |pairs| > 0
    ensures k in Keys(pairs) <==> k in Keys(pairs[..|pairs| - 1]) || k == pairs[|pairs| - 1].0
    ensures Get(pairs, k) == if pairs[|pairs| - 1].0 == k then Some(pairs[|pairs| - 1].1) else Get(pairs[..|pairs| - 1], k)
  {
    assert Keys(pairs)[..|pairs| - 1] == Keys(pairs[..|pairs| - 1]);
    InLast(Keys(pairs), k);
  }

  /** The attribute dict create_attr_dict is evidently meant to return: the given
      search fields, then every `zip(attr, attr_value)` pair when both lists are given. */
  function AttrDict(args: Args): Dict<string, string>
  {
    FieldAttrsMeaning(args, "");
    if |args.attr| > 0 && |args.attrValue| > 0 then PutAll(FieldAttrs(args), ZipPairs(args.attr, args.attrValue))
    else FieldAttrs(args)
  }

  /** The attribute dict holds each search field when given and each zipped pair's
      last value, and nothing else. */
  lemma AttrDictMeaning(args: Args, k: string)
    ensures DistinctKeys(AttrDict(args))
    ensures var pairs := ZipPairs(args.attr, args.attrValue);
      Get(AttrDict(args), k) ==
        if k in Keys(pairs) then Get(pairs, k) else FieldValue(args, k)
  {
    FieldAttrsMeaning(args, k);
    if |args.attr| > 0 && |args.attrValue| > 0 {
      PutAllGet(FieldAttrs(args), ZipPairs(args.attr, args.attrValue), k);
    }
  }

  /** The output columns after create_attr_dict as evidently meant: every zipped
      attribute that is no column yet is appended with the standard width. */
  function Widen(widths: Dict<string, nat>, attrs: seq<string>, stdlength: nat): (r: Dict<string, nat>)
    requires DistinctKeys(widths)
    ensures DistinctKeys(r)
    ensures |r| >= |widths| && r[..|widths|] == widths
  {
    if |attrs| == 0 then widths
    else
      var w := Widen(widths, attrs[..|attrs| - 1], stdlength);
      var a := attrs[|attrs| - 1];
      if a in Keys(w) then w
      else
        assert (w + [(a, stdlength)])[..|widths|] == w[..|widths|];
        Put(w, a, stdlength)
  }

  /** A column keeps its width; a new attribute gets the standard width. */
  lemma {:induction false} WidenGet(widths: Dict<string, nat>, attrs: seq<string>, stdlength: nat, k: string)
    requires DistinctKeys(widths)
    ensures Get(Widen(widths, attrs, stdlength), k) ==
      if k in Keys(widths) then Get(widths, k) else if k in attrs then Some(stdlength) else None
  {
    if |attrs| > 0 {
      var init, a := attrs[..|attrs| - 1], attrs[|attrs| - 1];
      WidenGet(widths, init, stdlength, k);
      InLast(attrs, k);
      var w := Widen(widths, init, stdlength);
      if a !in Keys(w) {
        assert Get(Widen(widths, attrs, stdlength), k) == if k == a then Some(stdlength) else Get(w, k);
      }
    }
  }

  lemma InLast(s: seq<string>, x: string)
    requires |s| > 0
    ensures x in s <==> x in s[..|s| - 1] || x == s[|s| - 1]
  {
    assert s == s[..|s| - 1] + [s[|s| - 1]];
  }

  /** create_attr_dict as written: the first zipped pair looks up `outp['keys']`,
      which raises KeyError when outp has no "keys" column and TypeError (an int
      is not a container) when it has one. */
  function AttrDictAsWritten(args: Args, outp: Dict<string, nat>): Result<Dict<string, string>>
  {
    if |args.attr| > 0 && |args.attrValue| > 0 then
      if "keys" in Keys(outp) then Err(TypeError) else Err(KeyError)
    else Ok(FieldAttrs(args))
  }

  /** The columns main prints, with their widths. */
  function MainColumns(files: bool): Dict<string, nat>
  {
    (if files then [] else [("id", 4)])
      + [("filename", 30), ("ORIGIN", 23), ("MJD", 18), ("FREQ", 12), ("BW", 10)]
  }

  /** With main's columns, any extra attribute makes the query fail with KeyError
      before a single extra attribute is stored; without extra attributes the
      written and the intended dict agree. */
  lemma AsWrittenFails(args: Args)
    ensures |args.attr| > 0 && |args.attrValue| > 0 ==>
      AttrDictAsWritten(args, MainColumns(args.files)) == Err(KeyError)
    ensures !(|args.attr| > 0 && |args.attrValue| > 0) ==>
      AttrDictAsWritten(args, MainColumns(args.files)) == Ok(AttrDict(args))
  {
    MainColumnsDistinct(args.files);
  }

  /** main's column names are distinct, and "keys" is not among them. */
  lemma MainColumnsDistinct(files: bool)
    ensures DistinctKeys(MainColumns(files))
    ensures "keys" !in Keys(MainColumns(files))
  {
    var w := MainColumns(files);
    var names := if files then [] else ["id"];
    var all := names + ["filename", "ORIGIN", "MJD", "FREQ", "BW"];
    assert Keys(w) == all;
  }

  /** The output-column table `outp`. */
  class Columns {
    var widths: Dict<string, nat>

    /** main's `outp`: id (unless local files are listed), then filename, ORIGIN,
        MJD, FREQ and BW. */
    constructor (files: bool)
      ensures widths == MainColumns(files) && DistinctKeys(widths)
    {
      // each `outp[k] = w` below stores a fresh key, so it appends
      var w: Dict<string, nat> := [];
      if !files {
        w := w + [("id", 4)];
      }
      w := w + [("filename", 30)];
      w := w + [("ORIGIN", 23)];
      w := w + [("MJD", 18)];
      w := w + [("FREQ", 12)];
      w := w + [("BW", 10)];
      MainColumnsDistinct(files);
      widths := w;
    }
  }

  /** create_attr_dict with the membership test it evidently intends (`a not in
      outp`): store the given fields and the zipped pairs, and give every new
      attribute an output column of the standard width. */
  method CreateAttrDict(args: Args, outp: Columns, stdlength: nat) returns (attrDict: Dict<string, string>)
    requires DistinctKeys(outp.widths)
    modifies outp
    ensures attrDict == AttrDict(args)
    ensures outp.widths == Widen(old(outp.widths), Keys(ZipPairs(args.attr, args.attrValue)), stdlength)
  {
    ghost var start := outp.widths;
    // the four keys below are distinct, so each `attr_dict[k] = v` appends
    attrDict := [];
    if args.filename != "" {
      attrDict := attrDict + [("filename", args.filename)];
    }
    if args.pulsar != "" {
      attrDict := attrDict + [("SOURCE", args.pulsar)];
    }
    if args.mjd != "" {
      attrDict := attrDict + [("MJD", args.mjd)];
    }
    if args.freq != "" {
      attrDict := attrDict + [("FREQ", args.freq)];
    }
    FieldAttrsMeaning(args, "");
    var pairs := ZipPairs(args.attr, args.attrValue);
    if |args.attr| > 0 && |args.attrValue| > 0 {
      ghost var fields := attrDict;
      for i := 0 to |pairs|
        invariant attrDict == PutAll(fields, pairs[..i])
        invariant outp.widths == Widen(start, Keys(pairs[..i]), stdlength)
      {
        PairStep(fields, start, pairs, i, stdlength);
        var (a, v) := pairs[i];
        attrDict := Put(attrDict, a, v);
        if a !in Keys(outp.widths) {
          outp.widths := Put(outp.widths, a, stdlength);
        }
      }
      assert pairs[..|pairs|] == pairs;
    }
  }

  /** One round of the zip loop: store the pair, widen by its attribute. */
  lemma PairStep(fields: Dict<string, string>, start: Dict<string, nat>, pairs: Dict<string, string>, i: nat, stdlength: nat)
    requires i < |pairs| && DistinctKeys(fields) && DistinctKeys(start)
    ensures PutAll(fields, pairs[..i + 1]) == Put(PutAll(fields, pairs[..i]), pairs[i].0, pairs[i].1)
    ensures var w := Widen(start, Keys(pairs[..i]), stdlength);
      Widen(start, Keys(pairs[..i + 1]), stdlength) == if pairs[i].0 in Keys(w) then w else Put(w, pairs[i].0, stdlength)
  {
    assert pairs[..i + 1][..i] == pairs[..i];
    assert Keys(pairs[..i + 1])[..i] == Keys(pairs[..i]);
  }

  // ------------------------------------------------------------------
  // The header line and rule line of main

  /** `' {0:{1}} |'.format(key, width)` for every column. */
  function HeaderCells(widths: Dict<string, nat>): string
  {
    if |widths| == 0 then ""
    else
      var (key, width) := widths[|widths| - 1];
      HeaderCells(widths[..|widths| - 1]) + " " + PadRight(key, width) + " |"
  }

  /** `'-'*(width+2) + '|'` for every column. */
  function RuleCells(widths: Dict<string, nat>): string
  {
    if |widths| == 0 then ""
    else RuleCells(widths[..|widths| - 1]) + Repeat("-", widths[|widths| - 1].1 + 2) + "|"
  }

  /** The header line: the cells without the final " |". */
  function HeaderText(widths: Dict<string, nat>): string
  {
    DropLast(HeaderCells(widths), 2)
  }

  /** The rule line: the cells without the final "|". */
  function RuleLine(widths: Dict<string, nat>): string
  {
    DropLast(RuleCells(widths), 1)
  }

  /** The loop of main that prints the header above the rows. */
  method HeaderLines(outp: Columns) returns (text: string, hline: string)
    ensures text == HeaderText(outp.widths) && hline == RuleLine(outp.widths)
  {
    text, hline := "", "";
    for i := 0 to |outp.widths|
      invariant text == HeaderCells(outp.widths[..i])
      invariant hline == RuleCells(outp.widths[..i])
    {
      assert outp.widths[..i + 1][..i] == outp.widths[..i];
      var (key, value) := outp.widths[i];
      text := text + " " + PadRight(key, value) + " |";
      hline := hline + Repeat("-", value + 2) + "|";
    }
    assert outp.widths[..|outp.widths|] == outp.widths;
    text := DropLast(text, 2);
    hline := DropLast(hline, 1);
  }

  /** The dashes of each column. */
  function Dashes(widths: Dict<string, nat>): (r: seq<string>)
    ensures |r| == |widths|
  {
    seq(|widths|, i requires 0 <= i < |widths| => Repeat("-", widths[i].1 + 2))
  }

  /** Each key padded to its width. */
  function Pads(widths: Dict<string, nat>): (r: seq<string>)
    ensures |r| == |widths|
  {
    seq(|widths|, i requires 0 <= i < |widths| => PadRight(widths[i].0, widths[i].1))
  }

  /** Σ (width + 3): the characters each column takes with its two spaces and bar. */
  function RuleWidth(widths: Dict<string, nat>): nat
  {
    if |widths| == 0 then 0 else RuleWidth(widths[..|widths| - 1]) + widths[|widths| - 1].1 + 3
  }

  lemma {:induction false} RuleCellsJoin(widths: Dict<string, nat>)
    requires |widths| > 0
    ensures RuleCells(widths) == Join("|", Dashes(widths)) + "|"
    ensures |RuleCells(widths)| == RuleWidth(widths)
  {
    var init := widths[..|widths| - 1];
    if |init| > 0 {
      RuleCellsJoin(init);
      assert Dashes(widths)[..|widths| - 1] == Dashes(init);
    }
  }

  /** The rule line is the dash runs joined by "|", Σ (width + 3) − 1 characters long. */
  lemma RuleLineShape(widths: Dict<string, nat>)
    requires |widths| > 0
    ensures RuleLine(widths) == Join("|", Dashes(widths))
    ensures |RuleLine(widths)| == RuleWidth(widths) - 1
  {
    RuleCellsJoin(widths);
    var j := Join("|", Dashes(widths));
    assert (j + "|")[..|j|] == j;
  }

  lemma {:induction false} HeaderCellsJoin(widths: Dict<string, nat>)
    requires |widths| > 0
    ensures HeaderCells(widths) == " " + Join(" | ", Pads(widths)) + " |"
  {
    var init := widths[..|widths| - 1];
    if |init| > 0 {
      HeaderCellsJoin(init);
      assert Pads(widths)[..|widths| - 1] == Pads(init);
      var j := Join(" | ", Pads(init));
      var p := PadRight(widths[|widths| - 1].0, widths[|widths| - 1].1);
      Regroup(j, p);
      assert Join(" | ", Pads(widths)) == j + " | " + p;
    } else {
      assert init == [];
    }
  }

  lemma Regroup(j: string, p: string)
    ensures " " + j + " |" + " " + p + " |" == " " + (j + " | " + p) + " |"
  {
    assert " |" + " " == " | ";
  }

  /** The header line is a space and the padded keys joined by " | ". */
  lemma HeaderTextShape(widths: Dict<string, nat>)
    requires |widths| > 0
    ensures HeaderText(widths) == " " + Join(" | ", Pads(widths))
  {
    HeaderCellsJoin(widths);
    var t := " " + Join(" | ", Pads(widths));
    assert (t + " |")[..|t|] == t;
  }

  lemma {:induction false} HeaderCellsLength(widths: Dict<string, nat>)
    requires forall i :: 0 <= i < |widths| ==> |widths[i].0| <= widths[i].1
    ensures |HeaderCells(widths)| == RuleWidth(widths)
  {
    if |widths| > 0 {
      HeaderCellsLength(widths[..|widths| - 1]);
    }
  }

  /** When every key fits its width the header line is one character shorter
      than the rule line: the rule drops "|", the header drops " |". */
  lemma HeaderFitsRule(widths: Dict<string, nat>)
    requires |widths| > 0
    requires forall i :: 0 <= i < |widths| ==> |widths[i].0| <= widths[i].1
    ensures |HeaderText(widths)| + 1 == |RuleLine(widths)|
  {
    HeaderCellsLength(widths);
    RuleCellsJoin(widths);
  }
}
