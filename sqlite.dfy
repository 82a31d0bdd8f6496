// The command builders of fitsdb/sqlite.py: the header clean-up of
// Files.fix_header, the column bookkeeping of DB.check_columns, the SELECT of
// DB.extract, the DELETE pair of DB.delete and the INSERT of DB.ingest_data.
// No database is opened: the headers table is represented by its column
// list, and a statement is the command text together with the parameters
// that would be bound to its `?` placeholders.

module FitsDb {
  import opened PyCore
  import opened PyStr
  import opened PyDict

  /** A FITS header value: astropy's `Undefined` card, None, or a value shown as text. */
  datatype Card = Undefined | Null | Val(text: string)

  /** A command with the parameters bound to its placeholders. */
  datatype Statement<T> = Statement(command: string, values: seq<T>)

  // ------------------------------------------------------------------
  // Files.fix_header

  lemma GetSnoc<V>(d: Dict<string, V>, e: (string, V), k: string)
    ensures Get(d + [e], k) == if e.0 == k then Some(e.1) else Get(d, k)
  {
    assert (d + [e])[..|d|] == d;
  }

  /** `del d[k]`: the items of d without the one keyed k, in order. */
  function Remove<V>(d: Dict<string, V>, k: string): (r: Dict<string, V>)
    ensures |r| <= |d|
    ensures forall i :: 0 <= i < |r| ==> r[i] in d && r[i].0 != k
  {
    if |d| == 0 then []
    else
      var init := Remove(d[..|d| - 1], k);
      if d[|d| - 1].0 == k then init else init + [d[|d| - 1]]
  }

  lemma {:induction false} RemoveGet<V>(d: Dict<string, V>, k: string, k': string)
    ensures Get(Remove(d, k), k') == if k' == k then None else Get(d, k')
  {
    if k' == k {
      var r := Remove(d, k);
      assert k !in Keys(r) by {
        forall i | 0 <= i < |r| ensures Keys(r)[i] != k {
          assert r[i].0 != k;
        }
      }
    } else {
      RemoveKeeps(d, k, k');
    }
  }

  lemma {:induction false} RemoveKeeps<V>(d: Dict<string, V>, k: string, k': string)
    requires k' != k
    ensures Get(Remove(d, k), k') == Get(d, k')
  {
    if |d| > 0 {
      var init, last := d[..|d| - 1], d[|d| - 1];
      assert d == init + [last];
      RemoveKeeps(init, k, k');
      GetSnoc(init, last, k');
      if last.0 == k {
        assert Remove(d, k) == Remove(init, k);
      } else {
        assert Remove(d, k) == Remove(init, k) + [last];
        GetSnoc(Remove(init, k), last, k');
      }
    }
  }

  lemma {:induction false} RemoveAbsent<V>(d: Dict<string, V>, k: string)
    requires k !in Keys(d)
    ensures Remove(d, k) == d
  {
    if |d| > 0 {
      assert Keys(d[..|d| - 1]) == Keys(d)[..|d| - 1];
      RemoveAbsent(d[..|d| - 1], k);
      assert d == d[..|d| - 1] + [d[|d| - 1]];
    }
  }

  lemma {:induction false} RemoveDistinct<V>(d: Dict<string, V>, k: string)
    requires DistinctKeys(d)
    ensures DistinctKeys(Remove(d, k))
  {
    if |d| > 0 {
      var init, last := d[..|d| - 1], d[|d| - 1];
      assert DistinctKeys(init);
      RemoveDistinct(init, k);
      if last.0 != k {
        var r := Remove(init, k);
        forall i | 0 <= i < |r|
          ensures r[i].0 != last.0
        {
          assert r[i] in init;
        }
      }
    }
  }

  /** Undefined becomes None; every other value stays. */
  function FixCard(c: Card): (r: Card)
    ensures !r.Undefined?
    ensures !c.Undefined? ==> r == c
  {
    if c.Undefined? then Null else c
  }

  function FixOption(o: Option<Card>): Option<Card>
  {
    match o
    case None => None
    case Some(c) => Some(FixCard(c))
  }

  /** The header fix_header returns: no `''` key, no Undefined value. */
  function FixedHeader(header: Dict<string, Card>): (r: Dict<string, Card>)
    ensures |r| <= |header|
  {
    var kept := Remove(header, "");
    seq(|kept|, i requires 0 <= i < |kept| => (kept[i].0, FixCard(kept[i].1)))
  }

  lemma {:induction false} FixValuesGet(d: Dict<string, Card>, k: string)
    ensures var f := seq(|d|, i requires 0 <= i < |d| => (d[i].0, FixCard(d[i].1)));
            Get(f, k) == FixOption(Get(d, k))
  {
    var f := seq(|d|, i requires 0 <= i < |d| => (d[i].0, FixCard(d[i].1)));
    if |d| > 0 {
      var init := d[..|d| - 1];
      FixValuesGet(init, k);
      assert f[..|f| - 1] == seq(|init|, i requires 0 <= i < |init| => (init[i].0, FixCard(init[i].1)));
    }
  }

  /** `fix_header` edits the dict in place; the model returns the edited dict. */
  method FixHeader(header: Dict<string, Card>) returns (fixed: Dict<string, Card>)
    ensures fixed == FixedHeader(header)
  {
    fixed := header;
    if "" in Keys(fixed) {
      fixed := Remove(fixed, "");
    } else {
      RemoveAbsent(fixed, "");
    }
    ghost var kept := fixed;
    for i := 0 to |fixed|
      invariant |fixed| == |kept|
      invariant forall j :: 0 <= j < i ==> fixed[j] == (kept[j].0, FixCard(kept[j].1))
      invariant forall j :: i <= j < |fixed| ==> fixed[j] == kept[j]
    {
      if fixed[i].1.Undefined? {
        fixed := fixed[i := (fixed[i].0, Null)];
      }
    }
  }

  /** The `''` key is gone, no value is Undefined, every other key keeps its value
      (Undefined read as None), and keys stay distinct. */
  lemma FixHeaderMeaning(header: Dict<string, Card>)
    requires DistinctKeys(header)
    ensures var r := FixedHeader(header);
            && DistinctKeys(r)
            && Get(r, "") == None
            && (forall i :: 0 <= i < |r| ==> !r[i].1.Undefined?)
            && (forall k :: k != "" ==> Get(r, k) == FixOption(Get(header, k)))
  {
    var kept := Remove(header, "");
    RemoveDistinct(header, "");
    forall k
      ensures Get(FixedHeader(header), k) == FixOption(Get(kept, k))
      ensures k != "" ==> Get(kept, k) == Get(header, k)
      ensures k == "" ==> Get(kept, k) == None
    {
      FixValuesGet(kept, k);
      RemoveGet(header, "", k);
    }
  }

  // ------------------------------------------------------------------
  // DB.check_columns

  /** The column list after check_columns: each header that is neither empty
      nor already a column is appended, in order. */
  function AddColumns(columns: seq<string>, headers: seq<string>): (r: seq<string>)
    ensures |r| >= |columns| && r[..|columns|] == columns
    ensures forall h :: h in headers && h != "" ==> h in r
    ensures forall c :: c in r ==> c in columns || (c in headers && c != "")
  {
    if |headers| == 0 then columns
    else
      var init := AddColumns(columns, headers[..|headers| - 1]);
      var h := headers[|headers| - 1];
      assert headers == headers[..|headers| - 1] + [h];
      if h !in init && h != "" then init + [h] else init
  }

  /** Headers that are all columns already (or empty) add nothing. */
  lemma {:induction false} AddColumnsPresent(columns: seq<string>, headers: seq<string>)
    requires forall h :: h in headers && h != "" ==> h in columns
    ensures AddColumns(columns, headers) == columns
  {
    if |headers| > 0 {
      assert forall h :: h in headers[..|headers| - 1] ==> h in headers;
      AddColumnsPresent(columns, headers[..|headers| - 1]);
    }
  }

  /** A second check_columns with the same headers adds no column. */
  lemma AddColumnsIdempotent(columns: seq<string>, headers: seq<string>)
    ensures AddColumns(AddColumns(columns, headers), headers) == AddColumns(columns, headers)
  {
    AddColumnsPresent(AddColumns(columns, headers), headers);
  }

  predicate Distinct(s: seq<string>)
  {
    forall i, j :: 0 <= i < j < |s| ==> s[i] != s[j]
  }

  /** A column is never added twice. */
  lemma {:induction false} AddColumnsDistinct(columns: seq<string>, headers: seq<string>)
    requires Distinct(columns)
    ensures Distinct(AddColumns(columns, headers))
  {
    if |headers| > 0 {
      AddColumnsDistinct(columns, headers[..|headers| - 1]);
    }
  }

  // ------------------------------------------------------------------
  // DB.extract

  const SelectAll := "SELECT * FROM headers " + "JOIN astrodata " + "ON headers.id = " + "astrodata.headers_id"

  /** '`a` >= ? AND `a` <= ? AND ' */
  function RangeClause(attribute: string): string
  {
    "`" + attribute + "` >= " + "?" + " AND `" + attribute + "` <= " + "?" + " AND "
  }

  /** 'a LIKE ? AND ' */
  function LikeClause(attribute: string): string
  {
    attribute + " LIKE " + "?" + " AND "
  }

  /** An item extract refuses: an attribute that is no column (NameError), or an
      attribute other than MJD and FREQ whose value splits into neither one
      nor two tokens (ValueError). */
  predicate Refused(columns: seq<string>, item: (string, string))
  {
    || item.0 !in columns
    || (item.0 != "MJD" && item.0 != "FREQ" && |Split(item.1, ' ')| != 1 && |Split(item.1, ' ')| != 2)
  }

  function RefusalError(columns: seq<string>, item: (string, string)): PyError
  {
    if item.0 !in columns then NameError else ValueError
  }

  /** What one (attribute, value) item appends to the command and the parameters. */
  function Clause(columns: seq<string>, attribute: string, value: string): (r: Result<Statement<string>>)
    ensures r.Err? <==> Refused(columns, (attribute, value))
    ensures r.Err? ==> r.error == RefusalError(columns, (attribute, value))
  {
    if attribute !in columns then Err(NameError)
    else if attribute == "MJD" then Ok(Statement(RangeClause("MJD"), Split(value, ' ')))
    else if attribute == "FREQ" then Ok(Statement(RangeClause("FREQ"), Split(value, ' ')))
    else
      var split := Split(value, ' ');
      if |split| == 2 then Ok(Statement(RangeClause(attribute), split))
      else if |split| == 1 then Ok(Statement(LikeClause(attribute), ["%" + value + "%"]))
      else Err(ValueError)
  }

  /** The clauses of the items in order, stopping at the first refused one. */
  function Clauses(columns: seq<string>, items: Dict<string, string>): Result<Statement<string>>
  {
    if |items| == 0 then Ok(Statement("", []))
    else
      match Clauses(columns, items[..|items| - 1])
      case Err(e) => Err(e)
      case Ok(q) =>
        match Clause(columns, items[|items| - 1].0, items[|items| - 1].1)
        case Err(e) => Err(e)
        case Ok(c) => Ok(Statement(q.command + c.command, q.values + c.values))
  }

  /** The statement extract executes, or the exception it raises. */
  function ExtractQuery(columns: seq<string>, attributes: Dict<string, string>): Result<Statement<string>>
  {
    if |attributes| == 0 then Ok(Statement(SelectAll, []))
    else
      match Clauses(columns, attributes)
      case Err(e) => Err(e)
      case Ok(q) => Ok(Statement(DropLast(SelectAll + " WHERE " + q.command, 4), q.values))
  }

  lemma {:induction false} ClausesErrStays(columns: seq<string>, items: Dict<string, string>, n: nat)
    requires n <= |items| && Clauses(columns, items[..n]).Err?
    ensures Clauses(columns, items) == Clauses(columns, items[..n])
    decreases |items|
  {
    if n < |items| {
      assert items[..|items| - 1][..n] == items[..n];
      ClausesErrStays(columns, items[..|items| - 1], n);
    } else {
      assert items[..n] == items;
    }
  }

  /** extract fails exactly when some item is refused; the first refused item
      decides the exception. */
  lemma {:induction false} ClausesOutcome(columns: seq<string>, items: Dict<string, string>)
    ensures Clauses(columns, items).Err? <==> exists i :: 0 <= i < |items| && Refused(columns, items[i])
    ensures Clauses(columns, items).Err? ==>
      exists i :: 0 <= i < |items| && Refused(columns, items[i])
        && (forall j :: 0 <= j < i ==> !Refused(columns, items[j]))
        && Clauses(columns, items).error == RefusalError(columns, items[i])
  {
    if |items| > 0 {
      var init, last := items[..|items| - 1], items[|items| - 1];
      ClausesOutcome(columns, init);
      assert forall i :: 0 <= i < |init| ==> init[i] == items[i];
      if Clauses(columns, init).Err? {
        var i :| 0 <= i < |init| && Refused(columns, init[i])
          && (forall j :: 0 <= j < i ==> !Refused(columns, init[j]))
          && Clauses(columns, init).error == RefusalError(columns, init[i]);
        assert Refused(columns, items[i]);
      } else if Refused(columns, last) {
        assert Refused(columns, items[|items| - 1]);
      } else {
        forall i | 0 <= i < |items|
          ensures !Refused(columns, items[i])
        {
          if i < |init| {
            assert items[i] == init[i];
          }
        }
      }
    }
  }

  /** Every successful clause list ends with ' AND '. */
  lemma ClausesEnd(columns: seq<string>, items: Dict<string, string>)
    requires |items| > 0 && Clauses(columns, items).Ok?
    ensures var cmd := Clauses(columns, items).value.command;
            |cmd| >= 5 && cmd[|cmd| - 5..] == " AND "
  {
    var init := items[..|items| - 1];
    var q := Clauses(columns, init).value;
    var c := Clause(columns, items[|items| - 1].0, items[|items| - 1].1).value;
    var cmd := q.command + c.command;
    assert c.command[|c.command| - 5..] == " AND ";
    assert cmd[|cmd| - 5..] == c.command[|c.command| - 5..];
  }

  /** extract's outcome: it fails exactly when some attribute is refused, the
      first refused one deciding NameError or ValueError; an empty dict selects
      everything with no parameter. */
  lemma ExtractOutcome(columns: seq<string>, attributes: Dict<string, string>)
    ensures ExtractQuery(columns, attributes).Err? <==>
      exists i :: 0 <= i < |attributes| && Refused(columns, attributes[i])
    ensures ExtractQuery(columns, attributes).Err? ==>
      exists i :: 0 <= i < |attributes| && Refused(columns, attributes[i])
        && (forall j :: 0 <= j < i ==> !Refused(columns, attributes[j]))
        && ExtractQuery(columns, attributes).error == RefusalError(columns, attributes[i])
    ensures |attributes| == 0 ==> ExtractQuery(columns, attributes) == Ok(Statement(SelectAll, []))
  {
    ClausesOutcome(columns, attributes);
  }

  lemma TrimAnd(s: string)
    requires |s| >= 5 && s[|s| - 5..] == " AND "
    ensures DropLast(s, 4) + "AND " == s
  {
    assert s[|s| - 4..] == "AND ";
    assert s[..|s| - 4] + s[|s| - 4..] == s;
  }

  /** A successful extract with attributes runs the selection, ' WHERE ' and the
      clauses in order with the trailing 'AND ' cut, bound to the clauses' parameters. */
  lemma ExtractCommand(columns: seq<string>, attributes: Dict<string, string>)
    requires |attributes| > 0 && ExtractQuery(columns, attributes).Ok?
    ensures var q := Clauses(columns, attributes).value;
      && ExtractQuery(columns, attributes).value.command + "AND " == SelectAll + " WHERE " + q.command
      && ExtractQuery(columns, attributes).value.values == q.values
  {
    ClausesEnd(columns, attributes);
    var q := Clauses(columns, attributes).value;
    var s := SelectAll + " WHERE " + q.command;
    assert s[|s| - 5..] == q.command[|q.command| - 5..];
    TrimAnd(s);
  }

  /** What extract has built once it has gone through the first n items. */
  ghost predicate BuiltUpTo(columns: seq<string>, items: Dict<string, string>, n: nat,
                            command: string, values: seq<string>)
  {
    && n <= |items|
    && Clauses(columns, items[..n]).Ok?
    && command == SelectAll + " WHERE " + Clauses(columns, items[..n]).value.command
    && values == Clauses(columns, items[..n]).value.values
  }

  lemma ClauseAdded(columns: seq<string>, items: Dict<string, string>, n: nat,
                    command: string, values: seq<string>)
    requires n < |items| && BuiltUpTo(columns, items, n, command, values)
    requires Clause(columns, items[n].0, items[n].1).Ok?
    ensures var c := Clause(columns, items[n].0, items[n].1).value;
            BuiltUpTo(columns, items, n + 1, command + c.command, values + c.values)
  {
    var q := Clauses(columns, items[..n]).value;
    var c := Clause(columns, items[n].0, items[n].1).value;
    var prefix := items[..n + 1];
    assert prefix[..n] == items[..n] && prefix[n] == items[n];
    assert Clauses(columns, prefix) == Ok(Statement(q.command + c.command, q.values + c.values));
    Associative(SelectAll + " WHERE ", q.command, c.command);
  }

  lemma Associative(a: string, b: string, c: string)
    ensures a + (b + c) == a + b + c
  {
  }

  lemma ClauseRefused(columns: seq<string>, items: Dict<string, string>, n: nat,
                      command: string, values: seq<string>)
    requires n < |items| && BuiltUpTo(columns, items, n, command, values)
    requires Clause(columns, items[n].0, items[n].1).Err?
    ensures ExtractQuery(columns, items) == Err(Clause(columns, items[n].0, items[n].1).error)
  {
    assert items[..n + 1][..n] == items[..n];
    ClausesErrStays(columns, items, n + 1);
  }

  /** An item whose `?` placeholders and parameters agree: its attribute name holds
      no `?`, and an MJD or FREQ value is a pair of tokens. */
  predicate Bindable(item: (string, string))
  {
    '?' !in item.0 && ((item.0 == "MJD" || item.0 == "FREQ") ==> |Split(item.1, ' ')| == 2)
  }

  lemma CountOne()
    ensures Count("?", '?') == 1
  {
    assert "?"[..0] == "";
  }

  lemma CountRange(attribute: string)
    requires '?' !in attribute
    ensures Count(RangeClause(attribute), '?') == 2
  {
    CountOne();
    CountAbsent("`", '?');
    CountAbsent("` >= ", '?');
    CountAbsent(" AND `", '?');
    CountAbsent("` <= ", '?');
    CountAbsent(" AND ", '?');
    CountAbsent(attribute, '?');
    CountAppend("`", attribute, '?');
    CountAppend("`" + attribute, "` >= ", '?');
    CountAppend("`" + attribute + "` >= ", "?", '?');
    CountAppend("`" + attribute + "` >= " + "?", " AND `", '?');
    CountAppend("`" + attribute + "` >= " + "?" + " AND `", attribute, '?');
    CountAppend("`" + attribute + "` >= " + "?" + " AND `" + attribute, "` <= ", '?');
    CountAppend("`" + attribute + "` >= " + "?" + " AND `" + attribute + "` <= ", "?", '?');
    CountAppend("`" + attribute + "` >= " + "?" + " AND `" + attribute + "` <= " + "?", " AND ", '?');
  }

  lemma CountLike(attribute: string)
    requires '?' !in attribute
    ensures Count(LikeClause(attribute), '?') == 1
  {
    CountOne();
    CountAbsent(" LIKE ", '?');
    CountAbsent(" AND ", '?');
    CountAbsent(attribute, '?');
    CountAppend(attribute, " LIKE ", '?');
    CountAppend(attribute + " LIKE ", "?", '?');
    CountAppend(attribute + " LIKE " + "?", " AND ", '?');
  }

  lemma ClausePlaceholders(columns: seq<string>, attribute: string, value: string)
    requires Bindable((attribute, value)) && Clause(columns, attribute, value).Ok?
    ensures Count(Clause(columns, attribute, value).value.command, '?')
         == |Clause(columns, attribute, value).value.values|
  {
    if attribute == "MJD" || attribute == "FREQ" || |Split(value, ' ')| == 2 {
      CountRange(attribute);
    } else {
      CountLike(attribute);
    }
  }

  lemma {:induction false} ClausesPlaceholders(columns: seq<string>, items: Dict<string, string>)
    requires forall i :: 0 <= i < |items| ==> Bindable(items[i])
    requires Clauses(columns, items).Ok?
    ensures Count(Clauses(columns, items).value.command, '?') == |Clauses(columns, items).value.values|
  {
    if |items| > 0 {
      var init, last := items[..|items| - 1], items[|items| - 1];
      assert forall i :: 0 <= i < |init| ==> init[i] == items[i];
      ClausesPlaceholders(columns, init);
      assert Bindable(items[|items| - 1]);
      ClausePlaceholders(columns, last.0, last.1);
      CountAppend(Clauses(columns, init).value.command, Clause(columns, last.0, last.1).value.command, '?');
    }
  }

  /** The `?` placeholders of extract's command match its parameters one to one
      whenever every item is bindable. */
  lemma ExtractPlaceholders(columns: seq<string>, attributes: Dict<string, string>)
    requires forall i :: 0 <= i < |attributes| ==> Bindable(attributes[i])
    requires ExtractQuery(columns, attributes).Ok?
    ensures Count(ExtractQuery(columns, attributes).value.command, '?') == |ExtractQuery(columns, attributes).value.values|
  {
    if |attributes| == 0 {
      SelectPlain();
    } else {
      ExtractCommand(columns, attributes);
      ClausesPlaceholders(columns, attributes);
      var q := Clauses(columns, attributes).value;
      var cmd := ExtractQuery(columns, attributes).value.command;
      WherePlain();
      CountAbsent("AND ", '?');
      CountAppend(SelectAll + " WHERE ", q.command, '?');
      CountAppend(cmd, "AND ", '?');
    }
  }

  lemma SelectPlain()
    ensures Count(SelectAll, '?') == 0
  {
    assert '?' !in SelectAll;
    CountAbsent(SelectAll, '?');
  }

  lemma WherePlain()
    ensures Count(SelectAll + " WHERE ", '?') == 0
  {
    SelectPlain();
    CountAbsent(" WHERE ", '?');
    CountAppend(SelectAll, " WHERE ", '?');
  }

  /** An MJD or FREQ item always binds two placeholders but passes every token
      of its value, so a value with other than one space misbinds. */
  lemma RangeTokens(columns: seq<string>, attribute: string, value: string)
    requires attribute in columns && (attribute == "MJD" || attribute == "FREQ")
    ensures Clause(columns, attribute, value).Ok?
    ensures Count(Clause(columns, attribute, value).value.command, '?') == 2
    ensures |Clause(columns, attribute, value).value.values| == Count(value, ' ') + 1
  {
    CountRange(attribute);
  }

  // ------------------------------------------------------------------
  // DB.delete

  const DeleteData := "DELETE FROM astrodata WHERE headers_id = " + "?"
  const DeleteHeaders := "DELETE FROM headers WHERE id = " + "?"
  const OrData := " or headers_id = " + "?"
  const OrHeaders := " or id = " + "?"

  /** The two DELETE commands for n ids, or the ValueError for none. */
  function DeleteCommands(n: nat): Result<(string, string)>
  {
    if n == 0 then Err(ValueError)
    else Ok((DeleteData + Repeat(OrData, n - 1), DeleteHeaders + Repeat(OrHeaders, n - 1)))
  }

  lemma CountOneAfter(prefix: string)
    requires '?' !in prefix
    ensures Count(prefix + "?", '?') == 1
  {
    CountOne();
    CountAbsent(prefix, '?');
    CountAppend(prefix, "?", '?');
  }

  /** The two statements delete executes for the ids, or its ValueError. */
  function DeleteStatements(ids: seq<int>): Result<(Statement<int>, Statement<int>)>
  {
    match DeleteCommands(|ids|)
    case Err(e) => Err(e)
    case Ok(c) => Ok((Statement(c.0, ids), Statement(c.1, ids)))
  }

  /** delete refuses an empty id list; otherwise each of its two commands holds
      exactly one placeholder per id. */
  lemma DeletePlaceholders(ids: seq<int>)
    ensures DeleteStatements(ids).Err? <==> |ids| == 0
    ensures DeleteStatements(ids).Err? ==> DeleteStatements(ids).error == ValueError
    ensures DeleteStatements(ids).Ok? ==>
      && Count(DeleteStatements(ids).value.0.command, '?') == |DeleteStatements(ids).value.0.values|
      && Count(DeleteStatements(ids).value.1.command, '?') == |DeleteStatements(ids).value.1.values|
  {
    var n := |ids|;
    if n > 0 {
      CountOneAfter("DELETE FROM astrodata WHERE headers_id = ");
      CountOneAfter("DELETE FROM headers WHERE id = ");
      CountOneAfter(" or headers_id = ");
      CountOneAfter(" or id = ");
      CountRepeat(OrData, n - 1, '?');
      CountRepeat(OrHeaders, n - 1, '?');
      CountAppend(DeleteData, Repeat(OrData, n - 1), '?');
      CountAppend(DeleteHeaders, Repeat(OrHeaders, n - 1), '?');
    }
  }

  // ------------------------------------------------------------------
  // The INSERT of DB.ingest_data

  /** The columns the INSERT names: filename, keywords, then the header keys. */
  function InsertKeys(header: Dict<string, Card>): (r: seq<string>)
    ensures |r| == |header| + 2
  {
    ["filename", "keywords"] + Keys(header)
  }

  /** 'INSERT INTO headers (`k1`, `k2`, ...`)' */
  function InsertColumns(keys: seq<string>): string
  {
    "INSERT INTO headers (`" + Join("`, `", keys) + "`)"
  }

  /** ' VALUES (?, ?, ..., ?)' with n + 1 placeholders. */
  function InsertMarks(n: nat): string
  {
    " VALUES (" + Repeat("?" + ", ", n) + "?" + ")"
  }

  /** The INSERT for a file not yet in the table. */
  function InsertStatement(header: Dict<string, Card>, basename: string, relpath: string): Statement<Card>
  {
    Statement(
      InsertColumns(InsertKeys(header)) + InsertMarks(|header| - 1 + 2),
      [Val(basename), Val(relpath)] + Values(header))
  }

  lemma {:induction false} JoinAbsent(sep: string, parts: seq<string>, c: char)
    requires c !in sep && forall i :: 0 <= i < |parts| ==> c !in parts[i]
    ensures c !in Join(sep, parts)
  {
    if |parts| > 1 {
      JoinAbsent(sep, parts[..|parts| - 1], c);
    }
  }

  lemma CountColumns(keys: seq<string>)
    requires forall i :: 0 <= i < |keys| ==> '?' !in keys[i]
    ensures Count(InsertColumns(keys), '?') == 0
  {
    JoinAbsent("`, `", keys, '?');
    assert '?' !in InsertColumns(keys);
    CountAbsent(InsertColumns(keys), '?');
  }

  lemma CountMarks(n: nat)
    ensures Count(InsertMarks(n), '?') == n + 1
  {
    var marks := Repeat("?" + ", ", n);
    CountOne();
    CountAbsent(", ", '?');
    CountAppend("?", ", ", '?');
    CountRepeat("?" + ", ", n, '?');
    CountAbsent(" VALUES (", '?');
    CountAbsent(")", '?');
    CountAppend(" VALUES (", marks, '?');
    CountAppend(" VALUES (" + marks, "?", '?');
    CountAppend(" VALUES (" + marks + "?", ")", '?');
  }

  /** The INSERT names filename, keywords and then the header keys, binds the base
      name, the relative path and then the header values in the same order, and
      holds one placeholder per named column, |header| + 2 of each, whenever no
      header key holds a `?`. */
  lemma InsertPlaceholders(header: Dict<string, Card>, basename: string, relpath: string)
    requires forall i :: 0 <= i < |header| ==> '?' !in header[i].0
    ensures var s := InsertStatement(header, basename, relpath);
            && Count(s.command, '?') == |s.values| == |InsertKeys(header)| == |header| + 2
            && InsertKeys(header)[..2] == ["filename", "keywords"]
            && s.values[..2] == [Val(basename), Val(relpath)]
            && forall i :: 0 <= i < |header| ==> (InsertKeys(header)[i + 2], s.values[i + 2]) == header[i]
  {
    var keys := InsertKeys(header);
    forall i | 0 <= i < |keys|
      ensures '?' !in keys[i]
    {
      if i >= 2 {
        assert keys[i] == header[i - 2].0;
      }
    }
    CountColumns(keys);
    CountMarks(|header| + 1);
    CountAppend(InsertColumns(keys), InsertMarks(|header| + 1), '?');
  }

  // ------------------------------------------------------------------
  // The DB object

  class DB {
    /** The columns of the headers table, as get_columns lists them. */
    var columns: seq<string>

    constructor (columns: seq<string>)
      ensures this.columns == columns
    {
      this.columns := columns;
    }

    /** check_columns: an ALTER TABLE, and a new column, for every missing non-empty header. */
    method CheckColumns(headers: seq<string>)
      modifies this
      ensures columns == AddColumns(old(columns), headers)
    {
      ghost var start := columns;
      for i := 0 to |headers|
        invariant columns == AddColumns(start, headers[..i])
      {
        var header := headers[i];
        assert headers[..i + 1][..i] == headers[..i];
        if header !in columns && header != "" {
          columns := columns + [header];
        }
      }
      assert headers[..|headers|] == headers;
    }

    /** extract: the SELECT over the joined tables for the attribute dict. */
    method Extract(attributes: Dict<string, string>) returns (r: Result<Statement<string>>)
      ensures r == ExtractQuery(columns, attributes)
    {
      var command := SelectAll;
      var values: seq<string> := [];
      if |attributes| > 0 {
        command := command + " WHERE ";
        assert attributes[..0] == [];
        for i := 0 to |attributes|
          invariant BuiltUpTo(columns, attributes, i, command, values)
        {
          var (attribute, value) := attributes[i];
          ghost var built, bound := command, values;
          if attribute !in columns {
            ClauseRefused(columns, attributes, i, command, values);
            return Err(NameError);
          }
          if attribute == "MJD" {
            command := command + RangeClause("MJD");
            values := values + Split(value, ' ');
          } else if attribute == "FREQ" {
            command := command + RangeClause("FREQ");
            values := values + Split(value, ' ');
          } else {
            var split := Split(value, ' ');
            if |split| == 2 {
              command := command + RangeClause(attribute);
              values := values + split;
            } else if |split| == 1 {
              command := command + LikeClause(attribute);
              values := values + ["%" + value + "%"];
            } else {
              ClauseRefused(columns, attributes, i, command, values);
              return Err(ValueError);
            }
          }
          ClauseAdded(columns, attributes, i, built, bound);
        }
        assert attributes[..|attributes|] == attributes;
        command := DropLast(command, 4);
      }
      return Ok(Statement(command, values));
    }

    /** The INSERT of ingest_data for a file not yet in the table, built step by step. */
    method InsertCommand(header: Dict<string, Card>, basename: string, relpath: string) returns (s: Statement<Card>)
      ensures s == InsertStatement(header, basename, relpath)
    {
      var keys: seq<string> := [];
      keys := keys + ["filename", "keywords"];
      keys := keys + Keys(header);
      var command := "INSERT INTO headers (`";
      command := command + Join("`, `", keys) + "`)";
      var values: seq<Card> := [];
      values := values + [Val(basename), Val(relpath)];
      values := values + Values(header);
      assert keys == InsertKeys(header);
      assert command == InsertColumns(keys);
      command := command + " VALUES (" + Repeat("?" + ", ", |header| - 1 + 2) + "?" + ")";
      assert command == InsertColumns(keys) + InsertMarks(|header| - 1 + 2);
      return Statement(command, values);
    }

    /** delete: the DELETE from astrodata and the DELETE from headers, both bound to the ids. */
    method Delete(idList: seq<int>) returns (r: Result<(Statement<int>, Statement<int>)>)
      ensures r == DeleteStatements(idList)
    {
      if |idList| == 0 {
        return Err(ValueError);
      }
      var command := DeleteData;
      var command2 := DeleteHeaders;
      for id := 1 to |idList|
        invariant command == DeleteData + Repeat(OrData, id - 1)
        invariant command2 == DeleteHeaders + Repeat(OrHeaders, id - 1)
      {
        command := command + OrData;
        command2 := command2 + OrHeaders;
      }
      return Ok((Statement(command, idList), Statement(command2, idList)));
    }
  }
}
