/** Columns read from SQLite result rows, and the table built from them. */
module SqliteTables {
  import opened Wrappers
  import opened TableColumns
  import opened NullableColumns
  import Tables

  /** A value as SQLite hands it back. */
  datatype SqlValue = Null | Integer(i: I64) | Real(f: real) | Text(t: string) | Blob(b: seq<Byte>)

  /** The entries of a column being read, each possibly NULL. */
  datatype SqliteData =
    | I64s(ints: seq<Option<I64>>)
    | F64s(reals: seq<Option<real>>)
    | Strs(texts: seq<Option<string>>)
    | Blobs(blobs: seq<Option<seq<Byte>>>)

  function DataLen(d: SqliteData): nat
  {
    match d
    case I64s(v) => |v|
    case F64s(v) => |v|
    case Strs(v) => |v|
    case Blobs(v) => |v|
  }

  /** Entry i, seen as the value it was read from. */
  function Entry(d: SqliteData, i: nat): SqlValue
    requires i < DataLen(d)
  {
    match d
    case I64s(v) => if v[i].Some? then Integer(v[i].value) else Null
    case F64s(v) => if v[i].Some? then Real(v[i].value) else Null
    case Strs(v) => if v[i].Some? then Text(v[i].value) else Null
    case Blobs(v) => if v[i].Some? then Blob(v[i].value) else Null
  }

  /** The kind names Display gives. */
  function KindName(d: SqliteData): (r: string)
    ensures r in {"Integer", "Real", "String", "Bytes"}
    ensures r == "Integer" <==> d.I64s?
    ensures r == "Real" <==> d.F64s?
    ensures r == "String" <==> d.Strs?
  {
    match d
    case I64s(_) => "Integer"
    case F64s(_) => "Real"
    case Strs(_) => "String"
    case Blobs(_) => "Bytes"
  }

  /** SqliteColumn::new: an empty column for a declared type name. */
  function NewData(declType: string): (r: Result<SqliteData>)
    ensures r.Ok? <==> declType in {"integer", "int", "INTEGER", "INT", "real", "REAL", "text", "TEXT", "blob", "BLOB"}
    ensures r.Ok? ==> DataLen(r.value) == 0
    ensures r.Ok? ==> (r.value.I64s? <==> declType in {"integer", "int", "INTEGER", "INT"})
    ensures r.Ok? ==> (r.value.F64s? <==> declType in {"real", "REAL"})
    ensures r.Ok? ==> (r.value.Strs? <==> declType in {"text", "TEXT"})
    ensures r.Err? ==> r.msg == "Invalid column type"
  {
    match declType
    case "integer" => Ok(I64s([]))
    case "int" => Ok(I64s([]))
    case "INTEGER" => Ok(I64s([]))
    case "INT" => Ok(I64s([]))
    case "real" => Ok(F64s([]))
    case "REAL" => Ok(F64s([]))
    case "text" => Ok(Strs([]))
    case "TEXT" => Ok(Strs([]))
    case "blob" => Ok(Blobs([]))
    case "BLOB" => Ok(Blobs([]))
    case _ => Err("Invalid column type")
  }

  /** A value fits a column when it is NULL or of the column's kind. */
  predicate Fits(d: SqliteData, v: SqlValue)
  {
    v.Null? || (d.I64s? && v.Integer?) || (d.F64s? && v.Real?) || (d.Strs? && v.Text?) || (d.Blobs? && v.Blob?)
  }

  /** The column with v appended; the caller has checked that v fits. */
  function Push(d: SqliteData, v: SqlValue): (r: SqliteData)
    requires Fits(d, v)
    ensures DataLen(r) == DataLen(d) + 1 && KindName(r) == KindName(d)
    ensures forall i :: 0 <= i < DataLen(d) ==> Entry(r, i) == Entry(d, i)
    ensures Entry(r, DataLen(d)) == v
  {
    match d
    case I64s(xs) => I64s(xs + [if v.Integer? then Some(v.i) else None])
    case F64s(xs) => F64s(xs + [if v.Real? then Some(v.f) else None])
    case Strs(xs) => Strs(xs + [if v.Text? then Some(v.t) else None])
    case Blobs(xs) => Blobs(xs + [if v.Blob? then Some(v.b) else None])
  }

  /** try_append: NULL or a value of the column's kind is appended; any
      other value is refused and the column is left as it was. */
  function Appended(d: SqliteData, v: SqlValue): (r: Result<SqliteData>)
    ensures r.Ok? <==> Fits(d, v)
    ensures r.Ok? ==> (DataLen(r.value) == DataLen(d) + 1 && KindName(r.value) == KindName(d)
      && (forall i :: 0 <= i < DataLen(d) ==> Entry(r.value, i) == Entry(d, i))
      && Entry(r.value, DataLen(d)) == v)
    ensures r.Err? ==> r.msg == "Invalid type"
  {
    if Fits(d, v) then Ok(Push(d, v)) else Err("Invalid type")
  }

  /** append_from_row on the value at position ix of a row: the row is read
      as an optional i64 first (which a NULL satisfies), then as f64, text
      and bytes, and the value is appended only when the first reading that
      succeeds matches the column's kind. */
  function ReadAppended(d: SqliteData, row: seq<SqlValue>, ix: nat): (r: Result<SqliteData>)
    ensures r.Err? ==> r.msg == "Unable to parse value"
  {
    if ix >= |row| then Err("Unable to parse value")
    else
      var v := row[ix];
      if (v.Null? || v.Integer?) then (if d.I64s? then Ok(Push(d, v)) else Err("Unable to parse value"))
      else if Fits(d, v) then Ok(Push(d, v))
      else Err("Unable to parse value")
  }

  /** Where append_from_row succeeds it appends what try_append would; it
      fails on every value try_append refuses and, in addition, on NULL for
      any column that is not an integer column. */
  lemma ReadAppendedAgrees(d: SqliteData, row: seq<SqlValue>, ix: nat)
    requires ix < |row|
    ensures ReadAppended(d, row, ix).Ok? ==> Appended(d, row[ix]) == ReadAppended(d, row, ix)
    ensures ReadAppended(d, row, ix).Ok? <==> Appended(d, row[ix]).Ok? && !(row[ix].Null? && !d.I64s?)
  {
  }

  /** A column of SQLite values that grows as rows are read. */
  class SqliteColumn {
    var data: SqliteData

    constructor(d: SqliteData)
      ensures data == d
    {
      data := d;
    }

    /** try_append */
    method TryAppend(v: SqlValue) returns (r: Result<()>)
      modifies this
      ensures Fits(old(data), v) ==> r == Ok(()) && data == Appended(old(data), v).value
      ensures !Fits(old(data), v) ==> r == Err("Invalid type") && data == old(data)
    {
      var next := Appended(data, v);
      if next.Err? {
        return Err(next.msg);
      }
      data := next.value;
      return Ok(());
    }

    /** append_from_row */
    method AppendFromRow(row: seq<SqlValue>, ix: nat) returns (r: Result<()>)
      modifies this
      ensures ReadAppended(old(data), row, ix).Ok? ==> r == Ok(()) && data == ReadAppended(old(data), row, ix).value
      ensures ReadAppended(old(data), row, ix).Err? ==> r == Err("Unable to parse value") && data == old(data)
    {
      var next := ReadAppended(data, row, ix);
      if next.Err? {
        return Err(next.msg);
      }
      data := next.value;
      return Ok(());
    }
  }

  /** new_from_first_value: the kind of a column is fixed by its first
      value, a NULL giving an integer column. */
  function FirstValue(row: seq<SqlValue>, ix: nat): (r: Result<SqliteData>)
    ensures r.Ok? <==> ix < |row|
    ensures r.Ok? ==> DataLen(r.value) == 1 && Entry(r.value, 0) == row[ix]
    ensures r.Ok? ==> (r.value.I64s? <==> row[ix].Null? || row[ix].Integer?)
    ensures r.Err? ==> r.msg == "Could not parse value"
  {
    if ix >= |row| then Err("Could not parse value")
    else
      match row[ix]
      case Null => Ok(I64s([None]))
      case Integer(i) => Ok(I64s([Some(i)]))
      case Real(f) => Ok(F64s([Some(f)]))
      case Text(t) => Ok(Strs([Some(t)]))
      case Blob(b) => Ok(Blobs([Some(b)]))
  }

  /** From<SqliteColumn> for NullableColumn. */
  function ToNullable(d: SqliteData): (r: NullableColumn)
    ensures r.n == DataLen(d)
  {
    match d
    case I64s(v) => OfOptions(v, (x: seq<I64>) => Int64(x))
    case F64s(v) => OfOptions(v, (x: seq<real>) => Float64(x))
    case Strs(v) => OfOptions(v, (x: seq<string>) => Str(x))
    case Blobs(v) => OfOptions(v, (x: seq<seq<Byte>>) => Bytes(x))
  }

  /** The nullable column keeps the NULLs where they were, and the column
      it becomes is as long as the data read. */
  lemma ToNullableKeepsNulls(d: SqliteData)
    ensures forall i :: 0 <= i < DataLen(d) ==> (i in ToNullable(d).nullIx <==> Entry(d, i).Null?)
    ensures Len(ToColumn(ToNullable(d))) == DataLen(d)
  {
    match d
    case I64s(v) => NullPositionsExact(v); CountSum(v);
    case F64s(v) => NullPositionsExact(v); CountSum(v);
    case Strs(v) => NullPositionsExact(v); CountSum(v);
    case Blobs(v) => NullPositionsExact(v); CountSum(v);
  }

  // ---------------------------------------------------------------------
  // build_table_from_sqlite

  /** The empty columns made from the declared types (a missing type reads
      as "blob"); an unknown type name is an unwrap panic. */
  function EmptyColumns(decls: seq<Option<string>>): (r: Outcome<seq<Column>>)
    ensures r.Returned? <==> forall j :: 0 <= j < |decls| ==> NewData(if decls[j].Some? then decls[j].value else "blob").Ok?
    ensures r.Returned? ==> |r.value| == |decls| && forall j :: 0 <= j < |decls| ==> Len(r.value[j]) == 0
  {
    if |decls| == 0 then Returned([])
    else
      var prev := EmptyColumns(decls[..|decls| - 1]);
      var last := decls[|decls| - 1];
      var d := NewData(if last.Some? then last.value else "blob");
      if prev.Panic? || d.Err? then Panic
      else
        ToNullableKeepsNulls(d.value);
        Returned(prev.value + [ToColumn(ToNullable(d.value))])
  }

  /** The columns typed by the first row. */
  function FirstColumns(row: seq<SqlValue>, n: nat): (r: Result<seq<SqliteData>>)
    ensures r.Ok? <==> n <= |row|
    ensures r.Ok? ==> |r.value| == n && forall j :: 0 <= j < n ==> DataLen(r.value[j]) == 1 && Entry(r.value[j], 0) == row[j]
  {
    if n == 0 then Ok([])
    else
      var prev := FirstColumns(row, n - 1);
      var c := FirstValue(row, n - 1);
      if prev.Err? then prev
      else if c.Err? then Err(c.msg)
      else Ok(prev.value + [c.value])
  }

  /** A later row appended column by column; a value that cannot be
      appended is skipped. */
  function AppendRow(cols: seq<SqliteData>, row: seq<SqlValue>): (r: seq<SqliteData>)
    ensures |r| == |cols|
    ensures forall j :: 0 <= j < |cols| ==> r[j] == (var a := ReadAppended(cols[j], row, j); if a.Ok? then a.value else cols[j])
  {
    seq(|cols|, j requires 0 <= j < |cols| => var a := ReadAppended(cols[j], row, j); if a.Ok? then a.value else cols[j])
  }

  function AppendRows(cols: seq<SqliteData>, rows: seq<seq<SqlValue>>): (r: seq<SqliteData>)
    ensures |r| == |cols|
  {
    if |rows| == 0 then cols else AppendRow(AppendRows(cols, rows[..|rows| - 1]), rows[|rows| - 1])
  }

  function Columnize(cols: seq<SqliteData>): (r: seq<Column>)
    ensures |r| == |cols| && forall j :: 0 <= j < |cols| ==> r[j] == ToColumn(ToNullable(cols[j]))
  {
    seq(|cols|, j requires 0 <= j < |cols| => ToColumn(ToNullable(cols[j])))
  }

  /** build_table_from_sqlite over the declared types, the column names and
      the rows a statement returns (None where rusqlite gives no columns). */
  function BuildSpec(decls: Option<seq<Option<string>>>, colNames: Option<seq<string>>, rows: seq<seq<SqlValue>>): Outcome<Result<Tables.Table>>
  {
    if decls.None? || colNames.None? then Returned(Err("No columns available"))
    else
      var empty := EmptyColumns(decls.value);
      if empty.Panic? then Panic
      else if |colNames.value| == 0 then Returned(Err("No columns available"))
      else if |rows| == 0 then Returned(Tables.NewSpec(colNames.value, empty.value))
      else
        var first := FirstColumns(rows[0], |colNames.value|);
        if first.Err? then Returned(Err(first.msg))
        else
          var cols := AppendRows(first.value, rows[1..]);
          if |cols| == 0 then Returned(Err("Too few columns"))
          else Returned(Tables.NewSpec(colNames.value, Columnize(cols)))
  }

  /** Without names there is no table. */
  lemma BuildNoNames(decls: seq<Option<string>>, rows: seq<seq<SqlValue>>)
    requires EmptyColumns(decls).Returned?
    ensures BuildSpec(Some(decls), Some([]), rows) == Returned(Err("No columns available"))
  {
  }

  /** Without rows the table has the declared columns, all empty. */
  lemma BuildNoRows(decls: seq<Option<string>>, names: seq<string>)
    requires EmptyColumns(decls).Returned? && |names| == |decls| > 0
    ensures BuildSpec(Some(decls), Some(names), []).Returned?
    ensures var r := BuildSpec(Some(decls), Some(names), []).value;
      r.Ok? && r.value.nrows == 0 && r.value.names == names
  {
  }

  /** As written, a NULL after the first row of a text column is dropped,
      so a two-row result becomes a one-row table. */
  lemma BuildDropsLaterNull()
    ensures BuildSpec(Some([Some("TEXT")]), Some(["a"]), [[Text("x")], [Null]]).Returned?
    ensures var r := BuildSpec(Some([Some("TEXT")]), Some(["a"]), [[Text("x")], [Null]]).value;
      r.Ok? && r.value.nrows == 1
  {
    var first := FirstColumns([Text("x")], 1);
    assert FirstColumns([Text("x")], 0) == Ok([]);
    assert FirstValue([Text("x")], 0) == Ok(Strs([Some("x")]));
    assert first == Ok([] + [Strs([Some("x")])]);
    var rows: seq<seq<SqlValue>> := [[Text("x")], [Null]];
    assert rows[1..] == [[Null]];
    assert [[Null]][..0] == [];
    assert ReadAppended(Strs([Some("x")]), [Null], 0).Err?;
    assert AppendRows(first.value, [[Null]]) == [Strs([Some("x")])];
    ToNullableKeepsNulls(Strs([Some("x")]));
  }

  /** The later rows appended with try_append's rule, failing on the first
      value that does not fit. */
  function AppendRowsFixed(cols: seq<SqliteData>, rows: seq<seq<SqlValue>>): (r: Result<seq<SqliteData>>)
    ensures r.Ok? ==> |r.value| == |cols|
  {
    if |rows| == 0 then Ok(cols)
    else
      var prev := AppendRowsFixed(cols, rows[..|rows| - 1]);
      if prev.Err? then prev
      else
        var row := rows[|rows| - 1];
        if exists j :: 0 <= j < |prev.value| && (j >= |row| || !Fits(prev.value[j], row[j])) then Err("Invalid type")
        else Ok(seq(|prev.value|, j requires 0 <= j < |prev.value| => Push(prev.value[j], row[j])))
  }

  /** build_table_from_sqlite as evidently intended: later values are
      appended by try_append and a value that does not fit is an error. */
  function BuildFixed(decls: Option<seq<Option<string>>>, colNames: Option<seq<string>>, rows: seq<seq<SqlValue>>): Outcome<Result<Tables.Table>>
  {
    if decls.None? || colNames.None? then Returned(Err("No columns available"))
    else
      var empty := EmptyColumns(decls.value);
      if empty.Panic? then Panic
      else if |colNames.value| == 0 then Returned(Err("No columns available"))
      else if |rows| == 0 then Returned(Tables.NewSpec(colNames.value, empty.value))
      else
        var first := FirstColumns(rows[0], |colNames.value|);
        if first.Err? then Returned(Err(first.msg))
        else
          var cols := AppendRowsFixed(first.value, rows[1..]);
          if cols.Err? then Returned(Err(cols.msg))
          else if |cols.value| == 0 then Returned(Err("Too few columns"))
          else Returned(Tables.NewSpec(colNames.value, Columnize(cols.value)))
  }

  /** Appending k rows adds one entry per row to every column. */
  lemma {:induction false} AppendRowsFixedLen(cols: seq<SqliteData>, rows: seq<seq<SqlValue>>, m: nat)
    requires forall j :: 0 <= j < |cols| ==> DataLen(cols[j]) == m
    ensures AppendRowsFixed(cols, rows).Ok? ==> forall j :: 0 <= j < |cols| ==> DataLen(AppendRowsFixed(cols, rows).value[j]) == m + |rows|
  {
    if |rows| > 0 {
      AppendRowsFixedLen(cols, rows[..|rows| - 1], m);
      var prev := AppendRowsFixed(cols, rows[..|rows| - 1]);
      var r := AppendRowsFixed(cols, rows);
      if r.Ok? {
        var row := rows[|rows| - 1];
        forall j | 0 <= j < |cols|
          ensures DataLen(r.value[j]) == m + |rows|
        {
          assert r.value[j] == Push(prev.value[j], row[j]);
        }
      }
    }
  }

  /** As intended, a table built from rows holds every row: it is never
      silently shorter than the result. */
  lemma BuildFixedKeepsRows(decls: Option<seq<Option<string>>>, colNames: Option<seq<string>>, rows: seq<seq<SqlValue>>)
    requires |rows| > 0 && decls.Some? && colNames.Some? && |colNames.value| == |decls.value|
    ensures BuildFixed(decls, colNames, rows).Returned? && BuildFixed(decls, colNames, rows).value.Ok? ==>
      BuildFixed(decls, colNames, rows).value.value.nrows == |rows|
  {
    var names := colNames.value;
    var first := FirstColumns(rows[0], |names|);
    if EmptyColumns(decls.value).Returned? && |names| > 0 && first.Ok? {
      AppendRowsFixedLen(first.value, rows[1..], 1);
      var cols := AppendRowsFixed(first.value, rows[1..]);
      if cols.Ok? && |cols.value| > 0 {
        forall j | 0 <= j < |cols.value|
          ensures Len(Columnize(cols.value)[j]) == |rows|
        {
          ToNullableKeepsNulls(cols.value[j]);
        }
      }
    }
  }

  /** As intended, the NULL after the first row is kept. */
  lemma BuildFixedKeepsLaterNull()
    ensures BuildFixed(Some([Some("TEXT")]), Some(["a"]), [[Text("x")], [Null]]).Returned?
    ensures var r := BuildFixed(Some([Some("TEXT")]), Some(["a"]), [[Text("x")], [Null]]).value;
      r.Ok? && r.value.nrows == 2
  {
    var rows: seq<seq<SqlValue>> := [[Text("x")], [Null]];
    var first := FirstColumns([Text("x")], 1);
    assert FirstColumns([Text("x")], 0) == Ok([]);
    assert FirstValue([Text("x")], 0) == Ok(Strs([Some("x")]));
    assert first == Ok([] + [Strs([Some("x")])]);
    assert rows[1..] == [[Null]];
    assert [[Null]][..0] == [];
    assert first.value == [Strs([Some("x")])];
    assert AppendRowsFixed(first.value, [[Null]][..0]) == Ok([Strs([Some("x")])]);
    assert Fits(Strs([Some("x")]), Null);
    assert Push(Strs([Some("x")]), Null) == Strs([Some("x"), None]);
    assert !exists j :: 0 <= j < 1 && (j >= |[Null]| || !Fits([Strs([Some("x")])][j], [Null][j]));
    assert seq(1, j requires 0 <= j < 1 => Push([Strs([Some("x")])][j], [Null][j])) == [Strs([Some("x"), None])];
    assert AppendRowsFixed(first.value, [[Null]]) == Ok([Strs([Some("x"), None])]);
    BuildFixedKeepsRows(Some([Some("TEXT")]), Some(["a"]), rows);
  }

  /** build_table_from_sqlite as written, reading the rows one by one. */
  method BuildTable(decls: Option<seq<Option<string>>>, colNames: Option<seq<string>>, rows: seq<seq<SqlValue>>)
    returns (r: Outcome<Result<Tables.Table>>)
    ensures r == BuildSpec(decls, colNames, rows)
  {
    if decls.None? || colNames.None? {
      return Returned(Err("No columns available"));
    }
    var empty := EmptyColumns(decls.value);
    if empty.Panic? {
      return Panic;
    }
    var names := colNames.value;
    if |names| == 0 {
      return Returned(Err("No columns available"));
    }
    if |rows| == 0 {
      var t := Tables.New(names, empty.value);
      return Returned(t);
    }
    var first := FirstColumns(rows[0], |names|);
    if first.Err? {
      return Returned(Err(first.msg));
    }
    var cols := first.value;
    var later := rows[1..];
    var k := 0;
    while k < |later|
      invariant 0 <= k <= |later|
      invariant cols == AppendRows(first.value, later[..k])
    {
      assert later[..k + 1][..k] == later[..k];
      var row := later[k];
      var next: seq<SqliteData> := [];
      var j := 0;
      while j < |cols|
        invariant 0 <= j <= |cols|
        invariant next == AppendRow(cols, row)[..j]
      {
        var a := ReadAppended(cols[j], row, j);
        next := next + [if a.Ok? then a.value else cols[j]];
        j := j + 1;
      }
      cols := next;
      k := k + 1;
    }
    assert later[..k] == later;
    if |cols| == 0 {
      return Returned(Err("Too few columns"));
    }
    var t := Tables.New(names, Columnize(cols));
    return Returned(t);
  }
}
