/** Tables: named columns of equal length, their typing from CSV text, and
    their text forms (rows, CSV, Markdown, SQL statements). */
module Tables {
  import opened Wrappers
  import opened Strs
  import opened TableColumns

  datatype Format = Csv | Markdown | Html
  datatype Align = Left | Center | Right
  datatype BoolField = Char | CharUpper | Word | WordUpper | Integer
  datatype NullField = NullWord | NullWordUpper | Omit

  datatype TableSettings = TableSettings(
    format: Format, align: Align, boolField: BoolField, nullField: NullField,
    prec: nat, showOnly: Option<seq<string>>)

  /** TableSettings::default */
  const DefaultSettings := TableSettings(Csv, Left, Word, Omit, 8, None)

  datatype Table = Table(names: seq<string>, cols: seq<Column>, nrows: nat, format: TableSettings)

  /** What Table::new guarantees of every table it builds. */
  predicate Valid(t: Table)
  {
    |t.names| == |t.cols| && |t.cols| > 0 && forall j :: 0 <= j < |t.cols| ==> Len(t.cols[j]) == t.nrows
  }

  // ---------------------------------------------------------------------
  // Construction

  /** Table::new: names and columns must pair up, there must be a first
      column, and every other column must be as long as it. */
  function NewSpec(names: seq<string>, cols: seq<Column>): (r: Result<Table>)
    ensures r.Ok? <==> |names| == |cols| && |cols| > 0 && forall j :: 0 <= j < |cols| ==> Len(cols[j]) == Len(cols[0])
    ensures r.Ok? ==> Valid(r.value) && r.value.names == names && r.value.cols == cols
                      && r.value.nrows == Len(cols[0]) && r.value.format == DefaultSettings
    ensures |names| != |cols| ==> r == Err("Differing number of names and columns")
    ensures |names| == |cols| && |cols| == 0 ==> r == Err("No column zero")
  {
    if |names| != |cols| then Err("Differing number of names and columns")
    else if |cols| == 0 then Err("No column zero")
    else if exists j :: 1 <= j < |cols| && Len(cols[j]) != Len(cols[0]) then Err("Number of rows mismatch at table creation")
    else Ok(Table(names, cols, Len(cols[0]), DefaultSettings))
  }

  /** Table::new, checking the columns after the first one by one. */
  method New(names: seq<string>, cols: seq<Column>) returns (r: Result<Table>)
    ensures r == NewSpec(names, cols)
  {
    if |names| != |cols| {
      return Err("Differing number of names and columns");
    }
    if |cols| == 0 {
      return Err("No column zero");
    }
    var nrows := Len(cols[0]);
    var j := 1;
    while j < |cols|
      invariant 1 <= j <= |cols|
      invariant forall i :: 1 <= i < j ==> Len(cols[i]) == nrows
    {
      if Len(cols[j]) != nrows {
        return Err("Number of rows mismatch at table creation");
      }
      j := j + 1;
    }
    return Ok(Table(names, cols, nrows, DefaultSettings));
  }

  /** Every text parses with p. */
  predicate AllParse<T>(values: seq<string>, p: string -> Option<T>)
  {
    forall j :: 0 <= j < |values| ==> p(values[j]).Some?
  }

  function ParsedAll<T>(values: seq<string>, p: string -> Option<T>): (r: seq<T>)
    requires AllParse(values, p)
    ensures |r| == |values| && forall j :: 0 <= j < |values| ==> p(values[j]) == Some(r[j])
  {
    seq(|values|, j requires 0 <= j < |values| => p(values[j]).value)
  }

  /** The type new_from_text gives a column of texts: 64-bit integers when
      every text is one, else floats when every text is one, else strings.
      `parseInt` and `parseFloat` are `str::parse` for i64 and f64. */
  function TypeColumnSpec(values: seq<string>, parseInt: string -> Option<I64>, parseFloat: string -> Option<real>): (r: Column)
    ensures Len(r) == |values|
    ensures r.Int64? <==> AllParse(values, parseInt)
    ensures r.Float64? <==> !AllParse(values, parseInt) && AllParse(values, parseFloat)
    ensures r.Str? <==> !AllParse(values, parseInt) && !AllParse(values, parseFloat)
    ensures r.Str? ==> r.strs == values
  {
    if AllParse(values, parseInt) then Int64(ParsedAll(values, parseInt))
    else if AllParse(values, parseFloat) then Float64(ParsedAll(values, parseFloat))
    else Str(values)
  }

  /** The typing loop of new_from_text for one column: each parse is tried
      only while it has not failed yet. */
  method TypeColumn(values: seq<string>, parseInt: string -> Option<I64>, parseFloat: string -> Option<real>) returns (c: Column)
    ensures c == TypeColumnSpec(values, parseInt, parseFloat)
  {
    var parsedInt: seq<I64> := [];
    var parsedFloat: seq<real> := [];
    var allInt, allFloat := true, true;
    var i := 0;
    while i < |values|
      invariant 0 <= i <= |values|
      invariant allInt <==> AllParse(values[..i], parseInt)
      invariant allFloat <==> AllParse(values[..i], parseFloat)
      invariant allInt ==> parsedInt == ParsedAll(values[..i], parseInt)
      invariant allFloat ==> parsedFloat == ParsedAll(values[..i], parseFloat)
    {
      assert values[..i + 1][..i] == values[..i];
      if allInt {
        var p := parseInt(values[i]);
        if p.Some? {
          parsedInt := parsedInt + [p.value];
        } else {
          allInt := false;
        }
      }
      if allFloat {
        var p := parseFloat(values[i]);
        if p.Some? {
          parsedFloat := parsedFloat + [p.value];
        } else {
          allFloat := false;
        }
      }
      i := i + 1;
    }
    assert values[..i] == values;
    if allInt {
      return Int64(parsedInt);
    } else if allFloat {
      return Float64(parsedFloat);
    }
    return Str(values);
  }

  /** new_from_text on the CSV reader's output (a list of named text
      columns, or a reading error): each column is typed and the table is
      built with Table::new. */
  function NewFromTextSpec(parsed: Result<seq<(string, seq<string>)>>, parseInt: string -> Option<I64>, parseFloat: string -> Option<real>): (r: Result<Table>)
    ensures parsed.Err? ==> r == Err("Could not parse CSV content")
    ensures r.Ok? ==> (parsed.Ok? && |r.value.names| == |parsed.value| && |r.value.cols| == |parsed.value|
      && (forall j :: 0 <= j < |parsed.value| ==>
           r.value.names[j] == parsed.value[j].0
           && r.value.cols[j] == TypeColumnSpec(parsed.value[j].1, parseInt, parseFloat)))
  {
    if parsed.Err? then Err("Could not parse CSV content")
    else
      var cs := parsed.value;
      NewSpec(seq(|cs|, j requires 0 <= j < |cs| => cs[j].0),
              seq(|cs|, j requires 0 <= j < |cs| => TypeColumnSpec(cs[j].1, parseInt, parseFloat)))
  }

  method NewFromText(parsed: Result<seq<(string, seq<string>)>>, parseInt: string -> Option<I64>, parseFloat: string -> Option<real>) returns (r: Result<Table>)
    ensures r == NewFromTextSpec(parsed, parseInt, parseFloat)
  {
    if parsed.Err? {
      return Err("Could not parse CSV content");
    }
    var cs := parsed.value;
    var names: seq<string> := [];
    var cols: seq<Column> := [];
    var i := 0;
    while i < |cs|
      invariant 0 <= i <= |cs|
      invariant names == seq(i, j requires 0 <= j < i => cs[j].0)
      invariant cols == seq(i, j requires 0 <= j < i => TypeColumnSpec(cs[j].1, parseInt, parseFloat))
    {
      var c := TypeColumn(cs[i].1, parseInt, parseFloat);
      cols := cols + [c];
      names := names + [cs[i].0];
      i := i + 1;
    }
    r := New(names, cols);
  }

  // ---------------------------------------------------------------------
  // Text rows

  /** The text of every column, stopping at the first that panics. */
  function DisplayAll(cols: seq<Column>, showReal: real -> string): (r: Outcome<seq<seq<string>>>)
    ensures r.Returned? ==> (|r.value| == |cols|
      && forall j :: 0 <= j < |cols| ==> DisplayContent(cols[j], showReal) == Returned(r.value[j]))
  {
    if |cols| == 0 then Returned([])
    else
      var prev := DisplayAll(cols[..|cols| - 1], showReal);
      var last := DisplayContent(cols[|cols| - 1], showReal);
      if prev.Panic? || last.Panic? then Panic else Returned(prev.value + [last.value])
  }

  /** Record i across the column texts; a column too short for it is an
      out-of-bounds panic. */
  function RowAt(txt: seq<seq<string>>, i: nat): (r: Outcome<seq<string>>)
    ensures r.Returned? <==> forall j :: 0 <= j < |txt| ==> i < |txt[j]|
    ensures r.Returned? ==> |r.value| == |txt| && forall j :: 0 <= j < |txt| ==> r.value[j] == txt[j][i]
  {
    if forall j :: 0 <= j < |txt| ==> i < |txt[j]| then Returned(seq(|txt|, j requires 0 <= j < |txt| => txt[j][i]))
    else Panic
  }

  /** The first m records. */
  function RowsUpTo(txt: seq<seq<string>>, m: nat): (r: Outcome<seq<seq<string>>>)
    ensures r.Returned? ==> |r.value| == m && forall i :: 0 <= i < m ==> RowAt(txt, i) == Returned(r.value[i])
  {
    if m == 0 then Returned([])
    else
      var prev := RowsUpTo(txt, m - 1);
      var row := RowAt(txt, m - 1);
      if prev.Panic? || row.Panic? then Panic else Returned(prev.value + [row.value])
  }

  /** text_rows: nothing for a table without columns, else the header
      followed by one row per entry of the first column. */
  function TextRowsSpec(t: Table, showReal: real -> string): Outcome<seq<seq<string>>>
  {
    var txt := DisplayAll(t.cols, showReal);
    if txt.Panic? then Panic
    else if |txt.value| == 0 then Returned([])
    else
      var rows := RowsUpTo(txt.value, |txt.value[0]|);
      if rows.Panic? then Panic else Returned([t.names] + rows.value)
  }

  /** One record, gathered column by column. */
  method GatherRow(txt: seq<seq<string>>, i: nat) returns (r: Outcome<seq<string>>)
    ensures r == RowAt(txt, i)
  {
    var row: seq<string> := [];
    var j := 0;
    while j < |txt|
      invariant 0 <= j <= |txt|
      invariant |row| == j && forall a :: 0 <= a < j ==> i < |txt[a]| && row[a] == txt[a][i]
    {
      if i >= |txt[j]| {
        return Panic;
      }
      row := row + [txt[j][i]];
      j := j + 1;
    }
    assert row == seq(|txt|, j requires 0 <= j < |txt| => txt[j][i]);
    return Returned(row);
  }

  /** text_rows, one record at a time. */
  method TextRows(t: Table, showReal: real -> string) returns (r: Outcome<seq<seq<string>>>)
    ensures r == TextRowsSpec(t, showReal)
  {
    var txt := DisplayAll(t.cols, showReal);
    if txt.Panic? {
      return Panic;
    }
    if |txt.value| == 0 {
      return Returned([]);
    }
    var n := |txt.value[0]|;
    var rows: seq<seq<string>> := [];
    var i := 0;
    while i < n
      invariant 0 <= i <= n
      invariant RowsUpTo(txt.value, i) == Returned(rows)
    {
      var row := GatherRow(txt.value, i);
      if row.Panic? {
        RowsStop(txt.value, i + 1, n);
        return Panic;
      }
      rows := rows + [row.value];
      i := i + 1;
    }
    return Returned([t.names] + rows);
  }

  /** Once the first m records panic, so do more. */
  lemma {:induction false} RowsStop(txt: seq<seq<string>>, m: nat, n: nat)
    requires m <= n && RowsUpTo(txt, m).Panic?
    ensures RowsUpTo(txt, n).Panic?
    decreases n - m
  {
    if m < n {
      RowsStop(txt, m + 1, n);
    }
  }

  /** A plain column shows one text per entry. */
  predicate Plain(t: Table)
  {
    forall j :: 0 <= j < |t.cols| ==> !t.cols[j].Nullable?
  }

  /** shape: (records, columns). */
  function Shape(t: Table): (nat, nat)
  {
    (t.nrows, |t.cols|)
  }

  /** The text rows of a valid table of plain columns: the header, then
      one row per record, each as wide as the table, as its shape says. */
  lemma TextRowsShape(t: Table, showReal: real -> string)
    requires Valid(t) && Plain(t)
    ensures TextRowsSpec(t, showReal).Returned?
    ensures var rows := TextRowsSpec(t, showReal).value;
      |rows| == Shape(t).0 + 1 && rows[0] == t.names
      && forall i :: 0 <= i < |rows| ==> |rows[i]| == Shape(t).1
  {
    var txt := DisplayAll(t.cols, showReal);
    DisplayAllPlain(t.cols, showReal);
    RowsUpToFull(txt.value, t.nrows);
  }

  lemma {:induction false} DisplayAllPlain(cols: seq<Column>, showReal: real -> string)
    requires forall j :: 0 <= j < |cols| ==> !cols[j].Nullable?
    ensures DisplayAll(cols, showReal).Returned?
  {
    if |cols| > 0 {
      DisplayAllPlain(cols[..|cols| - 1], showReal);
    }
  }

  lemma {:induction false} RowsUpToFull(txt: seq<seq<string>>, m: nat)
    requires forall j :: 0 <= j < |txt| ==> |txt[j]| >= m
    ensures RowsUpTo(txt, m).Returned?
  {
    if m > 0 {
      RowsUpToFull(txt, m - 1);
    }
  }

  // ---------------------------------------------------------------------
  // CSV and Markdown

  /** show_column: every column when no selection is set, else those whose
      name is selected. */
  predicate ShowColumn(t: Table, ix: nat)
  {
    t.format.showOnly.None? || (ix < |t.names| && t.names[ix] in t.format.showOnly.value)
  }

  /** The CSV text of the first k fields of a row, as to_csv writes it: a
      shown field is preceded by a comma unless it sits at position 0. */
  function CsvFields(t: Table, row: seq<string>, k: nat): string
    requires k <= |row|
  {
    if k == 0 then ""
    else CsvFields(t, row, k - 1) + (if ShowColumn(t, k - 1) then (if k - 1 >= 1 then "," else "") + row[k - 1] else "")
  }

  /** The CSV text of the first k rows, each ended by a newline. */
  function CsvRows(t: Table, rows: seq<seq<string>>, k: nat): string
    requires k <= |rows|
  {
    if k == 0 then "" else CsvRows(t, rows, k - 1) + (CsvFields(t, rows[k - 1], |rows[k - 1]|) + "\n")
  }

  /** The fields of one row, as to_csv writes them. */
  method CsvLine(t: Table, row: seq<string>) returns (line: string)
    ensures line == CsvFields(t, row, |row|)
  {
    line := "";
    var i := 0;
    while i < |row|
      invariant 0 <= i <= |row|
      invariant line == CsvFields(t, row, i)
    {
      if ShowColumn(t, i) {
        if i >= 1 {
          line := line + ("," + row[i]);
        } else {
          line := line + row[i];
        }
      }
      i := i + 1;
    }
  }

  /** to_csv as written. */
  method ToCsv(t: Table, showReal: real -> string) returns (r: Outcome<string>)
    ensures var rows := TextRowsSpec(t, showReal);
      r == if rows.Panic? then Panic else Returned(CsvRows(t, rows.value, |rows.value|))
  {
    var rows := TextRows(t, showReal);
    if rows.Panic? {
      return Panic;
    }
    var content := "";
    var k := 0;
    while k < |rows.value|
      invariant 0 <= k <= |rows.value|
      invariant content == CsvRows(t, rows.value, k)
    {
      var line := CsvLine(t, rows.value[k]);
      content := content + (line + "\n");
      k := k + 1;
    }
    return Returned(content);
  }

  /** The shown fields of a row, in order. */
  function ShownFields(t: Table, row: seq<string>, k: nat): (r: seq<string>)
    requires k <= |row|
    ensures |r| <= k
  {
    if k == 0 then [] else ShownFields(t, row, k - 1) + (if ShowColumn(t, k - 1) then [row[k - 1]] else [])
  }

  /** As written, hiding the first column leaves a comma at the head of
      every line, so the line no longer splits into the shown fields. */
  lemma CsvLeadingComma()
    ensures var t := Table(["a", "b"], [Str(["1"]), Str(["2"])], 1, DefaultSettings.(showOnly := Some(["b"])));
      CsvFields(t, ["x", "y"], 2) == ",y"
      && Split(CsvFields(t, ["x", "y"], 2), ',') == ["", "y"]
      && ShownFields(t, ["x", "y"], 2) == ["y"]
  {
    var t := Table(["a", "b"], [Str(["1"]), Str(["2"])], 1, DefaultSettings.(showOnly := Some(["b"])));
    assert !ShowColumn(t, 0);
    assert ShowColumn(t, 1);
    assert CsvFields(t, ["x", "y"], 2) == ",y";
    assert ",y"[1..] == "y" && "y"[1..] == "";
    assert 'y' !in {','};
    assert SplitBy("", {','}) == [""];
    assert ['y'] + "" == "y";
    assert SplitBy("y", {','}) == [['y'] + ""] + [""][1..];
    assert SplitBy(",y", {','}) == [""] + SplitBy("y", {','});
  }

  /** A CSV line as evidently intended: the shown fields joined by commas. */
  function CsvLineFixed(t: Table, row: seq<string>): string
  {
    Join(ShownFields(t, row, |row|), ',')
  }

  /** The intended line splits back into exactly the shown fields, when
      there is one and no field holds a comma. */
  lemma CsvLineFixedSplits(t: Table, row: seq<string>)
    requires |ShownFields(t, row, |row|)| >= 1
    requires forall k, i :: 0 <= k < |row| && 0 <= i < |row[k]| ==> row[k][i] != ','
    ensures Split(CsvLineFixed(t, row), ',') == ShownFields(t, row, |row|)
  {
    ShownFrom(t, row, |row|);
    JoinSplit(ShownFields(t, row, |row|), ',');
  }

  lemma {:induction false} ShownFrom(t: Table, row: seq<string>, k: nat)
    requires k <= |row|
    ensures forall a :: 0 <= a < |ShownFields(t, row, k)| ==> ShownFields(t, row, k)[a] in row
  {
    if k > 0 {
      ShownFrom(t, row, k - 1);
    }
  }

  /** The header separator of one shown Markdown column. */
  function HeaderSep(a: Align): string
  {
    match a
    case Left => "|:---"
    case Center => "|:---:"
    case Right => "|---:"
  }

  /** The Markdown cells of the first k fields: "|" before each shown one. */
  function MdFields(t: Table, row: seq<string>, k: nat): string
    requires k <= |row|
  {
    if k == 0 then "" else MdFields(t, row, k - 1) + (if ShowColumn(t, k - 1) then "|" + row[k - 1] else "")
  }

  /** The separator line's cells for the first k positions. */
  function MdSeps(t: Table, k: nat): string
  {
    if k == 0 then "" else MdSeps(t, k - 1) + (if ShowColumn(t, k - 1) then HeaderSep(t.format.align) else "")
  }

  /** The Markdown text of the first k rows: each row closed by "|\n", and
      the header followed by the separator line. */
  function MdRows(t: Table, rows: seq<seq<string>>, k: nat): string
    requires k <= |rows|
  {
    if k == 0 then "" else MdRows(t, rows, k - 1) + MdRow(t, rows, k - 1)
  }

  /** Row i closed by "|\n"; the header row is followed by the separator line. */
  function MdRow(t: Table, rows: seq<seq<string>>, i: nat): string
    requires i < |rows|
  {
    MdFields(t, rows[i], |rows[i]|) + "|\n" + (if i == 0 then MdSeps(t, |rows[i]|) + "|\n" else "")
  }

  /** The cells of one Markdown row. */
  method MdLine(t: Table, row: seq<string>) returns (line: string)
    ensures line == MdFields(t, row, |row|)
  {
    line := "";
    var j := 0;
    while j < |row|
      invariant 0 <= j <= |row|
      invariant line == MdFields(t, row, j)
    {
      if ShowColumn(t, j) {
        line := line + ("|" + row[j]);
      }
      j := j + 1;
    }
  }

  /** The separator line under the Markdown header. */
  method MdSepLine(t: Table, n: nat) returns (line: string)
    ensures line == MdSeps(t, n)
  {
    line := "";
    var j := 0;
    while j < n
      invariant 0 <= j <= n
      invariant line == MdSeps(t, j)
    {
      if ShowColumn(t, j) {
        line := line + HeaderSep(t.format.align);
      }
      j := j + 1;
    }
  }

  /** Row k of the Markdown text. */
  method MdRowText(t: Table, rows: seq<seq<string>>, k: nat) returns (line: string)
    requires k < |rows|
    ensures line == MdRow(t, rows, k)
  {
    var cells := MdLine(t, rows[k]);
    line := cells + "|\n";
    if k == 0 {
      var seps := MdSepLine(t, |rows[k]|);
      line := line + (seps + "|\n");
    } else {
      line := line + "";
    }
  }

  /** to_markdown as written. */
  method ToMarkdown(t: Table, showReal: real -> string) returns (r: Outcome<string>)
    ensures var rows := TextRowsSpec(t, showReal);
      r == if rows.Panic? then Panic else Returned(MdRows(t, rows.value, |rows.value|))
  {
    var rows := TextRows(t, showReal);
    if rows.Panic? {
      return Panic;
    }
    var md := "";
    var k := 0;
    while k < |rows.value|
      invariant 0 <= k <= |rows.value|
      invariant md == MdRows(t, rows.value, k)
    {
      var line := MdRowText(t, rows.value, k);
      md := md + line;
      k := k + 1;
    }
    return Returned(md);
  }

  /** The text rows of a one-record table of text columns: the header and
      the record. */
  lemma TextRowsOneRecord(t: Table, showReal: real -> string)
    requires Valid(t) && t.nrows == 1 && forall j :: 0 <= j < |t.cols| ==> t.cols[j].Str?
    ensures TextRowsSpec(t, showReal) == Returned([t.names, seq(|t.cols|, j requires 0 <= j < |t.cols| => t.cols[j].strs[0])])
  {
    DisplayAllPlain(t.cols, showReal);
    var txt := DisplayAll(t.cols, showReal).value;
    assert forall j :: 0 <= j < |t.cols| ==> txt[j] == t.cols[j].strs by {
      forall j | 0 <= j < |t.cols|
        ensures txt[j] == t.cols[j].strs
      {
        assert DisplayContent(t.cols[j], showReal) == Returned(txt[j]);
      }
    }
    assert |txt[0]| == 1;
    assert forall j :: 0 <= j < |txt| ==> 0 < |txt[j]|;
    var row := seq(|t.cols|, j requires 0 <= j < |t.cols| => t.cols[j].strs[0]);
    var r0 := RowAt(txt, 0);
    assert r0.Returned?;
    assert |r0.value| == |row|;
    assert forall j :: 0 <= j < |row| ==> r0.value[j] == row[j];
    assert r0.value == row;
    assert RowsUpTo(txt, 0) == Returned([]);
    assert RowsUpTo(txt, 1) == Returned([] + [row]);
    assert [] + [row] == [row];
    assert |txt| > 0;
    assert TextRowsSpec(t, showReal) == Returned([t.names] + [row]);
    assert [t.names] + [row] == [t.names, row];
  }

  /** How often c occurs in s. */
  function CountChar(c: char, s: string): nat
  {
    if s == [] then 0 else (if s[0] == c then 1 else 0) + CountChar(c, s[1..])
  }

  lemma {:induction false} CountAppend(c: char, a: string, b: string)
    ensures CountChar(c, a + b) == CountChar(c, a) + CountChar(c, b)
  {
    if a != [] {
      assert (a + b)[1..] == a[1..] + b;
      CountAppend(c, a[1..], b);
    } else {
      assert a + b == b;
    }
  }

  /** How many of the first k columns are shown. */
  function ShownCount(t: Table, k: nat): nat
  {
    if k == 0 then 0 else ShownCount(t, k - 1) + (if ShowColumn(t, k - 1) then 1 else 0)
  }

  /** A Markdown row opens one cell per shown column, when no field holds a bar. */
  lemma {:induction false} MdFieldsCells(t: Table, row: seq<string>, k: nat)
    requires k <= |row|
    requires forall i :: 0 <= i < |row| ==> '|' !in row[i]
    ensures CountChar('|', MdFields(t, row, k)) == ShownCount(t, k)
  {
    if k > 0 {
      MdFieldsCells(t, row, k - 1);
      if ShowColumn(t, k - 1) {
        var f := row[k - 1];
        assert CountChar('|', f) == 0 by { NoCharCount('|', f); }
        CountAppend('|', "|", f);
        CountAppend('|', MdFields(t, row, k - 1), "|" + f);
      } else {
        assert MdFields(t, row, k - 1) + "" == MdFields(t, row, k - 1);
      }
    }
  }

  lemma {:induction false} NoCharCount(c: char, s: string)
    requires c !in s
    ensures CountChar(c, s) == 0
  {
    if s != [] {
      assert c !in s[1..];
      NoCharCount(c, s[1..]);
    }
  }

  /** The separator line opens one cell per shown column too. */
  lemma {:induction false} MdSepsCells(t: Table, k: nat)
    ensures CountChar('|', MdSeps(t, k)) == ShownCount(t, k)
  {
    if k > 0 {
      MdSepsCells(t, k - 1);
      if ShowColumn(t, k - 1) {
        var h := HeaderSep(t.format.align);
        assert CountChar('|', h) == 1 by {
          assert h[0] == '|' && '|' !in h[1..];
          NoCharCount('|', h[1..]);
        }
        CountAppend('|', MdSeps(t, k - 1), h);
      } else {
        assert MdSeps(t, k - 1) + "" == MdSeps(t, k - 1);
      }
    }
  }

  /** Every row of the Markdown text has as many cells as the separator
      line under the header, when the rows are as wide as the header and
      no field holds a bar. */
  lemma MdRowMatchesSeparator(t: Table, rows: seq<seq<string>>, i: nat)
    requires i < |rows| && |rows[i]| == |rows[0]|
    requires forall j :: 0 <= j < |rows[i]| ==> '|' !in rows[i][j]
    ensures CountChar('|', MdFields(t, rows[i], |rows[i]|)) == CountChar('|', MdSeps(t, |rows[0]|))
  {
    MdFieldsCells(t, rows[i], |rows[i]|);
    MdSepsCells(t, |rows[0]|);
  }

  // ---------------------------------------------------------------------
  // SQL

  /** A column name with a space is double-quoted. */
  function QuoteName(n: string): (r: string)
    ensures ' ' in n ==> r == "\"" + n + "\""
    ensures ' ' !in n ==> r == n
  {
    if ' ' in n then "\"" + n + "\"" else n
  }

  /** The column definitions of the first k (name, column) pairs, each
      followed by "," or, for the last column, ")\n". */
  function CreationDefs(names: seq<string>, cols: seq<Column>, k: nat): string
    requires k <= |names| && k <= |cols|
  {
    if k == 0 then "" else CreationDefs(names, cols, k - 1) + CreationDef(names, cols, k - 1)
  }

  /** The definition of column i with what follows it. */
  function CreationDef(names: seq<string>, cols: seq<Column>, i: nat): string
    requires i < |names| && i < |cols|
  {
    QuoteName(names[i]) + " " + SqliteType(cols[i]) + (if i < |cols| - 1 then "," else ")\n")
  }

  function MinLen(a: nat, b: nat): nat { if a <= b then a else b }

  /** sql_table_creation, one definition at a time. */
  method SqlTableCreation(t: Table, name: string) returns (r: Option<string>)
    ensures r == Some("CREATE TABLE " + name + "(" + CreationDefs(t.names, t.cols, MinLen(|t.names|, |t.cols|)))
  {
    var head := "CREATE TABLE " + name + "(";
    var defs := "";
    var i := 0;
    var m := MinLen(|t.names|, |t.cols|);
    while i < m
      invariant 0 <= i <= m
      invariant defs == CreationDefs(t.names, t.cols, i)
    {
      var col := QuoteName(t.names[i]) + " " + SqliteType(t.cols[i]);
      if i < |t.cols| - 1 {
        defs := defs + (col + ",");
      } else {
        defs := defs + (col + ")\n");
      }
      i := i + 1;
    }
    return Some(head + defs);
  }

  /** The column definitions of a table. */
  function Defs(t: Table, k: nat): (r: seq<string>)
    requires k <= |t.names| && k <= |t.cols|
    ensures |r| == k
  {
    if k == 0 then [] else Defs(t, k - 1) + [QuoteName(t.names[k - 1]) + " " + SqliteType(t.cols[k - 1])]
  }

  /** For a valid table the statement is "CREATE TABLE name(", the column
      definitions joined by commas, and ")\n". */
  lemma CreationShape(t: Table, name: string)
    requires Valid(t)
    ensures "CREATE TABLE " + name + "(" + CreationDefs(t.names, t.cols, |t.cols|)
         == "CREATE TABLE " + name + "(" + Join(Defs(t, |t.cols|), ',') + ")\n"
  {
    CreationJoin(t, |t.cols|);
  }

  lemma {:induction false} CreationJoin(t: Table, k: nat)
    requires Valid(t) && 1 <= k <= |t.cols|
    ensures CreationDefs(t.names, t.cols, k) == Join(Defs(t, k), ',') + (if k < |t.cols| then "," else ")\n")
  {
    if k > 1 {
      CreationJoin(t, k - 1);
      assert CreationDefs(t.names, t.cols, k) == CreationDefs(t.names, t.cols, k - 1) + CreationDef(t.names, t.cols, k - 1);
      JoinSnoc(Defs(t, k - 1), QuoteName(t.names[k - 1]) + " " + SqliteType(t.cols[k - 1]), ',');
    } else {
      assert Defs(t, 1) == [QuoteName(t.names[0]) + " " + SqliteType(t.cols[0])];
    }
  }

  /** A field of an insert statement: quoted when its type is the tag. */
  function QuoteField(f: string, ty: string, tag: string): string
  {
    if ty == tag then "'" + f + "'" else f
  }

  /** The first k fields of a row tuple, each followed by "," or, for the
      row's last field, by the row's closing. */
  function TupleFields(line: seq<string>, types: seq<string>, tag: string, closing: string, k: nat): string
    requires k <= |line| && k <= |types|
  {
    if k == 0 then "" else TupleFields(line, types, tag, closing, k - 1) + TupleField(line, types, tag, closing, k - 1)
  }

  /** Field i of a row tuple with what follows it. */
  function TupleField(line: seq<string>, types: seq<string>, tag: string, closing: string, i: nat): string
    requires i < |line| && i < |types|
  {
    QuoteField(line[i], types[i], tag) + (if i < |line| - 1 then "," else closing)
  }

  /** The first k tuples: "(" and the fields; every row but the last closes with "),". */
  function Tuples(lines: seq<seq<string>>, types: seq<string>, tag: string, k: nat): string
    requires k <= |lines|
  {
    if k == 0 then ""
    else
      Tuples(lines, types, tag, k - 1) + Tuple(lines, types, tag, k - 1)
  }

  /** Tuple i: "(" and its fields; every tuple but the last closes with "),". */
  function Tuple(lines: seq<seq<string>>, types: seq<string>, tag: string, i: nat): string
    requires i < |lines|
  {
    var closing := if i < |lines| - 1 then ")," else ");\n";
    "(" + TupleFields(lines[i], types, tag, closing, MinLen(|lines[i]|, |types|))
  }

  function SqlTypes(t: Table): (r: seq<string>)
    ensures |r| == |t.cols| && forall j :: 0 <= j < |t.cols| ==> r[j] == SqliteType(t.cols[j])
  {
    seq(|t.cols|, j requires 0 <= j < |t.cols| => SqliteType(t.cols[j]))
  }

  /** sql_table_insertion as written: nothing for a table of at most one
      column; otherwise the records after the header as tuples, quoting a
      field only when its type is "text". */
  function InsertionAsWritten(t: Table, name: string, showReal: real -> string): Outcome<string>
  {
    var content := TextRowsSpec(t, showReal);
    if content.Panic? then Panic
    else if |t.cols| <= 1 then Returned("")
    else if |content.value| == 0 then Panic
    else
      var lines := content.value[1..];
      Returned("insert into " + name + " values " + Tuples(lines, SqlTypes(t), "text", |lines|))
  }

  /** The types a table reports are upper case, so as written no field is quoted. */
  lemma NothingQuotedAsWritten(t: Table, line: seq<string>, closing: string, k: nat)
    requires k <= |line| && k <= |t.cols|
    ensures TupleFields(line, SqlTypes(t), "text", closing, k) == TupleFields(line, SqlTypes(t), "", closing, k)
  {
    if k > 0 {
      NothingQuotedAsWritten(t, line, closing, k - 1);
    }
  }

  /** The records of a one-record table of two text columns. */
  lemma TwoTextColumns(x: string, y: string, showReal: real -> string)
    ensures var t := Table(["a", "b"], [Str([x]), Str([y])], 1, DefaultSettings);
      TextRowsSpec(t, showReal) == Returned([["a", "b"], [x, y]]) && SqlTypes(t) == ["TEXT", "TEXT"]
  {
    var t := Table(["a", "b"], [Str([x]), Str([y])], 1, DefaultSettings);
    TextRowsOneRecord(t, showReal);
    var row := seq(|t.cols|, j requires 0 <= j < |t.cols| => t.cols[j].strs[0]);
    assert row == [x, y];
  }

  /** The records of a one-record table of one text column. */
  lemma OneTextColumn(x: string, showReal: real -> string)
    ensures var t := Table(["a"], [Str([x])], 1, DefaultSettings);
      TextRowsSpec(t, showReal) == Returned([["a"], [x]]) && SqlTypes(t) == ["TEXT"]
  {
    var t := Table(["a"], [Str([x])], 1, DefaultSettings);
    TextRowsOneRecord(t, showReal);
    var row := seq(|t.cols|, j requires 0 <= j < |t.cols| => t.cols[j].strs[0]);
    assert row == [x];
  }

  /** As written, a text field of a two-column table goes into the
      statement without quotes. */
  lemma InsertionAsWrittenUnquoted(x: string, y: string, name: string, showReal: real -> string)
    ensures InsertionAsWritten(Table(["a", "b"], [Str([x]), Str([y])], 1, DefaultSettings), name, showReal)
         == Returned("insert into " + name + " values " + Tuples([[x, y]], ["TEXT", "TEXT"], "text", 1))
    ensures Tuples([[x, y]], ["TEXT", "TEXT"], "text", 1) == "" + ("(" + ("" + (x + ",") + (y + ");\n")))
  {
    TwoTextColumns(x, y, showReal);
    assert [["a", "b"], [x, y]][1..] == [[x, y]];
    assert "TEXT" != "text";
    assert QuoteField(x, "TEXT", "text") == x;
    assert QuoteField(y, "TEXT", "text") == y;
    assert TupleFields([x, y], ["TEXT", "TEXT"], "text", ");\n", 1) == "" + (x + ",");
    assert TupleFields([x, y], ["TEXT", "TEXT"], "text", ");\n", 2) == "" + (x + ",") + (y + ");\n");
    assert Tuple([[x, y]], ["TEXT", "TEXT"], "text", 0) == "(" + ("" + (x + ",") + (y + ");\n"));
  }

  /** As written, a one-column table gets no insert statement at all. */
  lemma InsertionAsWrittenSingleColumn(showReal: real -> string)
    ensures InsertionAsWritten(Table(["a"], [Str(["x"])], 1, DefaultSettings), "t", showReal) == Returned("")
  {
    OneTextColumn("x", showReal);
  }

  /** sql_table_insertion as evidently intended: nothing only when there
      are no records, and text fields quoted (the type is "TEXT"). */
  function InsertionFixed(t: Table, name: string, showReal: real -> string): Outcome<string>
  {
    var content := TextRowsSpec(t, showReal);
    if content.Panic? then Panic
    else if |content.value| <= 1 then Returned("")
    else
      var lines := content.value[1..];
      Returned("insert into " + name + " values " + Tuples(lines, SqlTypes(t), "TEXT", |lines|))
  }

  /** Intended insertion: the text fields are single-quoted. */
  lemma InsertionFixedQuoted(x: string, y: string, name: string, showReal: real -> string)
    ensures InsertionFixed(Table(["a", "b"], [Str([x]), Str([y])], 1, DefaultSettings), name, showReal)
         == Returned("insert into " + name + " values " + Tuples([[x, y]], ["TEXT", "TEXT"], "TEXT", 1))
    ensures Tuples([[x, y]], ["TEXT", "TEXT"], "TEXT", 1)
         == "" + ("(" + ("" + ("'" + x + "'" + ",") + ("'" + y + "'" + ");\n")))
  {
    TwoTextColumns(x, y, showReal);
    assert [["a", "b"], [x, y]][1..] == [[x, y]];
    assert QuoteField(x, "TEXT", "TEXT") == "'" + x + "'";
    assert QuoteField(y, "TEXT", "TEXT") == "'" + y + "'";
    assert TupleFields([x, y], ["TEXT", "TEXT"], "TEXT", ");\n", 1) == "" + ("'" + x + "'" + ",");
    assert TupleFields([x, y], ["TEXT", "TEXT"], "TEXT", ");\n", 2) == "" + ("'" + x + "'" + ",") + ("'" + y + "'" + ");\n");
    assert Tuple([[x, y]], ["TEXT", "TEXT"], "TEXT", 0) == "(" + ("" + ("'" + x + "'" + ",") + ("'" + y + "'" + ");\n"));
  }

  /** Intended insertion: a one-column table gets its insert statement. */
  lemma InsertionFixedSingleColumn(x: string, name: string, showReal: real -> string)
    ensures InsertionFixed(Table(["a"], [Str([x])], 1, DefaultSettings), name, showReal)
         == Returned("insert into " + name + " values " + Tuples([[x]], ["TEXT"], "TEXT", 1))
    ensures Tuples([[x]], ["TEXT"], "TEXT", 1) == "" + ("(" + ("" + ("'" + x + "'" + ");\n")))
  {
    OneTextColumn(x, showReal);
    assert [["a"], [x]][1..] == [[x]];
    assert QuoteField(x, "TEXT", "TEXT") == "'" + x + "'";
    assert TupleFields([x], ["TEXT"], "TEXT", ");\n", 1) == "" + ("'" + x + "'" + ");\n");
    assert Tuple([[x]], ["TEXT"], "TEXT", 0) == "(" + ("" + ("'" + x + "'" + ");\n"));
  }

  /** The intended insertion is empty exactly for a table without records,
      and otherwise every TEXT field is single-quoted. */
  lemma InsertionFixedShape(t: Table, name: string, showReal: real -> string)
    requires Valid(t) && Plain(t)
    ensures InsertionFixed(t, name, showReal) == Returned("") <==> t.nrows == 0
    ensures forall f :: QuoteField(f, "TEXT", "TEXT") == "'" + f + "'"
  {
    TextRowsShape(t, showReal);
  }

  /** sql_table_insertion, as evidently intended, row by row and field by field. */
  method SqlTableInsertion(t: Table, name: string, showReal: real -> string) returns (r: Outcome<string>)
    ensures r == InsertionFixed(t, name, showReal)
  {
    var content := TextRows(t, showReal);
    if content.Panic? {
      return Panic;
    }
    if |content.value| <= 1 {
      return Returned("");
    }
    var tuples := InsertTuples(content.value[1..], SqlTypes(t));
    return Returned("insert into " + name + " values " + tuples);
  }

  /** The row tuples of an insert statement, TEXT fields quoted. */
  method InsertTuples(lines: seq<seq<string>>, types: seq<string>) returns (tuples: string)
    ensures tuples == Tuples(lines, types, "TEXT", |lines|)
  {
    tuples := "";
    var n := 0;
    while n < |lines|
      invariant 0 <= n <= |lines|
      invariant tuples == Tuples(lines, types, "TEXT", n)
    {
      var closing := if n < |lines| - 1 then ")," else ");\n";
      var fields := TupleLine(lines[n], types, closing);
      assert "(" + fields == Tuple(lines, types, "TEXT", n);
      tuples := tuples + ("(" + fields);
      n := n + 1;
    }
  }

  /** The fields of one row tuple, TEXT fields quoted. */
  method TupleLine(line: seq<string>, types: seq<string>, closing: string) returns (fields: string)
    ensures fields == TupleFields(line, types, "TEXT", closing, MinLen(|line|, |types|))
  {
    fields := "";
    var i := 0;
    var m := MinLen(|line|, |types|);
    while i < m
      invariant 0 <= i <= m
      invariant fields == TupleFields(line, types, "TEXT", closing, i)
    {
      var f := QuoteField(line[i], types[i], "TEXT");
      if i < |line| - 1 {
        fields := fields + (f + ",");
      } else {
        fields := fields + (f + closing);
      }
      i := i + 1;
    }
  }

  // ---------------------------------------------------------------------
  // Columns picked from tables

  /** Columns taken from one or more tables, with their names and their
      index in the table they came from; nothing says they are equally long. */
  datatype Columns = Columns(names: seq<string>, cols: seq<Column>, ixs: seq<nat>)

  predicate Aligned(cs: Columns)
  {
    |cs.names| == |cs.cols| == |cs.ixs|
  }

  const NoColumns := Columns([], [], [])

  function TakeAndPush(cs: Columns, name: string, col: Column, ix: nat): (r: Columns)
    ensures Aligned(cs) ==> Aligned(r) && Get(r, |cs.cols|) == Some(col)
    ensures forall k :: 0 <= k < |cs.cols| ==> Get(r, k) == Get(cs, k)
  {
    Columns(cs.names + [name], cs.cols + [col], cs.ixs + [ix])
  }

  function TakeAndExtend(cs: Columns, more: Columns): (r: Columns)
    ensures Aligned(cs) && Aligned(more) ==> Aligned(r)
    ensures forall k :: 0 <= k < |cs.cols| ==> Get(r, k) == Get(cs, k)
    ensures forall k :: 0 <= k < |more.cols| ==> Get(r, |cs.cols| + k) == Get(more, k)
  {
    Columns(cs.names + more.names, cs.cols + more.cols, cs.ixs + more.ixs)
  }

  function Get(cs: Columns, ix: nat): (r: Option<Column>)
    ensures r.Some? <==> ix < |cs.cols|
    ensures r.Some? ==> r.value == cs.cols[ix]
  {
    if ix < |cs.cols| then Some(cs.cols[ix]) else None
  }

  /** try_access: the column's vector when the conversion `unwrap` accepts it. */
  function TryAccess<T>(cs: Columns, ix: nat, unwrap: Column -> Result<seq<T>>): (r: Option<seq<T>>)
    ensures r.Some? <==> ix < |cs.cols| && unwrap(cs.cols[ix]).Ok?
    ensures r.Some? ==> r.value == unwrap(cs.cols[ix]).value
  {
    var c := Get(cs, ix);
    if c.None? then None
    else
      var v := unwrap(c.value);
      if v.Ok? then Some(v.value) else None
  }

  /** Entry i of a column read as a number: floats and the integer kinds
      other than I8 are taken as they are, a decimal through `toF64`; any
      other kind has no number. */
  function NumberAt(c: Column, i: nat, toF64: real -> Option<real>): Option<real>
  {
    match c
    case Float64(v) => if i < |v| then Some(v[i]) else None
    case Float32(v) => if i < |v| then Some(v[i]) else None
    case Int16(v) => if i < |v| then Some(v[i] as real) else None
    case Int32(v) => if i < |v| then Some(v[i] as real) else None
    case UInt32(v) => if i < |v| then Some(v[i] as real) else None
    case Int64(v) => if i < |v| then Some(v[i] as real) else None
    case Numeric(v) => if i < |v| then toF64(v[i]) else None
    case _ => None
  }

  /** The kinds try_numeric accepts. */
  predicate NumericKind(c: Column)
  {
    c.Float64? || c.Float32? || c.Int16? || c.Int32? || c.UInt32? || c.Int64? || c.Numeric?
  }

  /** The decimals of v[..k] all convert to f64, in order. */
  function Decimals(v: seq<real>, toF64: real -> Option<real>): (r: Option<seq<real>>)
    ensures r.Some? <==> forall i :: 0 <= i < |v| ==> toF64(v[i]).Some?
    ensures r.Some? ==> |r.value| == |v| && forall i :: 0 <= i < |v| ==> toF64(v[i]) == Some(r.value[i])
  {
    if |v| == 0 then Some([])
    else
      var prev := Decimals(v[..|v| - 1], toF64);
      var last := toF64(v[|v| - 1]);
      if prev.None? || last.None? then None else Some(prev.value + [last.value])
  }

  function AsReals<T>(v: seq<T>, f: T -> real): (r: seq<real>)
    ensures |r| == |v| && forall i :: 0 <= i < |v| ==> r[i] == f(v[i])
  {
    MapSeq(f, v)
  }

  /** try_numeric: the first conversion that succeeds among f64, f32, i16,
      i32, u32, i64 and decimal. */
  method TryNumeric(cs: Columns, ix: nat, toF64: real -> Option<real>) returns (r: Option<seq<real>>)
    ensures r.Some? <==> (ix < |cs.cols| && NumericKind(cs.cols[ix])
                          && (cs.cols[ix].Numeric? ==> forall i :: 0 <= i < Len(cs.cols[ix]) ==> toF64(cs.cols[ix].decimals[i]).Some?))
    ensures r.Some? ==> (|r.value| == Len(cs.cols[ix])
      && forall i :: 0 <= i < |r.value| ==> NumberAt(cs.cols[ix], i, toF64) == Some(r.value[i]))
  {
    var dbl := TryAccess(cs, ix, TryF64s);
    if dbl.Some? {
      return dbl;
    }
    var float := TryAccess(cs, ix, TryF32s);
    if float.Some? {
      return float;
    }
    var short := TryAccess(cs, ix, TryI16s);
    if short.Some? {
      return Some(AsReals(short.value, (x: I16) => x as real));
    }
    var ints := TryAccess(cs, ix, TryI32s);
    if ints.Some? {
      return Some(AsReals(ints.value, (x: I32) => x as real));
    }
    var uint := TryAccess(cs, ix, TryU32s);
    if uint.Some? {
      return Some(AsReals(uint.value, (x: U32) => x as real));
    }
    var long := TryAccess(cs, ix, TryI64s);
    if long.Some? {
      return Some(AsReals(long.value, (x: I64) => x as real));
    }
    var dec := TryAccess(cs, ix, TryDecimals);
    if dec.Some? {
      var v := dec.value;
      var cvt: seq<real> := [];
      var i := 0;
      while i < |v|
        invariant 0 <= i <= |v|
        invariant Decimals(v[..i], toF64) == Some(cvt)
      {
        assert v[..i + 1][..i] == v[..i];
        var f := toF64(v[i]);
        if f.None? {
          DecimalsStop(v, toF64, i + 1);
          return None;
        }
        cvt := cvt + [f.value];
        i := i + 1;
      }
      assert v[..i] == v;
      return Some(cvt);
    }
    return None;
  }

  /** Once a decimal fails to convert, the whole vector fails. */
  lemma DecimalsStop(v: seq<real>, toF64: real -> Option<real>, k: nat)
    requires k <= |v| && Decimals(v[..k], toF64).None?
    ensures Decimals(v, toF64).None?
  {
    var i :| 0 <= i < k && toF64(v[..k][i]).None?;
    assert v[i] == v[..k][i];
  }

  /** The columns of get_columns: each index that names a column of the
      table brings that column, its name and itself. */
  function PickColumns(t: Table, ixs: seq<nat>): (r: Columns)
    ensures Aligned(r) && |r.cols| <= |ixs|
    ensures forall k :: 0 <= k < |r.cols| ==>
      r.ixs[k] < |t.names| && r.ixs[k] < |t.cols|
      && r.cols[k] == t.cols[r.ixs[k]] && r.names[k] == t.names[r.ixs[k]]
  {
    if |ixs| == 0 then NoColumns
    else
      var prev := PickColumns(t, ixs[..|ixs| - 1]);
      var ix := ixs[|ixs| - 1];
      if ix < |t.names| && ix < |t.cols| then TakeAndPush(prev, t.names[ix], t.cols[ix], ix) else prev
  }

  /** An index is among the columns taken exactly when it was asked for
      and names a column of the table; others are skipped. */
  lemma {:induction false} PickColumnsIxs(t: Table, ixs: seq<nat>, ix: nat)
    ensures ix in PickColumns(t, ixs).ixs <==> ix in ixs && ix < |t.names| && ix < |t.cols|
  {
    if |ixs| > 0 {
      var init := ixs[..|ixs| - 1];
      PickColumnsIxs(t, init, ix);
      assert ix in ixs <==> ix in init || ix == ixs[|ixs| - 1];
    }
  }

  /** get_columns, one index at a time. */
  method GetColumns(t: Table, ixs: seq<nat>) returns (cs: Columns)
    ensures cs == PickColumns(t, ixs)
  {
    cs := NoColumns;
    var i := 0;
    while i < |ixs|
      invariant 0 <= i <= |ixs|
      invariant cs == PickColumns(t, ixs[..i])
    {
      assert ixs[..i + 1][..i] == ixs[..i];
      var ix := ixs[i];
      if ix < |t.names| && ix < |t.cols| {
        cs := TakeAndPush(cs, t.names[ix], t.cols[ix], ix);
      }
      i := i + 1;
    }
    assert ixs[..i] == ixs;
  }

  /** With all indices in range and distinct, get_columns keeps them all, in order. */
  lemma {:induction false} PickAllInRange(t: Table, ixs: seq<nat>)
    requires forall k :: 0 <= k < |ixs| ==> ixs[k] < |t.names| && ixs[k] < |t.cols|
    ensures PickColumns(t, ixs).ixs == ixs
  {
    if |ixs| > 0 {
      PickAllInRange(t, ixs[..|ixs| - 1]);
      assert ixs[..|ixs| - 1] + [ixs[|ixs| - 1]] == ixs;
    }
  }

  // ---------------------------------------------------------------------
  // Settings read from text (Err(()) is None)

  function FormatFromStr(s: string): (r: Option<Format>)
    ensures r.Some? <==> s in {"CSV", "HTML", "Markdown"}
    ensures r == Some(Csv) <==> s == "CSV"
  {
    match s
    case "CSV" => Some(Csv)
    case "HTML" => Some(Html)
    case "Markdown" => Some(Markdown)
    case _ => None
  }

  /** BoolField::from_str as written: "'1' or '0'" reads as WordUpper. */
  function BoolFieldFromStr(s: string): (r: Option<BoolField>)
    ensures r.Some? <==> s in {"'t' or 'f'", "'T' or 'F'", "'true' or 'False'", "'TRUE' or 'FALSE'", "'1' or '0'"}
  {
    match s
    case "'t' or 'f'" => Some(Char)
    case "'T' or 'F'" => Some(CharUpper)
    case "'true' or 'False'" => Some(Word)
    case "'TRUE' or 'FALSE'" => Some(WordUpper)
    case "'1' or '0'" => Some(WordUpper)
    case _ => None
  }

  /** As written, no text reads as Integer, and two texts read as WordUpper. */
  lemma BoolFieldIntegerUnreachable(s: string)
    ensures BoolFieldFromStr(s) != Some(Integer)
    ensures BoolFieldFromStr("'1' or '0'") == BoolFieldFromStr("'TRUE' or 'FALSE'")
  {
  }

  /** The text each boolean style is offered under. */
  function BoolFieldName(b: BoolField): string
  {
    match b
    case Char => "'t' or 'f'"
    case CharUpper => "'T' or 'F'"
    case Word => "'true' or 'False'"
    case WordUpper => "'TRUE' or 'FALSE'"
    case Integer => "'1' or '0'"
  }

  /** BoolField::from_str as evidently intended: "'1' or '0'" reads as Integer. */
  function BoolFieldFromStrFixed(s: string): (r: Option<BoolField>)
    ensures r.Some? ==> BoolFieldName(r.value) == s
  {
    match s
    case "'t' or 'f'" => Some(Char)
    case "'T' or 'F'" => Some(CharUpper)
    case "'true' or 'False'" => Some(Word)
    case "'TRUE' or 'FALSE'" => Some(WordUpper)
    case "'1' or '0'" => Some(Integer)
    case _ => None
  }

  /** Every boolean style is read back from its own text. */
  lemma BoolFieldRoundTrip(b: BoolField)
    ensures BoolFieldFromStrFixed(BoolFieldName(b)) == Some(b)
  {
  }

  /** NullField::from_str as written: the third text carries a stray quote. */
  function NullFieldFromStr(s: string): (r: Option<NullField>)
    ensures r.Some? <==> s in {"null", "NULL", "Omit'"}
  {
    match s
    case "null" => Some(NullWord)
    case "NULL" => Some(NullWordUpper)
    case "Omit'" => Some(Omit)
    case _ => None
  }

  /** As written, "Omit" itself is refused. */
  lemma NullFieldOmitRefused()
    ensures NullFieldFromStr("Omit") == None && NullFieldFromStr("Omit'") == Some(Omit)
  {
  }

  function NullFieldName(n: NullField): string
  {
    match n
    case NullWord => "null"
    case NullWordUpper => "NULL"
    case Omit => "Omit"
  }

  /** NullField::from_str as evidently intended. */
  function NullFieldFromStrFixed(s: string): (r: Option<NullField>)
    ensures r.Some? ==> NullFieldName(r.value) == s
  {
    match s
    case "null" => Some(NullWord)
    case "NULL" => Some(NullWordUpper)
    case "Omit" => Some(Omit)
    case _ => None
  }

  lemma NullFieldRoundTrip(n: NullField)
    ensures NullFieldFromStrFixed(NullFieldName(n)) == Some(n)
  {
  }
}
