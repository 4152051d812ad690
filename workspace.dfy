/** The plot workspace: which pane of the plot group a click falls in, the
    point at which the popover opens for a pane, and the two steps that
    bind a mapping's data source to the table environment and push the
    selected columns to the plot. */
module PlotWorkspaces {
  import opened Wrappers
  import opened PlotGroups
  import opened TableColumns
  import Tables

  // ---------------------------------------------------------------------
  // Casting a product of the allocation to a pixel

  const I32Min: int := -0x8000_0000
  const I32Max: int := 0x7FFF_FFFF

  /** `v as i32` for a finite f64: rounded toward zero, then saturated at
      the bounds of i32. */
  function CastI32(v: real): (r: int)
    ensures I32Min <= r <= I32Max
    ensures 0.0 <= v && v < I32Max as real ==> r as real <= v < r as real + 1.0
    ensures 0.0 <= v ==> 0 <= r
  {
    var t := if v >= 0.0 then v.Floor else -((-v).Floor);
    if t > I32Max then I32Max else if t < I32Min then I32Min else t
  }

  /** Half of a non-negative pixel count, cast back to a pixel, stays
      below the count. */
  lemma HalfBelow(n: int)
    requires 1 <= n <= I32Max
    ensures 0 <= CastI32(0.5 * n as real) < n
  {
    var v := 0.5 * n as real;
    assert 0.0 <= v < I32Max as real;
  }

  // ---------------------------------------------------------------------
  // The pane under a click

  /** The (size, split) pairs the workspace knows how to lay out. */
  predicate Laid(size: nat, split: GroupSplit)
  {
    size == 1 || size == 4
    || (size == 2 && (split.Horizontal? || split.Vertical?))
    || (size == 3 && (split.ThreeLeft? || split.ThreeTop? || split.ThreeRight? || split.ThreeBottom?))
  }

  /** updated_active_area, once the click is reduced to whether it is left
      of the vertical divider and above the horizontal one. */
  function ActiveArea(size: nat, split: GroupSplit, xLeft: bool, yTop: bool): (r: Outcome<nat>)
    ensures r.Returned? <==> Laid(size, split)
    ensures r.Returned? ==> r.value < size
    ensures size == 1 ==> r == Returned(0)
    ensures size == 4 ==> r == Returned((if xLeft then 0 else 1) + (if yTop then 0 else 2))
  {
    match (size, split)
    case (1, _) => Returned(0)
    case (2, Horizontal) => Returned(if xLeft then 0 else 1)
    case (2, Vertical) => Returned(if yTop then 0 else 1)
    case (3, ThreeLeft) =>
      if xLeft then Returned(0) else if yTop then Returned(1) else Returned(2)
    case (3, ThreeTop) =>
      if yTop then Returned(0) else if xLeft then Returned(1) else Returned(2)
    case (3, ThreeRight) =>
      if !xLeft then Returned(1) else if yTop then Returned(0) else Returned(2)
    case (3, ThreeBottom) =>
      if !yTop then Returned(2) else if xLeft then Returned(0) else Returned(1)
    case (4, _) =>
      if xLeft && yTop then Returned(0)
      else if yTop then Returned(1)
      else if xLeft then Returned(2)
      else Returned(3)
    case _ => Panic
  }

  /** With two panes, a horizontal split looks only at the column of the
      click and a vertical split only at its row. */
  lemma TwoPanesIndependent(xLeft: bool, yTop: bool, xLeft': bool, yTop': bool)
    ensures ActiveArea(2, Horizontal, xLeft, yTop) == ActiveArea(2, Horizontal, xLeft, yTop')
    ensures ActiveArea(2, Vertical, xLeft, yTop) == ActiveArea(2, Vertical, xLeft', yTop)
    ensures ActiveArea(2, Horizontal, xLeft, yTop) == Returned(if xLeft then 0 else 1)
    ensures ActiveArea(2, Vertical, xLeft, yTop) == Returned(if yTop then 0 else 1)
  {
  }

  /** Each three-pane split sends the side that holds the single large
      pane to that pane, whatever the other coordinate. */
  lemma ThreePanesLargePane(xLeft: bool, yTop: bool)
    ensures ActiveArea(3, ThreeLeft, true, yTop) == Returned(0)
    ensures ActiveArea(3, ThreeTop, xLeft, true) == Returned(0)
    ensures ActiveArea(3, ThreeRight, false, yTop) == Returned(1)
    ensures ActiveArea(3, ThreeBottom, xLeft, false) == Returned(2)
  {
  }

  /** The two tests of a click at (x, y) in a w by h allocation whose
      dividers sit at the given ratios. */
  function ClickArea(size: nat, split: GroupSplit, x: int, y: int, w: int, h: int, hRatio: real, vRatio: real): Outcome<nat>
  {
    ActiveArea(size, split, x < CastI32(w as real * hRatio), y < CastI32(h as real * vRatio))
  }

  // ---------------------------------------------------------------------
  // The centre of a pane

  /** The pixel positions get_active_coords derives from the allocation:
      the middle of the whole width and height, the dividers, and the
      middle of the part before and after each divider. */
  datatype Marks = Marks(halfFullH: int, halfFullV: int, horiz: int, halfH: int, halfHCompl: int,
                         vert: int, halfV: int, halfVCompl: int)

  function MarksOf(w: int, h: int, hRatio: real, vRatio: real): (m: Marks)
    ensures m.horiz == CastI32(w as real * hRatio) && m.vert == CastI32(h as real * vRatio)
  {
    var horiz := CastI32(w as real * hRatio);
    var horizCompl := CastI32(w as real * (1.0 - hRatio));
    var vert := CastI32(h as real * vRatio);
    var vertCompl := CastI32(h as real * (1.0 - vRatio));
    Marks(CastI32(w as real * 0.5), CastI32(h as real * 0.5),
          horiz, CastI32(0.5 * horiz as real), horiz + CastI32(0.5 * horizCompl as real),
          vert, CastI32(0.5 * vert as real), vert + CastI32(0.5 * vertCompl as real))
  }

  /** get_active_coords: the point of the active pane where the popover
      opens, with the allocation it was computed from. */
  function ActiveCoords(size: nat, split: GroupSplit, area: nat, w: int, h: int, hRatio: real, vRatio: real): (r: Outcome<(int, int, int, int)>)
    ensures r.Returned? ==> r.value.2 == w && r.value.3 == h
  {
    var m := MarksOf(w, h, hRatio, vRatio);
    var at := (x: int, y: int) => Returned((x, y, w, h));
    match (size, split, area)
    case (1, _, _) => at(m.halfFullH, m.halfFullV)
    case (2, Horizontal, 0) => at(m.halfH, m.halfFullV)
    case (2, Horizontal, 1) => at(m.halfHCompl, m.halfFullV)
    case (2, Vertical, 0) => at(m.halfFullH, m.halfV)
    case (2, Vertical, 1) => at(m.halfFullH, m.halfVCompl)
    case (3, ThreeLeft, 0) => at(m.halfH, m.halfFullV)
    case (3, ThreeLeft, 1) => at(m.halfHCompl, m.halfV)
    case (3, ThreeLeft, 2) => at(m.halfHCompl, m.halfVCompl)
    case (3, ThreeTop, 0) => at(m.halfFullH, m.halfV)
    case (3, ThreeTop, 1) => at(m.halfH, m.halfVCompl)
    case (3, ThreeTop, 2) => at(m.halfHCompl, m.halfVCompl)
    case (3, ThreeRight, 0) => at(m.halfH, m.halfV)
    case (3, ThreeRight, 1) => at(m.halfHCompl, m.halfFullV)
    case (3, ThreeRight, 2) => at(m.halfH, m.halfVCompl)
    case (3, ThreeBottom, 0) => at(m.halfH, m.halfV)
    case (3, ThreeBottom, 1) => at(m.halfHCompl, m.halfV)
    case (3, ThreeBottom, 2) => at(m.halfFullH, m.halfVCompl)
    case (4, _, 0) => at(m.halfH, m.halfV)
    case (4, _, 1) => at(m.halfHCompl, m.halfV)
    case (4, _, 2) => at(m.halfH, m.halfVCompl)
    case (4, _, 3) => at(m.halfHCompl, m.halfVCompl)
    case _ => Panic
  }

  /** get_active_coords panics on exactly the layouts updated_active_area
      panics on, and on a pane the layout does not have, except that a
      single plot ignores the pane index. */
  lemma ActiveCoordsDefined(size: nat, split: GroupSplit, area: nat, w: int, h: int, hRatio: real, vRatio: real)
    ensures ActiveCoords(size, split, area, w, h, hRatio, vRatio).Returned? <==> Laid(size, split) && (size == 1 || area < size)
  {
  }

  /** The allocation is not degenerate: both dividers lie inside it at
      least one pixel away from its start. */
  predicate Proper(w: int, h: int, hRatio: real, vRatio: real)
  {
    0 <= w <= I32Max && 0 <= h <= I32Max && 0.0 <= hRatio <= 1.0 && 0.0 <= vRatio <= 1.0
    && CastI32(w as real * hRatio) >= 1 && CastI32(h as real * vRatio) >= 1
  }

  /** A click at the point where the popover of a pane opens selects that
      pane again. */
  lemma CoordsSelectTheirArea(size: nat, split: GroupSplit, area: nat, w: int, h: int, hRatio: real, vRatio: real)
    requires Proper(w, h, hRatio, vRatio) && Laid(size, split) && area < size
    ensures ActiveCoords(size, split, area, w, h, hRatio, vRatio).Returned?
    ensures var c := ActiveCoords(size, split, area, w, h, hRatio, vRatio).value;
            ClickArea(size, split, c.0, c.1, w, h, hRatio, vRatio) == Returned(area)
  {
    var m := MarksOf(w, h, hRatio, vRatio);
    MarksSides(w, h, hRatio, vRatio);
    ActiveCoordsDefined(size, split, area, w, h, hRatio, vRatio);
  }

  /** The middle of the part before a divider is before it, the middle of
      the part after it is not. */
  lemma MarksSides(w: int, h: int, hRatio: real, vRatio: real)
    requires Proper(w, h, hRatio, vRatio)
    ensures var m := MarksOf(w, h, hRatio, vRatio);
            m.halfH < m.horiz <= m.halfHCompl && m.halfV < m.vert <= m.halfVCompl
  {
    var m := MarksOf(w, h, hRatio, vRatio);
    HalfBelow(m.horiz);
    HalfBelow(m.vert);
    AfterDivider(w, hRatio, m.horiz, m.halfHCompl);
    AfterDivider(h, vRatio, m.vert, m.halfVCompl);
  }

  /** The middle of the part after a divider is not before the divider. */
  lemma AfterDivider(n: int, ratio: real, divider: int, mid: int)
    requires 0 <= n && ratio <= 1.0
    requires mid == divider + CastI32(0.5 * CastI32(n as real * (1.0 - ratio)) as real)
    ensures divider <= mid
  {
    var f := 1.0 - ratio;
    assert 0.0 <= n as real * f by {
      assert 0.0 <= f;
    }
    var compl := CastI32(n as real * f);
    assert 0 <= compl;
    assert 0.0 <= 0.5 * compl as real;
  }
}

/** A mapping's data source and the two workspace steps that use it: binding
    it to columns of the table environment, and pushing those columns to the
    plot as the data of the mapping. */
module DataSources {
  import opened Wrappers
  import opened TableColumns
  import Tables

  /** DataSource: the mapping it feeds (name, type, plot), the table it was
      taken from, the selected columns by global and by table index, their
      names, the query that produced them, and the environment history
      entry it was taken at. */
  datatype DataSource = DataSource(
    name: string, ty: string, plotIx: nat,
    tblPos: Option<nat>, ixs: seq<nat>, tblIxs: seq<nat>,
    colNames: seq<string>, query: string, histIx: nat, valid: bool)

  const DefaultSource := DataSource("", "", 0, None, [], [], [], "", 0, false)

  /** What the table environment answers about a selection of global
      column indices: whether nothing changed since a history entry, the
      names, table and query of the selection, the current history entry,
      and the table-local indices. */
  datatype EnvView = EnvView(
    preservedSince: nat -> bool,
    columnNames: seq<nat> -> Option<(seq<string>, nat, string)>,
    currentHistIx: nat,
    globalToTblIx: seq<nat> -> Option<(nat, seq<nat>)>)

  datatype SourceUpdate = SourceUpdate(source: DataSource, result: Result<()>)

  const NotPreserved := "Environment was updated and data is no longer available"
  const NoTableData := "Unable to retrieve table data"
  const NoLocalIxs := "Failed to convert global to local indices"

  /** update_source, on the data source as a value: the source afterwards
      and the answer. */
  function UpdateSource(s: DataSource, newIxs: seq<nat>, env: EnvView): (r: SourceUpdate)
    ensures !env.preservedSince(s.histIx) ==> r == SourceUpdate(s.(valid := false), Err(NotPreserved))
    ensures env.preservedSince(s.histIx) ==> r.source.ixs == newIxs
    ensures env.preservedSince(s.histIx) && env.columnNames(newIxs).None? ==>
      r == SourceUpdate(s.(ixs := newIxs), Err(NoTableData))
    ensures r.result.Ok? <==> env.preservedSince(s.histIx) && env.columnNames(newIxs).Some? && env.globalToTblIx(newIxs).Some?
    ensures env.preservedSince(s.histIx) && env.columnNames(newIxs).Some? ==>
      var (names, tbl, query) := env.columnNames(newIxs).value;
      r.source.valid && r.source.tblPos == Some(tbl) && r.source.histIx == env.currentHistIx
      && r.source.colNames == names && r.source.query == query
      && r.source.tblIxs == (if r.result.Ok? then env.globalToTblIx(newIxs).value.1 else s.tblIxs)
      && (r.result.Err? ==> r.result == Err(NoLocalIxs))
    ensures r.source.name == s.name && r.source.ty == s.ty && r.source.plotIx == s.plotIx
  {
    if !env.preservedSince(s.histIx) then
      SourceUpdate(s.(valid := false), Err(NotPreserved))
    else
      var s1 := s.(ixs := newIxs);
      match env.columnNames(newIxs)
      case None => SourceUpdate(s1, Err(NoTableData))
      case Some((names, tbl, query)) =>
        var s2 := s1.(colNames := names, query := query, tblPos := Some(tbl), histIx := env.currentHistIx, valid := true);
        match env.globalToTblIx(newIxs)
        case Some((_, tblIxs)) => SourceUpdate(s2.(tblIxs := tblIxs), Ok(()))
        case None => SourceUpdate(s2, Err(NoLocalIxs))
  }

  /** Binding a source again to the same columns, while the environment
      has not changed since the first binding, changes nothing. */
  lemma UpdateSourceIdempotent(s: DataSource, newIxs: seq<nat>, env: EnvView)
    requires UpdateSource(s, newIxs, env).result.Ok?
    requires env.preservedSince(env.currentHistIx)
    ensures var once := UpdateSource(s, newIxs, env).source;
            UpdateSource(once, newIxs, env) == SourceUpdate(once, Ok(()))
  {
  }

  /** A source the environment has moved past stays invalid, and keeps its
      columns, however often it is bound again. */
  lemma UpdateSourceStale(s: DataSource, a: seq<nat>, b: seq<nat>, env: EnvView)
    requires !env.preservedSince(s.histIx)
    ensures var once := UpdateSource(s, a, env);
            !once.source.valid && once.source.ixs == s.ixs
            && UpdateSource(once.source, b, env) == once
  {
  }

  // ---------------------------------------------------------------------
  // Pushing the columns to the plot

  /** The messages update_data sends to the plot view. */
  datatype Sent =
    | ColumnNamesSent(mapping: string, names: seq<string>)
    | SourceSent(mapping: string, query: string)
    | DataSent(mapping: string, data: seq<seq<real>>)
    | TextDataSent(mapping: string, data: seq<seq<real>>, text: seq<string>)

  /** How many numeric columns each mapping type takes; zero for a type
      the workspace does not know. */
  function Arity(ty: string): (n: nat)
    ensures n <= 3
  {
    match ty
    case "bar" => 1
    case "line" => 2
    case "scatter" => 2
    case "text" => 2
    case "area" => 3
    case "surface" => 3
    case _ => 0
  }

  /** The columns a mapping type takes from the selection: its numeric
      columns, and the text column of a text mapping. */
  function ColumnsTaken(ty: string): nat
  {
    Arity(ty) + (if ty == "text" then 1 else 0)
  }

  /** try_numeric succeeds on column ix. */
  predicate NumericOk(cs: Tables.Columns, ix: nat, toF64: real -> Option<real>)
  {
    ix < |cs.cols| && Tables.NumericKind(cs.cols[ix])
    && (cs.cols[ix].Numeric? ==> forall i :: 0 <= i < Len(cs.cols[ix]) ==> toF64(cs.cols[ix].decimals[i]).Some?)
  }

  /** v is column ix read as numbers. */
  predicate ReadsAs(cs: Tables.Columns, ix: nat, toF64: real -> Option<real>, v: seq<real>)
  {
    ix < |cs.cols| && |v| == Len(cs.cols[ix])
    && forall i :: 0 <= i < |v| ==> Tables.NumberAt(cs.cols[ix], i, toF64) == Some(v[i])
  }

  /** Every column the mapping type takes reads as numbers, and a text
      mapping's third column holds strings. */
  predicate Feeds(ty: string, cs: Tables.Columns, toF64: real -> Option<real>)
  {
    Arity(ty) > 0
    && (forall i: nat :: i < Arity(ty) ==> NumericOk(cs, i, toF64))
    && (ty == "text" ==> Tables.TryAccess(cs, 2, TryStrs).Some?)
  }

  /** The error update_data returns when `Feeds` fails, with column 0
      already read. */
  function FeedError(ty: string, cs: Tables.Columns, toF64: real -> Option<real>): string
  {
    match ty
    case "text" => if !NumericOk(cs, 1, toF64) then "Error mapping column 2 to position" else "Error setting third column to text"
    case "line" => "Error retrieving second column to position"
    case "scatter" => "Error retrieving second column to position"
    case "area" => if !NumericOk(cs, 1, toF64) then "Error mapping column 2 to y inferior limit" else "Error mapping column 3 to y superior limit"
    case "surface" => if !NumericOk(cs, 1, toF64) then "Error mapping column 2 to y inferior limit" else "Error mapping column 3 to density"
    case _ => "Invalid mapping type"
  }

  /** update_data, with `cols` and `query` the environment's answer for the
      source's columns: the messages sent to the plot, in order, and the
      answer. */
  method UpdateData(s: DataSource, cols: Tables.Columns, query: string, toF64: real -> Option<real>)
    returns (sent: seq<Sent>, r: Result<()>)
    ensures |s.ixs| == 0 ==> sent == [] && r == Ok(())
    ensures |s.ixs| > 0 && !NumericOk(cols, 0, toF64) ==> sent == [] && r == Err("Error mapping column 1 to position")
    ensures |s.ixs| > 0 && NumericOk(cols, 0, toF64) ==>
      2 <= |sent| <= 3 && sent[0] == ColumnNamesSent(s.name, s.colNames) && sent[1] == SourceSent(s.name, query)
    ensures r.Ok? <==> |s.ixs| == 0 || Feeds(s.ty, cols, toF64)
    ensures r.Err? ==> |sent| <= 2 && (NumericOk(cols, 0, toF64) ==> r == Err(FeedError(s.ty, cols, toF64)))
    ensures r.Ok? && |s.ixs| > 0 ==>
      |sent| == 3 && sent[2].mapping == s.name && !sent[2].ColumnNamesSent? && !sent[2].SourceSent?
      && |sent[2].data| == Arity(s.ty)
      && (forall i :: 0 <= i < |sent[2].data| ==> ReadsAs(cols, i, toF64, sent[2].data[i]))
      && (sent[2].TextDataSent? <==> s.ty == "text")
      && (sent[2].TextDataSent? ==> Tables.TryAccess(cols, 2, TryStrs) == Some(sent[2].text))
  {
    if |s.ixs| == 0 {
      return [], Ok(());
    }
    var pos0 := Tables.TryNumeric(cols, 0, toF64);
    if pos0.None? {
      return [], Err("Error mapping column 1 to position");
    }
    sent := [ColumnNamesSent(s.name, s.colNames), SourceSent(s.name, query)];
    match s.ty {
      case "text" =>
        var pos1 := Tables.TryNumeric(cols, 1, toF64);
        if pos1.None? {
          assert !NumericOk(cols, 1, toF64);
          return sent, Err("Error mapping column 2 to position");
        }
        var txt := Tables.TryAccess(cols, 2, TryStrs);
        if txt.None? {
          return sent, Err("Error setting third column to text");
        }
        sent := sent + [TextDataSent(s.name, [pos0.value, pos1.value], txt.value)];
      case "line" =>
        sent, r := TwoColumns(s, cols, toF64, pos0.value, sent);
        return;
      case "scatter" =>
        sent, r := TwoColumns(s, cols, toF64, pos0.value, sent);
        return;
      case "bar" =>
        sent := sent + [DataSent(s.name, [pos0.value])];
      case "area" =>
        sent, r := ThreeColumns(s, cols, toF64, pos0.value, sent, "Error mapping column 3 to y superior limit");
        return;
      case "surface" =>
        sent, r := ThreeColumns(s, cols, toF64, pos0.value, sent, "Error mapping column 3 to density");
        return;
      case _ =>
        return sent, Err("Invalid mapping type");
    }
    return sent, Ok(());
  }

  /** The line and scatter arm: a second numeric column. */
  method TwoColumns(s: DataSource, cols: Tables.Columns, toF64: real -> Option<real>, pos0: seq<real>, before: seq<Sent>)
    returns (sent: seq<Sent>, r: Result<()>)
    requires ReadsAs(cols, 0, toF64, pos0)
    ensures r.Ok? <==> NumericOk(cols, 1, toF64)
    ensures r.Err? ==> sent == before && r == Err("Error retrieving second column to position")
    ensures r.Ok? ==>
      (|sent| == |before| + 1 && sent[..|before|] == before
       && sent[|before|].DataSent? && sent[|before|].mapping == s.name && |sent[|before|].data| == 2
       && forall i :: 0 <= i < 2 ==> ReadsAs(cols, i, toF64, sent[|before|].data[i]))
  {
    var pos1 := Tables.TryNumeric(cols, 1, toF64);
    if pos1.None? {
      return before, Err("Error retrieving second column to position");
    }
    sent := before + [DataSent(s.name, [pos0, pos1.value])];
    r := Ok(());
  }

  /** The area and surface arms: a lower limit and a third numeric column. */
  method ThreeColumns(s: DataSource, cols: Tables.Columns, toF64: real -> Option<real>, pos0: seq<real>, before: seq<Sent>, third: string)
    returns (sent: seq<Sent>, r: Result<()>)
    requires ReadsAs(cols, 0, toF64, pos0)
    ensures r.Ok? <==> NumericOk(cols, 1, toF64) && NumericOk(cols, 2, toF64)
    ensures r.Err? ==>
      (sent == before
       && r == Err(if !NumericOk(cols, 1, toF64) then "Error mapping column 2 to y inferior limit" else third))
    ensures r.Ok? ==>
      (|sent| == |before| + 1 && sent[..|before|] == before
       && sent[|before|].DataSent? && sent[|before|].mapping == s.name && |sent[|before|].data| == 3
       && forall i :: 0 <= i < 3 ==> ReadsAs(cols, i, toF64, sent[|before|].data[i]))
  {
    var pos1 := Tables.TryNumeric(cols, 1, toF64);
    if pos1.None? {
      return before, Err("Error mapping column 2 to y inferior limit");
    }
    var pos2 := Tables.TryNumeric(cols, 2, toF64);
    if pos2.None? {
      return before, Err(third);
    }
    sent := before + [DataSent(s.name, [pos0, pos1.value, pos2.value])];
    r := Ok(());
  }
}
