/** An area mapping: the region between a lower (ymin) and an upper (ymax)
    curve over the same x values. */
module AreaMappings {
  import opened Wrappers
  import opened MappingKinds
  import opened ContextMapping
  import opened Primitives

  /** The layout properties an area mapping reads from its XML node, already parsed. */
  datatype AreaLayout = AreaLayout(color: Rgba, opacity: real, x: string, y: string, ymax: string)

  /** The path operations draw issues, in data coordinates. */
  datatype PathOp = MoveTo(p: Point) | LineTo(p: Point) | ClosePath | FillPath

  /** draw_bound: for each pair of consecutive points, a line to the second
      when both are in bounds. */
  function BoundLines(mapper: ContextMapper, pts: seq<Point>): (ops: seq<PathOp>)
    reads mapper
  {
    if |pts| <= 1 then []
    else
      var last := pts[|pts| - 1];
      var step := if InBounds(mapper, pts[|pts| - 2]) && InBounds(mapper, last) then [LineTo(last)] else [];
      BoundLines(mapper, pts[..|pts| - 1]) + step
  }

  /** Each bound pass has at most one line per step and only lines to in-bounds points. */
  lemma {:induction false} BoundLinesShape(mapper: ContextMapper, pts: seq<Point>)
    ensures |BoundLines(mapper, pts)| <= if |pts| == 0 then 0 else |pts| - 1
    ensures forall op :: op in BoundLines(mapper, pts) ==> op.LineTo? && op.p in pts && InBounds(mapper, op.p)
    decreases |pts|
  {
    if |pts| > 1 {
      BoundLinesShape(mapper, pts[..|pts| - 1]);
      assert forall p :: p in pts[..|pts| - 1] ==> p in pts;
    }
  }

  function Reverse(s: seq<real>): (r: seq<real>)
    ensures |r| == |s| && forall i :: 0 <= i < |s| ==> r[i] == s[|s| - 1 - i]
  {
    seq(|s|, i requires 0 <= i < |s| => s[|s| - 1 - i])
  }

  /** draw: nothing for empty x; an abort when x has values but ymin has none;
      otherwise the lower curve left to right, up to the last upper point,
      the upper curve right to left and back to the start, closed and filled.
      Without upper values the path is left unfilled. */
  function Outline(mapper: ContextMapper, x: seq<real>, ymin: seq<real>, ymax: seq<real>): (r: Outcome<seq<PathOp>>)
    reads mapper
    ensures |x| == 0 ==> r == Returned([])
    ensures |x| > 0 && |ymin| == 0 ==> r.Panic?
    ensures r.Returned? && |x| > 0 ==> |r.value| > 0 && r.value[0] == MoveTo(Point(x[0], ymin[0]))
    ensures r.Returned? && |ymax| > 0 && |x| > 0 ==> (|r.value| >= 4
      && r.value[|r.value| - 1] == FillPath && r.value[|r.value| - 2] == ClosePath
      && r.value[|r.value| - 3] == LineTo(Point(x[0], ymin[0])))
    ensures r.Returned? && |ymax| == 0 ==> FillPath !in r.value
  {
    if |x| == 0 then Returned([])
    else if |ymin| == 0 then Panic
    else
      var lower := [MoveTo(Point(x[0], ymin[0]))] + BoundLines(mapper, Zip(x, ymin));
      if |ymax| == 0 then
        BoundLinesShape(mapper, Zip(x, ymin));
        Returned(lower)
      else
        var turn := [LineTo(Point(x[|x| - 1], ymax[|ymax| - 1]))];
        var upper := BoundLines(mapper, Zip(Reverse(x), Reverse(ymax)));
        Returned(lower + turn + upper + [LineTo(Point(x[0], ymin[0])), ClosePath, FillPath])
  }

  class AreaMapping {
    var x: seq<real>
    var ymin: seq<real>
    var ymax: seq<real>
    var color: Rgba
    const colNames: array<string>

    predicate Valid()
      reads this
    {
      colNames.Length == 3
    }

    /** AreaMapping::new: empty data, then the layout applied. */
    constructor (layout: AreaLayout)
      ensures Valid() && fresh(colNames)
      ensures colNames[..] == [layout.x, layout.y, layout.ymax]
      ensures color == layout.color.(alpha := layout.opacity)
      ensures x == [] && ymin == [] && ymax == []
    {
      x, ymin, ymax := [], [], [];
      var names := new string[3](_ => "None");
      names[0], names[1], names[2] := layout.x, layout.y, layout.ymax;
      colNames := names;
      color := layout.color.(alpha := layout.opacity);
    }

    method Draw(mapper: ContextMapper) returns (r: Outcome<seq<PathOp>>)
      ensures r == Outline(mapper, x, ymin, ymax)
    {
      r := Outline(mapper, x, ymin, ymax);
    }

    /** update_data: x, ymin and ymax from the first three vectors (the program aborts on fewer). */
    method UpdateData(values: seq<seq<real>>)
      requires |values| >= 3
      modifies this
      ensures x == values[0] && ymin == values[1] && ymax == values[2]
      ensures color == old(color)
    {
      x := values[0];
      ymin := values[1];
      ymax := values[2];
    }

    /** update_layout: the colour is parsed, then its opacity replaced by the
        separate opacity property. */
    method UpdateLayout(layout: AreaLayout)
      requires Valid()
      modifies this, colNames
      ensures Valid() && colNames[..] == [layout.x, layout.y, layout.ymax]
      ensures color.alpha == layout.opacity
      ensures color.red == layout.color.red && color.green == layout.color.green && color.blue == layout.color.blue
      ensures x == old(x) && ymin == old(ymin) && ymax == old(ymax)
    {
      color := layout.color;
      color := color.(alpha := layout.opacity);
      colNames[0], colNames[1], colNames[2] := layout.x, layout.y, layout.ymax;
    }

    /** properties: the default table with colour, opacity (the colour's
        alpha) and the column names filled in. */
    method Properties() returns (props: map<string, PropVal>)
      requires Valid()
      ensures props.Keys == CommonKeys + KindKeys(Area)
      ensures props["color"] == Color(color) && props["opacity"] == Num(color.alpha)
      ensures props["x"] == Str(colNames[0]) && props["y"] == Str(colNames[1]) && props["ymax"] == Str(colNames[2])
      ensures props["source"] == Str("None")
    {
      var d := DefaultHash(Area);
      props := map k | k in d.Keys :: Str(d[k]);
      props := props["color" := Color(color)];
      props := props["opacity" := Num(color.alpha)];
      props := props["x" := Str(colNames[0])];
      props := props["y" := Str(colNames[1])];
      props := props["ymax" := Str(colNames[2])];
    }

    /** get_col_name: x, y and ymax name slots 0 to 2; anything else is "". */
    function GetColName(col: string): (name: string)
      requires Valid()
      reads this, colNames
      ensures col !in {"x", "y", "ymax"} ==> name == ""
    {
      match col
      case "x" => colNames[0]
      case "y" => colNames[1]
      case "ymax" => colNames[2]
      case _ => ""
    }

    /** get_ordered_col_names: (slot, column) for x and y, but (column, slot) for ymax. */
    function GetOrderedColNames(): (r: seq<(string, string)>)
      requires Valid()
      reads this, colNames
      ensures |r| == 3
      ensures r[0] == ("x", GetColName("x")) && r[1] == ("y", GetColName("y"))
      ensures r[2] == (GetColName("ymax"), "ymax")
    {
      [("x", GetColName("x")), ("y", GetColName("y")), (GetColName("ymax"), "ymax")]
    }

    method SetColName(col: string, name: string)
      requires Valid()
      modifies colNames
      ensures col in {"x", "y", "ymax"} ==> GetColName(col) == name
      ensures forall c :: c != col ==> GetColName(c) == old(GetColName(c))
    {
      match col
      case "x" => colNames[0] := name;
      case "y" => colNames[1] := name;
      case "ymax" => colNames[2] := name;
      case _ =>
    }

    /** set_col_names: exactly three names; any other count is refused and nothing changes. */
    method SetColNames(cols: seq<string>) returns (r: Result<()>)
      requires Valid()
      modifies colNames
      ensures r.Ok? <==> |cols| == 3
      ensures r.Err? ==> r.msg == "Wrong number of columns." && colNames[..] == old(colNames[..])
      ensures r.Ok? ==> colNames[..] == cols
    {
      if |cols| != 3 {
        return Err("Wrong number of columns.");
      }
      SetColName("x", cols[0]);
      SetColName("y", cols[1]);
      SetColName("ymax", cols[2]);
      assert colNames[..] == cols;
      return Ok(());
    }
  }
}
