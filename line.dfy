/** A line mapping: x and y vectors joined by dashed segments. */
module LineMappings {
  import opened Wrappers
  import opened MappingKinds
  import opened ContextMapping
  import opened Primitives

  /** The layout properties a line mapping reads from its XML node, already parsed. */
  datatype LineLayout = LineLayout(color: Rgba, width: real, dash: int, x: string, y: string)

  /** build_dash: n - 1 dashes (none when n <= 1), each 10 / n long. */
  method BuildDash(n: int) returns (dashes: seq<real>)
    ensures |dashes| == if n <= 1 then 0 else n - 1
    ensures forall i :: 0 <= i < |dashes| ==> dashes[i] == 10.0 / (n as real)
  {
    dashes := [];
    var i := 1;
    while i < n
      invariant n <= 1 ==> i == 1
      invariant n > 1 ==> 1 <= i <= n
      invariant |dashes| == i - 1
      invariant forall k :: 0 <= k < |dashes| ==> dashes[k] == 10.0 / (n as real)
    {
      dashes := dashes + [10.0 / (n as real)];
      i := i + 1;
    }
  }

  class LineMapping {
    var color: Rgba
    var x: seq<real>
    var y: seq<real>
    var width: real
    var dashN: int
    const colNames: array<string>
    var source: string

    predicate Valid()
      reads this
    {
      colNames.Length == 2
    }

    /** LineMapping::new: empty data and source, then the layout applied. */
    constructor (layout: LineLayout)
      ensures Valid() && fresh(colNames)
      ensures colNames[..] == [layout.x, layout.y]
      ensures color == layout.color && width == layout.width && dashN == layout.dash
      ensures x == [] && y == [] && source == ""
    {
      x, y := [], [];
      source := "";
      var names := new string[2](_ => "None");
      names[0], names[1] := layout.x, layout.y;
      colNames := names;
      color := layout.color;
      width := layout.width;
      dashN := layout.dash;
    }

    /** draw: walks the points pairwise, stroking (prev, curr) whenever curr is
        in bounds; prev moves on at every point, drawn or not. */
    method Draw(mapper: ContextMapper) returns (segs: seq<Segment>)
      ensures segs == Strokes(mapper, Zip(x, y))
    {
      var pts := Zip(x, y);
      segs := [];
      if |pts| == 0 {
        return;
      }
      var prev := pts[0];
      var i := 1;
      while i < |pts|
        invariant 1 <= i <= |pts|
        invariant prev == pts[i - 1]
        invariant segs == Strokes(mapper, pts[..i])
      {
        var curr := pts[i];
        assert pts[..i + 1][..i] == pts[..i];
        if mapper.CheckBounds(curr.x, curr.y) {
          segs := segs + [Segment(prev, curr)];
        }
        prev := curr;
        i := i + 1;
      }
      assert pts[..i] == pts;
    }

    /** update_data: x and y from the first two vectors (the program aborts on fewer). */
    method UpdateData(values: seq<seq<real>>)
      requires |values| >= 2
      modifies this
      ensures x == values[0] && y == values[1]
      ensures color == old(color) && width == old(width) && dashN == old(dashN) && source == old(source)
    {
      x := values[0];
      y := values[1];
    }

    method UpdateLayout(layout: LineLayout)
      requires Valid()
      modifies this, colNames
      ensures Valid() && colNames[..] == [layout.x, layout.y]
      ensures color == layout.color && width == layout.width && dashN == layout.dash
      ensures x == old(x) && y == old(y) && source == old(source)
    {
      color := layout.color;
      width := layout.width;
      dashN := layout.dash;
      colNames[0], colNames[1] := layout.x, layout.y;
    }

    /** properties: the default table with colour, width, dash and the column
        names filled in; the source entry keeps its default. */
    method Properties() returns (props: map<string, PropVal>)
      requires Valid()
      ensures props.Keys == CommonKeys + KindKeys(Line)
      ensures props["color"] == Color(color) && props["width"] == Num(width) && props["dash"] == Int(dashN)
      ensures props["x"] == Str(colNames[0]) && props["y"] == Str(colNames[1])
      ensures props["source"] == Str("None")
    {
      var d := DefaultHash(Line);
      props := map k | k in d.Keys :: Str(d[k]);
      props := props["color" := Color(color)];
      props := props["width" := Num(width)];
      props := props["dash" := Int(dashN)];
      props := props["x" := Str(colNames[0])];
      props := props["y" := Str(colNames[1])];
    }

    /** get_col_name: x and y name slots 0 and 1; anything else is "". */
    function GetColName(col: string): (name: string)
      requires Valid()
      reads this, colNames
      ensures col !in {"x", "y"} ==> name == ""
    {
      match col
      case "x" => colNames[0]
      case "y" => colNames[1]
      case _ => ""
    }

    method SetColName(col: string, name: string)
      requires Valid()
      modifies colNames
      ensures col in {"x", "y"} ==> GetColName(col) == name
      ensures forall c :: c != col ==> GetColName(c) == old(GetColName(c))
    {
      match col
      case "x" => colNames[0] := name;
      case "y" => colNames[1] := name;
      case _ =>
    }

    /** set_col_names: exactly two names; any other count is refused and nothing changes. */
    method SetColNames(cols: seq<string>) returns (r: Result<()>)
      requires Valid()
      modifies colNames
      ensures r.Ok? <==> |cols| == 2
      ensures r.Err? ==> r.msg == "Wrong number of columns." && colNames[..] == old(colNames[..])
      ensures r.Ok? ==> colNames[..] == cols
    {
      if |cols| != 2 {
        return Err("Wrong number of columns.");
      }
      SetColName("x", cols[0]);
      SetColName("y", cols[1]);
      assert colNames[..] == cols;
      return Ok(());
    }

    method SetSource(s: string)
      modifies this
      ensures GetSource() == s
      ensures color == old(color) && x == old(x) && y == old(y) && width == old(width) && dashN == old(dashN)
    {
      source := s;
    }

    function GetSource(): string
      reads this
    {
      source
    }
  }

  /** Drawing empty data strokes nothing, and every stroke ends at an in-bounds point. */
  lemma {:induction false} DrawSelection(mapper: ContextMapper, xs: seq<real>, ys: seq<real>, s: Segment)
    ensures |xs| == 0 ==> Strokes(mapper, Zip(xs, ys)) == []
    ensures s in Strokes(mapper, Zip(xs, ys)) ==> InBounds(mapper, s.to)
  {
    StrokesExact(mapper, Zip(xs, ys), s);
  }
}
