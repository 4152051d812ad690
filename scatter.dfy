/** A scatter mapping: one disc per (x, y) pair. */
module ScatterMappings {
  import opened Wrappers
  import opened MappingKinds
  import opened ContextMapping
  import opened Primitives

  /** The layout properties a scatter mapping reads from its XML node, already parsed. */
  datatype ScatterLayout = ScatterLayout(color: Rgba, radius: real, x: string, y: string)

  class ScatterMapping {
    var color: Rgba
    var x: seq<real>
    var y: seq<real>
    var radius: real
    const colNames: array<string>
    var source: string

    predicate Valid()
      reads this
    {
      colNames.Length == 2
    }

    /** ScatterMapping::new: empty data and source, then the layout applied. */
    constructor (layout: ScatterLayout)
      ensures Valid() && fresh(colNames)
      ensures colNames[..] == [layout.x, layout.y]
      ensures color == layout.color && radius == layout.radius
      ensures x == [] && y == [] && source == ""
    {
      x, y := [], [];
      source := "";
      var names := new string[2](_ => "None");
      names[0], names[1] := layout.x, layout.y;
      colNames := names;
      color := layout.color;
      radius := layout.radius;
    }

    /** draw: the centres of the discs, one per zipped pair that passes check_bounds. */
    method Draw(mapper: ContextMapper) returns (discs: seq<Point>)
      ensures discs == Visible(mapper, Zip(x, y))
    {
      var pts := Zip(x, y);
      discs := [];
      var i := 0;
      while i < |pts|
        invariant 0 <= i <= |pts|
        invariant discs == Visible(mapper, pts[..i])
      {
        assert pts[..i + 1][..i] == pts[..i];
        if mapper.CheckBounds(pts[i].x, pts[i].y) {
          discs := discs + [pts[i]];
        }
        i := i + 1;
      }
      assert pts[..i] == pts;
    }

    /** update_data: x and y from the first two vectors (the program aborts on fewer). */
    method UpdateData(values: seq<seq<real>>)
      requires |values| >= 2
      modifies this
      ensures x == values[0] && y == values[1]
      ensures color == old(color) && radius == old(radius) && source == old(source)
    {
      x := values[0];
      y := values[1];
    }

    method UpdateLayout(layout: ScatterLayout)
      requires Valid()
      modifies this, colNames
      ensures Valid() && colNames[..] == [layout.x, layout.y]
      ensures color == layout.color && radius == layout.radius
      ensures x == old(x) && y == old(y) && source == old(source)
    {
      color := layout.color;
      radius := layout.radius;
      colNames[0], colNames[1] := layout.x, layout.y;
    }

    /** properties: the default table with colour, radius and the column names
        filled in; the source entry keeps its default. */
    method Properties() returns (props: map<string, PropVal>)
      requires Valid()
      ensures props.Keys == CommonKeys + KindKeys(Scatter)
      ensures props["color"] == Color(color) && props["radius"] == Num(radius)
      ensures props["x"] == Str(colNames[0]) && props["y"] == Str(colNames[1])
      ensures props["source"] == Str("None")
    {
      var d := DefaultHash(Scatter);
      props := map k | k in d.Keys :: Str(d[k]);
      props := props["color" := Color(color)];
      props := props["radius" := Num(radius)];
      props := props["x" := Str(colNames[0])];
      props := props["y" := Str(colNames[1])];
    }

    /** get_col_name: x and y name slots 0 and 1; anything else is "". */
    function GetColName(col: string): (name: string)
      requires Valid()
      reads this, colNames
      ensures col !in {"x", "y"} ==> name == ""
    {
      match col
      case "x" => colNames[0]
      case "y" => colNames[1]
      case _ => ""
    }

    method SetColName(col: string, name: string)
      requires Valid()
      modifies colNames
      ensures col in {"x", "y"} ==> GetColName(col) == name
      ensures forall c :: c != col ==> GetColName(c) == old(GetColName(c))
    {
      match col
      case "x" => colNames[0] := name;
      case "y" => colNames[1] := name;
      case _ =>
    }

    /** set_col_names: exactly two names; any other count is refused and nothing changes. */
    method SetColNames(cols: seq<string>) returns (r: Result<()>)
      requires Valid()
      modifies colNames
      ensures r.Ok? <==> |cols| == 2
      ensures r.Err? ==> r.msg == "Wrong number of columns." && colNames[..] == old(colNames[..])
      ensures r.Ok? ==> colNames[..] == cols
    {
      if |cols| != 2 {
        return Err("Wrong number of columns.");
      }
      SetColName("x", cols[0]);
      SetColName("y", cols[1]);
      assert colNames[..] == cols;
      return Ok(());
    }

    method SetSource(s: string)
      modifies this
      ensures GetSource() == s
      ensures color == old(color) && x == old(x) && y == old(y) && radius == old(radius)
    {
      source := s;
    }

    function GetSource(): string
      reads this
    {
      source
    }
  }

  /** A disc is drawn for a pair exactly when the pair is in the data and in bounds. */
  lemma {:induction false} DrawSelection(mapper: ContextMapper, xs: seq<real>, ys: seq<real>, i: nat)
    requires i < |xs| && i < |ys|
    ensures Point(xs[i], ys[i]) in Visible(mapper, Zip(xs, ys)) <==> mapper.CheckBounds(xs[i], ys[i])
  {
    var pts := Zip(xs, ys);
    assert pts[i] == Point(xs[i], ys[i]);
    VisibleExact(mapper, pts, pts[i]);
  }
}
