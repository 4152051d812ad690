/** A bar mapping: one vector of bar lengths plus the positions and
    thicknesses derived from it.  Vertical bars grow along y from a row of x
    positions; horizontal bars are the mirror image with x/y and w/h swapped. */
module BarMappings {
  import opened Wrappers
  import opened MappingKinds

  /** The layout properties a bar mapping reads from its XML node, already parsed. */
  datatype BarLayout = BarLayout(color: Rgba, centerAnchor: bool, x: string, y: string,
                                 width: string, height: string, originX: real, originY: real,
                                 barWidth: real, barSpacing: real, horizontal: bool)

  /** Bar positions: `start + step * i`, moved back half a step when centred. */
  function Ramp(n: nat, start: real, step: real, centered: bool): (r: seq<real>)
    ensures |r| == n
    ensures forall i :: 0 <= i < n ==> r[i] == start + step * (i as real) - (if centered then step / 2.0 else 0.0)
  {
    seq(n, i requires 0 <= i < n => start + step * (i as real) - (if centered then step / 2.0 else 0.0))
  }

  function Constant(n: nat, v: real): (r: seq<real>)
    ensures |r| == n && forall i :: 0 <= i < n ==> r[i] == v
  {
    seq(n, _ => v)
  }

  /** Neighbouring bars are one spacing apart. */
  lemma RampSpacing(n: nat, start: real, step: real, centered: bool, i: nat)
    requires i + 1 < n
    ensures Ramp(n, start, step, centered)[i + 1] - Ramp(n, start, step, centered)[i] == step
  {
    var r := Ramp(n, start, step, centered);
    assert r[i + 1] == start + step * ((i as real) + 1.0) - (if centered then step / 2.0 else 0.0);
  }

  class BarMapping {
    var color: Rgba
    var centerAnchor: bool
    var x: seq<real>
    var y: seq<real>
    var h: seq<real>
    var w: seq<real>
    const colNames: array<string>
    var barWidth: real
    var origin: (real, real)
    var barSpacing: real
    var horizontal: bool

    predicate Valid()
      reads this
    {
      colNames.Length == 4
    }

    /** The data vector the bars are drawn from: widths when horizontal, heights otherwise. */
    function Lengths(): seq<real>
      reads this
    {
      if horizontal then w else h
    }

    /** The thickness every bar gets. */
    function Thickness(): real
      reads this`barSpacing, this`barWidth
    {
      barSpacing * barWidth / 100.0
    }

    /** BarMapping::new: empty data, then the layout applied. */
    constructor (layout: BarLayout)
      ensures Valid() && fresh(colNames)
      ensures colNames[..] == [layout.x, layout.y, layout.width, layout.height]
      ensures color == layout.color && centerAnchor == layout.centerAnchor
      ensures origin == (layout.originX, layout.originY) && barWidth == layout.barWidth
      ensures barSpacing == layout.barSpacing && horizontal == layout.horizontal
      ensures x == [] && y == [] && w == [] && h == []
    {
      color := Rgba(0.0, 0.0, 0.0, 0.0);
      centerAnchor := layout.centerAnchor;
      x, y, w, h := [], [], [], [];
      var names := new string[4](_ => "None");
      names[0], names[1], names[2], names[3] := layout.x, layout.y, layout.width, layout.height;
      colNames := names;
      color := layout.color;
      origin := (layout.originX, layout.originY);
      barWidth := layout.barWidth;
      barSpacing := layout.barSpacing;
      horizontal := layout.horizontal;
    }

    /** adjust_bar: positions and thicknesses are rebuilt from the lengths. */
    method AdjustBar()
      modifies this
      ensures !horizontal ==> (h == old(h) && x == Ramp(|h|, origin.0, barSpacing, centerAnchor)
        && y == Constant(|h|, origin.1) && w == Constant(|h|, Thickness()))
      ensures horizontal ==> (w == old(w) && y == Ramp(|w|, origin.1, barSpacing, centerAnchor)
        && x == Constant(|w|, origin.0) && h == Constant(|w|, Thickness()))
      ensures Lengths() == old(Lengths()) && |x| == |y| == |w| == |h| == |Lengths()|
      ensures color == old(color) && centerAnchor == old(centerAnchor) && origin == old(origin)
      ensures barWidth == old(barWidth) && barSpacing == old(barSpacing) && horizontal == old(horizontal)
    {
      if horizontal {
        var n := |w|;
        y := Ramp(n, origin.1, barSpacing, centerAnchor);
        x := Constant(n, origin.0);
        h := Constant(|w|, Thickness());
      } else {
        var n := |h|;
        y := Constant(n, origin.1);
        x := Ramp(n, origin.0, barSpacing, centerAnchor);
        w := Constant(|h|, Thickness());
      }
    }

    /** update_data: the first vector becomes the lengths (the program aborts on an empty list). */
    method UpdateData(values: seq<seq<real>>)
      requires |values| >= 1
      modifies this
      ensures Lengths() == values[0] && |x| == |y| == |w| == |h| == |values[0]|
      ensures !horizontal ==> x == Ramp(|h|, origin.0, barSpacing, centerAnchor) && w == Constant(|h|, Thickness())
      ensures horizontal ==> y == Ramp(|w|, origin.1, barSpacing, centerAnchor) && h == Constant(|w|, Thickness())
      ensures color == old(color) && centerAnchor == old(centerAnchor) && origin == old(origin)
      ensures barWidth == old(barWidth) && barSpacing == old(barSpacing) && horizontal == old(horizontal)
    {
      if horizontal {
        w := values[0];
      } else {
        h := values[0];
      }
      AdjustBar();
    }

    /** update_layout: new properties; when the orientation flips, widths and
        heights are swapped first, so the bar lengths carry over. */
    method UpdateLayout(layout: BarLayout)
      requires Valid()
      modifies this, colNames
      ensures Valid()
      ensures colNames[..] == [layout.x, layout.y, layout.width, layout.height]
      ensures color == layout.color && centerAnchor == layout.centerAnchor
      ensures origin == (layout.originX, layout.originY) && barWidth == layout.barWidth
      ensures barSpacing == layout.barSpacing && horizontal == layout.horizontal
      ensures Lengths() == old(Lengths())
      ensures old(horizontal) != layout.horizontal ==> (if horizontal then w == old(h) else h == old(w))
      ensures |x| == |y| == |w| == |h| == |Lengths()|
    {
      color := layout.color;
      centerAnchor := layout.centerAnchor;
      colNames[0], colNames[1], colNames[2], colNames[3] := layout.x, layout.y, layout.width, layout.height;
      origin := (layout.originX, layout.originY);
      barWidth := layout.barWidth;
      barSpacing := layout.barSpacing;
      if horizontal != layout.horizontal {
        w, h := h, w;
        horizontal := layout.horizontal;
      }
      AdjustBar();
    }

    /** get_col_name: x, y, width and height name slots 0 to 3; anything else is "". */
    function GetColName(col: string): (name: string)
      requires Valid()
      reads this, colNames
      ensures col !in {"x", "y", "width", "height"} ==> name == ""
    {
      match col
      case "x" => colNames[0]
      case "y" => colNames[1]
      case "width" => colNames[2]
      case "height" => colNames[3]
      case _ => ""
    }

    method SetColName(col: string, name: string)
      requires Valid()
      modifies colNames
      ensures col in {"x", "y", "width", "height"} ==> GetColName(col) == name
      ensures forall c :: c != col ==> GetColName(c) == old(GetColName(c))
    {
      match col
      case "x" => colNames[0] := name;
      case "y" => colNames[1] := name;
      case "width" => colNames[2] := name;
      case "height" => colNames[3] := name;
      case _ =>
    }

    /** set_col_names: exactly four names fill slots 0 to 3; any other count is
        refused and nothing changes. */
    method SetColNames(cols: seq<string>) returns (r: Result<()>)
      requires Valid()
      modifies colNames
      ensures r.Ok? <==> |cols| == 4
      ensures r.Err? ==> r.msg == "Wrong number of columns." && colNames[..] == old(colNames[..])
      ensures r.Ok? ==> colNames[..] == cols
    {
      if |cols| != 4 {
        return Err("Wrong number of columns.");
      }
      SetColName("x", cols[0]);
      SetColName("y", cols[1]);
      SetColName("width", cols[2]);
      SetColName("height", cols[3]);
      assert colNames[..] == cols;
      return Ok(());
    }
  }
}
