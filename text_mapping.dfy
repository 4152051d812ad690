/** A text mapping: one label per (x, y) position, the labels coming from a
    separate text column. */
module TextMappings {
  import opened Wrappers
  import opened MappingKinds
  import opened ContextMapping
  import opened Primitives
  import opened Fonts

  /** The layout properties a text mapping reads from its XML node, already
      parsed (the font through Fonts.NewFromString). */
  datatype TextLayout = TextLayout(color: Rgba, font: FontData, x: string, y: string, text: string)

  datatype Label = Label(at: Point, text: string)

  /** The labels draw places: the zip of x, y and text, cut at the shortest,
      keeping the positions that pass check_bounds. */
  function Labels(mapper: ContextMapper, pts: seq<Point>, texts: seq<string>): (r: seq<Label>)
    reads mapper
    decreases |pts|
  {
    if |pts| == 0 || |texts| == 0 then []
    else
      var n := Min(|pts|, |texts|);
      var last := if InBounds(mapper, pts[n - 1]) then [Label(pts[n - 1], texts[n - 1])] else [];
      Labels(mapper, pts[..n - 1], texts[..n - 1]) + last
  }

  /** A label is drawn exactly for a zipped position that is in bounds, with the text at that position. */
  lemma {:induction false} LabelsExact(mapper: ContextMapper, pts: seq<Point>, texts: seq<string>, l: Label)
    ensures l in Labels(mapper, pts, texts) <==>
      exists i :: 0 <= i < |pts| && i < |texts| && l == Label(pts[i], texts[i]) && InBounds(mapper, pts[i])
    decreases |pts|
  {
    if |pts| > 0 && |texts| > 0 {
      var n := Min(|pts|, |texts|);
      LabelsExact(mapper, pts[..n - 1], texts[..n - 1], l);
      if exists i :: 0 <= i < |pts| && i < |texts| && l == Label(pts[i], texts[i]) && InBounds(mapper, pts[i]) {
        var i :| 0 <= i < |pts| && i < |texts| && l == Label(pts[i], texts[i]) && InBounds(mapper, pts[i]);
        if i < n - 1 {
          assert pts[..n - 1][i] == pts[i] && texts[..n - 1][i] == texts[i];
        }
      }
    }
  }

  class TextMapping {
    var x: seq<real>
    var y: seq<real>
    var text: seq<string>
    var font: FontData
    var color: Rgba
    const colNames: array<string>

    predicate Valid()
      reads this
    {
      colNames.Length == 3
    }

    /** TextMapping::new: empty data, the standard font, then the layout applied. */
    constructor (layout: TextLayout)
      ensures Valid() && fresh(colNames)
      ensures colNames[..] == [layout.x, layout.y, layout.text]
      ensures color == layout.color && font == layout.font
      ensures x == [] && y == [] && text == []
    {
      x, y, text := [], [], [];
      font := StandardFont();
      var names := new string[3](_ => "None");
      names[0], names[1], names[2] := layout.x, layout.y, layout.text;
      colNames := names;
      color := layout.color;
      font := layout.font;
    }

    /** set_text_data: the text becomes a copy of the argument. */
    method SetTextData(t: seq<string>)
      modifies this
      ensures text == t
      ensures x == old(x) && y == old(y) && font == old(font) && color == old(color)
    {
      text := t;
    }

    /** draw: mismatched lengths are only reported; the labels of the zipped
        prefix that pass check_bounds are drawn. */
    method Draw(mapper: ContextMapper) returns (labels: seq<Label>)
      ensures labels == Labels(mapper, Zip(x, y), text)
    {
      var pts := Zip(x, y);
      labels := [];
      var n := Min(|pts|, |text|);
      var i := 0;
      while i < n
        invariant 0 <= i <= n
        invariant labels == Labels(mapper, pts[..i], text[..i])
      {
        assert pts[..i + 1][..i] == pts[..i] && text[..i + 1][..i] == text[..i];
        if mapper.CheckBounds(pts[i].x, pts[i].y) {
          labels := labels + [Label(pts[i], text[i])];
        }
        i := i + 1;
      }
      LabelsPrefix(mapper, pts, text);
    }

    /** update_data: x and y from the first two vectors; the text is left alone. */
    method UpdateData(values: seq<seq<real>>)
      requires |values| >= 2
      modifies this
      ensures x == values[0] && y == values[1]
      ensures text == old(text) && font == old(font) && color == old(color)
    {
      x := values[0];
      y := values[1];
    }

    /** update_extra_data: the first vector becomes the text; with none, nothing changes. */
    method UpdateExtraData(values: seq<seq<string>>)
      modifies this
      ensures text == if |values| > 0 then values[0] else old(text)
      ensures x == old(x) && y == old(y) && font == old(font) && color == old(color)
    {
      if |values| > 0 {
        text := values[0];
      }
    }

    method UpdateLayout(layout: TextLayout)
      requires Valid()
      modifies this, colNames
      ensures Valid() && colNames[..] == [layout.x, layout.y, layout.text]
      ensures color == layout.color && font == layout.font
      ensures x == old(x) && y == old(y) && text == old(text)
    {
      color := layout.color;
      font := layout.font;
      colNames[0], colNames[1], colNames[2] := layout.x, layout.y, layout.text;
    }

    /** properties: the default table with colour, font description and the column names filled in. */
    method Properties() returns (props: map<string, PropVal>)
      requires Valid()
      ensures props.Keys == CommonKeys + KindKeys(Text)
      ensures props["color"] == Color(color) && props["font"] == Str(Description(font))
      ensures props["x"] == Str(colNames[0]) && props["y"] == Str(colNames[1]) && props["text"] == Str(colNames[2])
      ensures props["source"] == Str("None")
    {
      var d := DefaultHash(Text);
      props := map k | k in d.Keys :: Str(d[k]);
      props := props["color" := Color(color)];
      props := props["font" := Str(Description(font))];
      props := props["x" := Str(colNames[0])];
      props := props["y" := Str(colNames[1])];
      props := props["text" := Str(colNames[2])];
    }

    /** get_col_name: x, y and text name slots 0 to 2; anything else is "". */
    function GetColName(col: string): (name: string)
      requires Valid()
      reads this, colNames
      ensures col !in {"x", "y", "text"} ==> name == ""
    {
      match col
      case "x" => colNames[0]
      case "y" => colNames[1]
      case "text" => colNames[2]
      case _ => ""
    }

    method SetColName(col: string, name: string)
      requires Valid()
      modifies colNames
      ensures col in {"x", "y", "text"} ==> GetColName(col) == name
      ensures forall c :: c != col ==> GetColName(c) == old(GetColName(c))
    {
      match col
      case "x" => colNames[0] := name;
      case "y" => colNames[1] := name;
      case "text" => colNames[2] := name;
      case _ =>
    }

    /** set_col_names: exactly three names; any other count is refused and nothing changes. */
    method SetColNames(cols: seq<string>) returns (r: Result<()>)
      requires Valid()
      modifies colNames
      ensures r.Ok? <==> |cols| == 3
      ensures r.Err? ==> r.msg == "Wrong number of columns." && colNames[..] == old(colNames[..])
      ensures r.Ok? ==> colNames[..] == cols
    {
      if |cols| != 3 {
        return Err("Wrong number of columns.");
      }
      SetColName("x", cols[0]);
      SetColName("y", cols[1]);
      SetColName("text", cols[2]);
      assert colNames[..] == cols;
      return Ok(());
    }
  }

  /** Labels only look at the common prefix of positions and texts. */
  lemma LabelsPrefix(mapper: ContextMapper, pts: seq<Point>, texts: seq<string>)
    ensures var n := Min(|pts|, |texts|); Labels(mapper, pts, texts) == Labels(mapper, pts[..n], texts[..n])
  {
    var n := Min(|pts|, |texts|);
    if n > 0 {
      assert pts[..n][..n - 1] == pts[..n - 1] && texts[..n][..n - 1] == texts[..n - 1];
    }
  }
}
