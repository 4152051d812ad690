/** The six kinds of plot mapping and the default property table each kind
    is created with. */
module MappingKinds {
  import opened Wrappers

  datatype MappingType = Line | Scatter | Bar | Area | Surface | Text

  /** A colour with its opacity, each channel in [0, 1]. */
  datatype Rgba = Rgba(red: real, green: real, blue: real, alpha: real)

  /** A value in a mapping's property table: defaults are text; values a
      mapping holds as numbers or colours are reported as such (their text
      formatting is not modelled). */
  datatype PropVal = Str(s: string) | Num(r: real) | Int(i: int) | Color(c: Rgba)

  /** The name a kind is written with in a layout. */
  function Name(t: MappingType): string
  {
    match t
    case Line => "line"
    case Scatter => "scatter"
    case Bar => "bar"
    case Area => "area"
    case Surface => "surface"
    case Text => "text"
  }

  const Names: set<string> := {"line", "scatter", "bar", "area", "surface", "text"}

  /** MappingType::from_str: exactly the six lower-case names are recognised. */
  function FromStr(name: string): (r: Option<MappingType>)
    ensures r.Some? <==> name in Names
    ensures r.Some? ==> Name(r.value) == name
  {
    match name
    case "line" => Some(Line)
    case "scatter" => Some(Scatter)
    case "bar" => Some(Bar)
    case "area" => Some(Area)
    case "surface" => Some(Surface)
    case "text" => Some(Text)
    case _ => None
  }

  /** Every kind is recognised from its own name. */
  lemma FromStrName(t: MappingType)
    ensures FromStr(Name(t)) == Some(t)
  {
  }

  /** Distinct accepted names give distinct kinds. */
  lemma FromStrInjective(a: string, b: string)
    requires FromStr(a).Some? && FromStr(b).Some? && a != b
    ensures FromStr(a).value != FromStr(b).value
  {
  }

  const CommonKeys: set<string> := {"color", "x", "y", "source"}

  /** The property names a kind adds to the common ones. */
  function KindKeys(t: MappingType): set<string>
  {
    match t
    case Line => {"width", "dash"}
    case Scatter => {"radius"}
    case Bar => {"center_anchor", "horizontal", "width", "height", "bar_width", "origin_x", "origin_y", "bar_spacing"}
    case Area => {"ymax", "opacity"}
    case Surface => {"z", "final_color", "z_min", "z_max", "opacity"}
    case Text => {"font", "text"}
  }

  /** default_hash: color black, the column slots and the source unset, then
      the defaults of the kind's own properties. */
  method DefaultHash(t: MappingType) returns (hash: map<string, string>)
    ensures hash.Keys == CommonKeys + KindKeys(t)
    ensures hash["color"] == "#000000" && hash["x"] == "None" && hash["y"] == "None" && hash["source"] == "None"
    ensures t == Line ==> hash["width"] == "1" && hash["dash"] == "1"
    ensures t == Scatter ==> hash["radius"] == "1"
    ensures t == Bar ==> (hash["center_anchor"] == "false" && hash["horizontal"] == "false"
      && hash["width"] == "None" && hash["height"] == "None" && hash["bar_width"] == "1"
      && hash["origin_x"] == "0" && hash["origin_y"] == "0" && hash["bar_spacing"] == "1")
    ensures t == Area ==> hash["ymax"] == "None" && hash["opacity"] == "1.0"
    ensures t == Surface ==> (hash["z"] == "None" && hash["final_color"] == "#ffffff"
      && hash["z_min"] == "0.0" && hash["z_max"] == "1.0" && hash["opacity"] == "1.0")
    ensures t == Text ==> hash["font"] == "Monospace Regular 12" && hash["text"] == "None"
  {
    hash := map[];
    hash := hash["color" := "#000000"];
    hash := hash["x" := "None"];
    hash := hash["y" := "None"];
    hash := hash["source" := "None"];
    match t {
      case Line =>
        hash := hash["width" := "1"];
        hash := hash["dash" := "1"];
      case Scatter =>
        hash := hash["radius" := "1"];
      case Bar =>
        hash := hash["center_anchor" := "false"];
        hash := hash["horizontal" := "false"];
        hash := hash["width" := "None"];
        hash := hash["height" := "None"];
        hash := hash["bar_width" := "1"];
        hash := hash["origin_x" := "0"];
        hash := hash["origin_y" := "0"];
        hash := hash["bar_spacing" := "1"];
      case Area =>
        hash := hash["ymax" := "None"];
        hash := hash["opacity" := "1.0"];
      case Surface =>
        hash := hash["z" := "None"];
        hash := hash["final_color" := "#ffffff"];
        hash := hash["z_min" := "0.0"];
        hash := hash["z_max" := "1.0"];
        hash := hash["opacity" := "1.0"];
      case Text =>
        hash := hash["font" := "Monospace Regular 12"];
        hash := hash["text" := "None"];
    }
  }

  /** No kind redefines a common key, so a default table has the 4 common
      entries plus the kind's own: Line 6, Scatter 5, Bar 12, Area 6,
      Surface 9, Text 6. */
  lemma KeyCount(t: MappingType)
    ensures CommonKeys !! KindKeys(t)
    ensures |CommonKeys + KindKeys(t)| == match t
      case Line => 6 case Scatter => 5 case Bar => 12 case Area => 6 case Surface => 9 case Text => 6
  {
    CommonKeyCount();
    match t {
      case Line => LineKeyCount();
      case Scatter => ScatterKeyCount();
      case Bar => BarKeyCount();
      case Area => AreaKeyCount();
      case Surface => SurfaceKeyCount();
      case Text => TextKeyCount();
    }
    assert CommonKeys * KindKeys(t) == {};
  }

  lemma CommonKeyCount()
    ensures |CommonKeys| == 4
  {
    var s: set<string> := {"color"};
    assert "x" !in s;
    s := s + {"x"};
    assert "y" !in s;
    s := s + {"y"};
    assert "source" !in s;
    s := s + {"source"};
    assert s == CommonKeys;
  }

  lemma LineKeyCount()
    ensures CommonKeys !! KindKeys(Line) && |KindKeys(Line)| == 2
  {
    var ks: set<string> := {"width"};
    assert "dash" !in ks;
    ks := ks + {"dash"};
    assert ks == KindKeys(Line);
  }

  lemma ScatterKeyCount()
    ensures CommonKeys !! KindKeys(Scatter) && |KindKeys(Scatter)| == 1
  {
    var ks: set<string> := {"radius"};
    assert ks == KindKeys(Scatter);
  }

  lemma BarKeyCount()
    ensures CommonKeys !! KindKeys(Bar) && |KindKeys(Bar)| == 8
  {
    var ks: set<string> := {"center_anchor"};
    assert "horizontal" !in ks;
    ks := ks + {"horizontal"};
    assert "width" !in ks;
    ks := ks + {"width"};
    assert "height" !in ks;
    ks := ks + {"height"};
    assert "bar_width" !in ks;
    ks := ks + {"bar_width"};
    assert "origin_x" !in ks;
    ks := ks + {"origin_x"};
    assert "origin_y" !in ks;
    ks := ks + {"origin_y"};
    assert "bar_spacing" !in ks;
    ks := ks + {"bar_spacing"};
    assert ks == KindKeys(Bar);
  }

  lemma AreaKeyCount()
    ensures CommonKeys !! KindKeys(Area) && |KindKeys(Area)| == 2
  {
    var ks: set<string> := {"ymax"};
    assert "opacity" !in ks;
    ks := ks + {"opacity"};
    assert ks == KindKeys(Area);
  }

  lemma SurfaceKeyCount()
    ensures CommonKeys !! KindKeys(Surface) && |KindKeys(Surface)| == 5
  {
    var ks: set<string> := {"z"};
    assert "final_color" !in ks;
    ks := ks + {"final_color"};
    assert "z_min" !in ks;
    ks := ks + {"z_min"};
    assert "z_max" !in ks;
    ks := ks + {"z_max"};
    assert "opacity" !in ks;
    ks := ks + {"opacity"};
    assert ks == KindKeys(Surface);
  }

  lemma TextKeyCount()
    ensures CommonKeys !! KindKeys(Text) && |KindKeys(Text)| == 2
  {
    var ks: set<string> := {"font"};
    assert "text" !in ks;
    ks := ks + {"text"};
    assert ks == KindKeys(Text);
  }
}
