/** The layout reader of the stand-alone plotting script: it reads a layout
    XML document into design properties, dimensions and an ordered list of
    plot areas (two grid segments plus a pooled list of mapping records),
    resolves mapping columns against CSV sources and dispatches each mapping
    kind and split topology to a drawing branch.  The XML document is given
    as a tree; number parsing (`int`, `float`) is a parameter; Python
    exceptions are `Err` values carrying the exception name or message. */
module ParsePlot {
  import opened Wrappers
  import Strs

  /** An XML element: tag, attributes, text (None for an empty element) and children. */
  datatype XNode = XNode(tag: string, attrs: map<string, string>, text: Option<string>, children: seq<XNode>)

  /** The Python values stored in the dictionaries built by the script. */
  datatype PyVal = PyStr(s: string) | PyNone | PyInt(i: int) | PyFloat(f: real) | PyBool(b: bool)

  /** Python's `bool` of an element text: None and "" are False, any other text True. */
  function Truthy(text: Option<string>): (b: bool)
    ensures b <==> text.Some? && text.value != ""
  {
    match text
    case None => false
    case Some(s) => |s| > 0
  }

  predicate HasAttr(n: XNode, key: string, val: string)
  {
    key in n.attrs && n.attrs[key] == val
  }

  /** Direct children `tag[@key='val']`, in document order. */
  function ChildrenWhere(n: XNode, tag: string, key: string, val: string): (r: seq<XNode>)
    ensures |r| <= |n.children|
  {
    Select(n.children, tag, key, val)
  }

  function Select(nodes: seq<XNode>, tag: string, key: string, val: string): (r: seq<XNode>)
    ensures |r| <= |nodes|
  {
    if nodes == [] then []
    else
      var head := if nodes[0].tag == tag && HasAttr(nodes[0], key, val) then [nodes[0]] else [];
      head + Select(nodes[1..], tag, key, val)
  }

  /** The selection keeps exactly the nodes with that tag and attribute value. */
  lemma {:induction false} SelectExact(nodes: seq<XNode>, tag: string, key: string, val: string)
    ensures forall c :: c in Select(nodes, tag, key, val) ==> c in nodes && c.tag == tag && HasAttr(c, key, val)
    ensures forall c :: c in nodes && c.tag == tag && HasAttr(c, key, val) ==> c in Select(nodes, tag, key, val)
  {
    if nodes != [] {
      SelectExact(nodes[1..], tag, key, val);
      assert nodes == [nodes[0]] + nodes[1..];
    }
  }

  /** Texts of `property[@name='p']` below each object, in document order. */
  function PropTexts(objs: seq<XNode>, p: string): seq<Option<string>>
  {
    if objs == [] then []
    else
      var props := ChildrenWhere(objs[0], "property", "name", p);
      Texts(props) + PropTexts(objs[1..], p)
  }

  function Texts(nodes: seq<XNode>): (r: seq<Option<string>>)
    ensures |r| == |nodes| && forall i :: 0 <= i < |nodes| ==> r[i] == nodes[i].text
  {
    if nodes == [] then [] else [nodes[0].text] + Texts(nodes[1..])
  }

  /** `xpath(...)[0].text`: the first match, or IndexError when there is none. */
  function First(texts: seq<Option<string>>): (r: Result<Option<string>>)
    ensures r.Ok? <==> |texts| > 0
    ensures r.Ok? ==> r.value == texts[0]
    ensures r.Err? ==> r.msg == "IndexError"
  {
    if |texts| == 0 then Err("IndexError") else Ok(texts[0])
  }

  /** `float(text)` / `int(text)`: None raises TypeError, unparsable text ValueError. */
  function ToFloat(t: Option<string>, parseFloat: string -> Option<real>): Result<real>
  {
    if t.None? then Err("TypeError")
    else match parseFloat(t.value)
      case None => Err("ValueError")
      case Some(v) => Ok(v)
  }

  function ToInt(t: Option<string>, parseInt: string -> Option<int>): Result<int>
  {
    if t.None? then Err("TypeError")
    else match parseInt(t.value)
      case None => Err("ValueError")
      case Some(v) => Ok(v)
  }

  datatype Segment = Segment(labelText: Option<string>, from: real, to: real, nIntervals: int,
                             precision: int, invert: bool, logScaling: bool, gridOffset: real)

  /** A property is present when some object holds it. */
  predicate Present(objs: seq<XNode>, p: string)
  {
    |PropTexts(objs, p)| > 0
  }

  /** The first text of property p parses as a number with `parse`. */
  predicate ParsesAt<N>(objs: seq<XNode>, p: string, parse: string -> Option<N>)
  {
    Present(objs, p) && PropTexts(objs, p)[0].Some? && parse(PropTexts(objs, p)[0].value).Some?
  }

  /** The number the first text of property p reads as. */
  function NumberAt<N>(objs: seq<XNode>, p: string, parse: string -> Option<N>): N
    requires ParsesAt(objs, p, parse)
  {
    parse(PropTexts(objs, p)[0].value).value
  }

  /** `xpath(prefix + "/property[@name='p']")[0].text` */
  function ReadText(objs: seq<XNode>, p: string): (r: Result<Option<string>>)
    ensures r.Ok? <==> Present(objs, p)
    ensures r.Ok? ==> r.value == PropTexts(objs, p)[0]
    ensures r.Err? ==> r.msg == "IndexError"
  {
    First(PropTexts(objs, p))
  }

  /** `float(...)` or `int(...)` of that text. */
  function ReadNumber<N>(objs: seq<XNode>, p: string, parse: string -> Option<N>): (r: Result<N>)
    ensures r.Ok? <==> ParsesAt(objs, p, parse)
    ensures r.Ok? ==> r.value == NumberAt(objs, p, parse)
    ensures r.Err? ==> r.msg in {"IndexError", "TypeError", "ValueError"}
  {
    var t :- ReadText(objs, p);
    if t.None? then Err("TypeError")
    else match parse(t.value)
      case None => Err("ValueError")
      case Some(v) => Ok(v)
  }

  /** get_segment_properties, on the segment object named `seg` below `area`:
      every field comes from the first matching property, the two flags use
      truthiness, and a missing property or an unreadable number raises
      (nothing is defaulted). */
  function GetSegmentProperties(area: XNode, seg: string,
                                parseFloat: string -> Option<real>,
                                parseInt: string -> Option<int>): (r: Result<Segment>)
    ensures var objs := ChildrenWhere(area, "object", "name", seg);
      r.Ok? <==>
        && Present(objs, "label") && ParsesAt(objs, "from", parseFloat) && ParsesAt(objs, "to", parseFloat)
        && ParsesAt(objs, "n_intervals", parseInt) && ParsesAt(objs, "precision", parseInt)
        && Present(objs, "invert") && Present(objs, "log_scaling") && ParsesAt(objs, "grid_offset", parseFloat)
    ensures var objs := ChildrenWhere(area, "object", "name", seg);
      r.Ok? ==> r.value == Segment(PropTexts(objs, "label")[0],
                                   NumberAt(objs, "from", parseFloat), NumberAt(objs, "to", parseFloat),
                                   NumberAt(objs, "n_intervals", parseInt), NumberAt(objs, "precision", parseInt),
                                   Truthy(PropTexts(objs, "invert")[0]), Truthy(PropTexts(objs, "log_scaling")[0]),
                                   NumberAt(objs, "grid_offset", parseFloat))
    ensures r.Err? ==> r.msg in {"IndexError", "TypeError", "ValueError"}
  {
    var objs := ChildrenWhere(area, "object", "name", seg);
    var lbl :- ReadText(objs, "label");
    var from :- ReadNumber(objs, "from", parseFloat);
    var to :- ReadNumber(objs, "to", parseFloat);
    var nint :- ReadNumber(objs, "n_intervals", parseInt);
    var prec :- ReadNumber(objs, "precision", parseInt);
    var invT :- ReadText(objs, "invert");
    var logT :- ReadText(objs, "log_scaling");
    var off :- ReadNumber(objs, "grid_offset", parseFloat);
    Ok(Segment(lbl, from, to, nint, prec, Truthy(invT), Truthy(logT), off))
  }

  datatype Design = Design(split: Option<string>, verticalRatio: Option<string>, horizontalRatio: Option<string>,
                           bgColor: Option<string>, gridColor: Option<string>, gridWidth: real, gridFont: Option<string>)

  /** get_design_properties on the document root `plotgroup`: every field
      is the first matching property text, grid_width read as a float, and
      a missing property or an unreadable width raises. */
  function GetDesignProperties(root: XNode, parseFloat: string -> Option<real>): (r: Result<Design>)
    ensures var objs := ChildrenWhere(root, "object", "class", "design");
      r.Ok? <==>
        && Present(objs, "split") && Present(objs, "vertical_ratio") && Present(objs, "horizontal_ratio")
        && Present(objs, "bg_color") && Present(objs, "grid_color") && ParsesAt(objs, "grid_width", parseFloat)
        && Present(objs, "font")
    ensures var objs := ChildrenWhere(root, "object", "class", "design");
      r.Ok? ==> r.value == Design(PropTexts(objs, "split")[0], PropTexts(objs, "vertical_ratio")[0],
                                  PropTexts(objs, "horizontal_ratio")[0], PropTexts(objs, "bg_color")[0],
                                  PropTexts(objs, "grid_color")[0], NumberAt(objs, "grid_width", parseFloat),
                                  PropTexts(objs, "font")[0])
    ensures r.Err? ==> r.msg in {"IndexError", "TypeError", "ValueError"}
  {
    var objs := ChildrenWhere(root, "object", "class", "design");
    var split :- ReadText(objs, "split");
    var vr :- ReadText(objs, "vertical_ratio");
    var hr :- ReadText(objs, "horizontal_ratio");
    var bg :- ReadText(objs, "bg_color");
    var gc :- ReadText(objs, "grid_color");
    var gw :- ReadNumber(objs, "grid_width", parseFloat);
    var font :- ReadText(objs, "font");
    Ok(Design(split, vr, hr, bg, gc, gw, font))
  }

  datatype Dimensions = Dimensions(width: Option<string>, height: Option<string>)

  /** get_dimensions: width and height are the raw texts, not numbers. */
  function GetDimensions(root: XNode): (r: Result<Dimensions>)
    ensures var objs := ChildrenWhere(root, "object", "class", "dimensions");
      r.Ok? <==> |PropTexts(objs, "width")| > 0 && |PropTexts(objs, "height")| > 0
    ensures r.Ok? ==> var objs := ChildrenWhere(root, "object", "class", "dimensions");
      r.value == Dimensions(PropTexts(objs, "width")[0], PropTexts(objs, "height")[0])
  {
    var objs := ChildrenWhere(root, "object", "class", "dimensions");
    var w :- First(PropTexts(objs, "width"));
    var h :- First(PropTexts(objs, "height"));
    Ok(Dimensions(w, h))
  }

  function AttrVal(n: XNode, key: string): PyVal
  {
    if key in n.attrs then PyStr(n.attrs[key]) else PyNone
  }

  function TextVal(t: Option<string>): PyVal
  {
    if t.Some? then PyStr(t.value) else PyNone
  }

  /** `mapping.xpath("property[@name='p']")[0].text` */
  function MProp(m: XNode, p: string): Result<Option<string>>
  {
    First(Texts(ChildrenWhere(m, "property", "name", p)))
  }

  type Record = map<string, PyVal>

  /** The keys each mapping kind adds to the common ones. */
  function ExtraKeys(ty: string): set<string>
  {
    match ty
    case "line" => {"width", "dash"}
    case "scatter" => {"radius"}
    case "area" => {"ymax", "opacity"}
    case "bar" => {"width", "height"}
    case "text" => {"font", "text"}
    case "surface" => {"z", "final_color", "z_min", "z_max", "opacity"}
    case _ => {}
  }

  predicate KnownKind(ty: string)
  {
    ty in {"line", "scatter", "area", "bar", "text", "surface"}
  }

  function ExtraProps(m: XNode, ty: string, pf: string -> Option<real>, pi: string -> Option<int>): Result<Record>
  {
    match ty
    case "line" =>
      var wT :- MProp(m, "width"); var w :- ToInt(wT, pi);
      var dT :- MProp(m, "dash"); var d :- ToInt(dT, pi);
      Ok(map["width" := PyInt(w), "dash" := PyInt(d)])
    case "scatter" =>
      var rT :- MProp(m, "radius"); var r :- ToFloat(rT, pf);
      Ok(map["radius" := PyFloat(r)])
    case "area" =>
      var yT :- MProp(m, "ymax");
      var oT :- MProp(m, "opacity"); var o :- ToFloat(oT, pf);
      Ok(map["ymax" := TextVal(yT), "opacity" := PyFloat(o)])
    case "bar" =>
      var wT :- MProp(m, "width");
      var hT :- MProp(m, "height");
      Ok(map["width" := TextVal(wT), "height" := TextVal(hT)])
    case "text" =>
      var fT :- MProp(m, "font");
      var tT :- MProp(m, "text");
      Ok(map["font" := TextVal(fT), "text" := TextVal(tT)])
    case "surface" =>
      var zT :- MProp(m, "z");
      var fcT :- MProp(m, "final_color");
      var z0T :- MProp(m, "z_min"); var z0 :- ToFloat(z0T, pf);
      var z1T :- MProp(m, "z_max"); var z1 :- ToFloat(z1T, pf);
      var oT :- MProp(m, "opacity"); var o :- ToFloat(oT, pf);
      Ok(map["z" := TextVal(zT), "final_color" := TextVal(fcT), "z_min" := PyFloat(z0),
             "z_max" := PyFloat(z1), "opacity" := PyFloat(o)])
    case _ => Err("Unrecognized type")
  }

  /** The extra keys are exactly those of the mapping's kind, line widths and
      dashes are integers, and an unknown kind is refused. */
  lemma ExtraPropsKeys(m: XNode, ty: string, pf: string -> Option<real>, pi: string -> Option<int>)
    ensures var r := ExtraProps(m, ty, pf, pi);
      && (r.Ok? ==> KnownKind(ty) && r.value.Keys == ExtraKeys(ty))
      && (r.Ok? && ty == "line" ==> r.value["width"].PyInt? && r.value["dash"].PyInt?)
      && (!KnownKind(ty) ==> r == Err("Unrecognized type"))
  {
    if ty == "line" {
      LineKeys(m, pf, pi);
    } else if ty == "scatter" {
      KindKeys(m, "scatter", pf, pi);
    } else if ty == "area" {
      KindKeys(m, "area", pf, pi);
    } else if ty == "bar" {
      KindKeys(m, "bar", pf, pi);
    } else if ty == "text" {
      KindKeys(m, "text", pf, pi);
    } else if ty == "surface" {
      SurfaceKeys(m, pf, pi);
    }
  }

  lemma LineKeys(m: XNode, pf: string -> Option<real>, pi: string -> Option<int>)
    ensures var r := ExtraProps(m, "line", pf, pi);
      r.Ok? ==> r.value.Keys == ExtraKeys("line") && r.value["width"].PyInt? && r.value["dash"].PyInt?
  {
  }

  lemma KindKeys(m: XNode, ty: string, pf: string -> Option<real>, pi: string -> Option<int>)
    requires ty in {"scatter", "area", "bar", "text"}
    ensures var r := ExtraProps(m, ty, pf, pi);
      r.Ok? ==> r.value.Keys == ExtraKeys(ty)
  {
    if ty == "scatter" {
    } else if ty == "area" {
    } else if ty == "bar" {
    } else {
    }
  }

  lemma SurfaceKeys(m: XNode, pf: string -> Option<real>, pi: string -> Option<int>)
    ensures var r := ExtraProps(m, "surface", pf, pi);
      r.Ok? ==> r.value.Keys == ExtraKeys("surface")
  {
  }

  /** get_mapping_properties: name and type from attributes, x/y/color and the
      kind's extra keys from the first matching properties.  A record has
      exactly the common keys plus the keys of its kind; a type outside the
      six kinds raises once x, y and color are present. */
  function GetMappingProperties(m: XNode, pf: string -> Option<real>, pi: string -> Option<int>): Result<Record>
  {
    var xT :- MProp(m, "x");
    var yT :- MProp(m, "y");
    var cT :- MProp(m, "color");
    var ty := AttrVal(m, "type");
    if !ty.PyStr? then Err("Unrecognized type")
    else
      var extra :- ExtraProps(m, ty.s, pf, pi);
      Ok(CommonProps(m, xT, yT, cT) + extra)
  }

  /** A record has the five common keys and those of its kind; an unknown
      kind is refused once x, y and color are read. */
  lemma MappingRecordKeys(m: XNode, pf: string -> Option<real>, pi: string -> Option<int>)
    ensures var r := GetMappingProperties(m, pf, pi);
      && (r.Ok? ==> "type" in m.attrs && KnownKind(m.attrs["type"]))
      && (r.Ok? ==> r.value.Keys == {"name", "type", "x", "y", "color"} + ExtraKeys(m.attrs["type"]))
      && (r.Ok? && m.attrs["type"] == "line" ==> r.value["width"].PyInt? && r.value["dash"].PyInt?)
      && ((MProp(m, "x").Ok? && MProp(m, "y").Ok? && MProp(m, "color").Ok?
          && ("type" !in m.attrs || !KnownKind(m.attrs["type"]))) ==> r == Err("Unrecognized type"))
  {
    var ty := AttrVal(m, "type");
    if ty.PyStr? {
      ExtraPropsKeys(m, ty.s, pf, pi);
    }
  }

  function CommonProps(m: XNode, xT: Option<string>, yT: Option<string>, cT: Option<string>): (r: Record)
    ensures r.Keys == {"name", "type", "x", "y", "color"}
    ensures r["type"] == AttrVal(m, "type") && r["name"] == AttrVal(m, "name")
  {
    map["name" := AttrVal(m, "name"), "type" := AttrVal(m, "type"), "x" := TextVal(xT), "y" := TextVal(yT),
        "color" := TextVal(cT)]
  }

  /** All elements strictly below `n`, in document (pre-)order. */
  function Descendants(n: XNode): seq<XNode>
    decreases n, 0
  {
    DescendantsOf(n.children)
  }

  function DescendantsOf(ns: seq<XNode>): seq<XNode>
    decreases ns, 1
  {
    if ns == [] then []
    else [ns[0]] + Descendants(ns[0]) + DescendantsOf(ns[1..])
  }

  /** `.//object[@class='mapping']` */
  function MappingObjects(area: XNode): seq<XNode>
  {
    Select(Descendants(area), "object", "class", "mapping")
  }

  /** A mapping object nested one level deeper than a child is still found. */
  lemma {:induction false} GrandchildIsDescendant(area: XNode, i: nat, j: nat)
    requires i < |area.children| && j < |area.children[i].children|
    ensures area.children[i].children[j] in Descendants(area)
  {
    ChildIsDescendant(area.children[i], j);
    DescendantsOfContains(area.children, i);
  }

  lemma {:induction false} ChildIsDescendant(n: XNode, j: nat)
    requires j < |n.children|
    ensures n.children[j] in Descendants(n)
  {
    DescendantsOfHead(n.children, j);
  }

  lemma {:induction false} DescendantsOfHead(ns: seq<XNode>, j: nat)
    requires j < |ns|
    ensures ns[j] in DescendantsOf(ns)
    decreases j
  {
    if j > 0 {
      DescendantsOfHead(ns[1..], j - 1);
    }
  }

  lemma {:induction false} DescendantsOfContains(ns: seq<XNode>, i: nat)
    requires i < |ns|
    ensures forall d :: d in Descendants(ns[i]) ==> d in DescendantsOf(ns)
    decreases i
  {
    if i > 0 {
      DescendantsOfContains(ns[1..], i - 1);
    }
  }

  /** The finished prefix followed by the rest, unless the rest failed. */
  function Glue<T>(done: seq<T>, rest: Result<seq<T>>): Result<seq<T>>
  {
    if rest.Err? then rest else Ok(done + rest.value)
  }

  /** The results of f over a list, stopping at the first error. */
  function Collect<A, B>(xs: seq<A>, f: A -> Result<B>): (r: Result<seq<B>>)
    ensures r.Ok? ==> |r.value| == |xs|
  {
    if xs == [] then Ok([])
    else
      var first :- f(xs[0]);
      var rest :- Collect(xs[1..], f);
      Ok([first] + rest)
  }

  /** The records of a list of mapping objects, stopping at the first error. */
  function Records(ms: seq<XNode>, pf: string -> Option<real>, pi: string -> Option<int>): (r: Result<seq<Record>>)
    ensures r.Ok? ==> |r.value| == |ms|
  {
    Collect(ms, m => GetMappingProperties(m, pf, pi))
  }

  /** pool_mappings: one record per mapping object anywhere below the area, in document order. */
  method PoolMappings(area: XNode, pf: string -> Option<real>, pi: string -> Option<int>) returns (r: Result<seq<Record>>)
    ensures r == Records(MappingObjects(area), pf, pi)
    ensures r.Ok? ==> |r.value| == |MappingObjects(area)|
  {
    var mappings := MappingObjects(area);
    var props: seq<Record> := [];
    var i := 0;
    assert mappings[0..] == mappings;
    GlueEmpty(Records(mappings, pf, pi));
    while i < |mappings|
      invariant 0 <= i <= |mappings|
      invariant Records(mappings, pf, pi) == Glue(props, Records(mappings[i..], pf, pi))
    {
      RecordsCons(mappings[i..], pf, pi);
      assert mappings[i..][1..] == mappings[i + 1..] && mappings[i..][0] == mappings[i];
      var p := GetMappingProperties(mappings[i], pf, pi);
      if p.Err? {
        return Err(p.msg);
      }
      GlueAssoc(props, [p.value], Records(mappings[i + 1..], pf, pi));
      props := props + [p.value];
      i := i + 1;
    }
    assert mappings[i..] == [] && props + [] == props;
    return Ok(props);
  }

  lemma RecordsCons(ms: seq<XNode>, pf: string -> Option<real>, pi: string -> Option<int>)
    requires ms != []
    ensures var p := GetMappingProperties(ms[0], pf, pi);
      Records(ms, pf, pi) == if p.Err? then Err(p.msg) else Glue([p.value], Records(ms[1..], pf, pi))
  {
  }

  /** Each record of the pool is the record of the mapping object at the same position. */
  lemma RecordsPointwise(ms: seq<XNode>, pf: string -> Option<real>, pi: string -> Option<int>, k: nat)
    requires Records(ms, pf, pi).Ok? && k < |ms|
    ensures GetMappingProperties(ms[k], pf, pi).Ok?
    ensures Records(ms, pf, pi).value[k] == GetMappingProperties(ms[k], pf, pi).value
  {
    CollectPointwise(ms, m => GetMappingProperties(m, pf, pi), k);
  }

  /** When every result succeeds, the k-th value is that of the k-th item. */
  lemma {:induction false} CollectPointwise<A, B>(xs: seq<A>, f: A -> Result<B>, k: nat)
    requires Collect(xs, f).Ok? && k < |xs|
    ensures f(xs[k]).Ok? && Collect(xs, f).value[k] == f(xs[k]).value
    decreases k
  {
    if k > 0 {
      CollectPointwise(xs[1..], f, k - 1);
    }
  }

  /** load_layout_root: the document text keeps the lines without "<?", in order. */
  method FilterDeclarations(lines: seq<string>) returns (full: string)
    ensures full == Concat(KeptLines(lines))
  {
    full := "";
    var i := 0;
    while i < |lines|
      invariant 0 <= i <= |lines|
      invariant full == Concat(KeptLines(lines[..i]))
    {
      KeptLinesSnoc(lines[..i], lines[i]);
      assert lines[..i + 1] == lines[..i] + [lines[i]];
      if !Strs.Contains(lines[i], "<?") {
        ConcatSnoc(KeptLines(lines[..i]), lines[i]);
        full := full + lines[i];
        assert KeptLines(lines[..i + 1]) == KeptLines(lines[..i]) + [lines[i]];
      } else {
        assert KeptLines(lines[..i + 1]) == KeptLines(lines[..i]) + [];
        assert KeptLines(lines[..i]) + [] == KeptLines(lines[..i]);
      }
      i := i + 1;
    }
    assert lines[..i] == lines;
  }

  function KeptLines(lines: seq<string>): seq<string>
  {
    if lines == [] then []
    else (if Strs.Contains(lines[0], "<?") then [] else [lines[0]]) + KeptLines(lines[1..])
  }

  function Concat(parts: seq<string>): string
  {
    if parts == [] then "" else parts[0] + Concat(parts[1..])
  }

  lemma {:induction false} KeptLinesSnoc(lines: seq<string>, l: string)
    ensures KeptLines(lines + [l]) == KeptLines(lines) + (if Strs.Contains(l, "<?") then [] else [l])
  {
    if lines != [] {
      assert (lines + [l])[1..] == lines[1..] + [l];
      KeptLinesSnoc(lines[1..], l);
    } else {
      assert [l][1..] == [];
    }
  }

  lemma {:induction false} ConcatSnoc(parts: seq<string>, s: string)
    ensures Concat(parts + [s]) == Concat(parts) + s
  {
    if parts != [] {
      assert (parts + [s])[1..] == parts[1..] + [s];
      ConcatSnoc(parts[1..], s);
    }
  }

  /** Exactly the lines containing "<?" are dropped. */
  lemma {:induction false} KeptLinesExact(lines: seq<string>)
    ensures forall l :: l in KeptLines(lines) ==> l in lines && !Strs.Contains(l, "<?")
    ensures forall l :: l in lines && !Strs.Contains(l, "<?") ==> l in KeptLines(lines)
  {
    if lines != [] {
      KeptLinesExact(lines[1..]);
    }
  }

  /** A data source: a CSV frame from column name to column values. */
  type Frame<C> = map<string, C>

  /** search_data: `d[mapping[name]]` in the first frame where it succeeds. */
  method SearchData<C>(data: seq<Frame<C>>, mapping: Record, name: string) returns (col: Option<C>)
    ensures col == FirstColumn(data, mapping, name)
  {
    col := None;
    var i := 0;
    while i < |data|
      invariant 0 <= i <= |data|
      invariant FirstColumn(data, mapping, name) == FirstColumn(data[i..], mapping, name)
    {
      assert data[i..][1..] == data[i + 1..];
      if name in mapping && mapping[name].PyStr? && mapping[name].s in data[i] {
        col := Some(data[i][mapping[name].s]);
        return;
      }
      i := i + 1;
    }
  }

  function FirstColumn<C>(data: seq<Frame<C>>, mapping: Record, name: string): Option<C>
  {
    if data == [] then None
    else if name in mapping && mapping[name].PyStr? && mapping[name].s in data[0]
    then Some(data[0][mapping[name].s])
    else FirstColumn(data[1..], mapping, name)
  }

  /** The column comes from the first frame holding the referenced name; None when no frame does. */
  lemma {:induction false} FirstColumnIsFirstMatch<C>(data: seq<Frame<C>>, mapping: Record, name: string)
    ensures FirstColumn(data, mapping, name).Some? <==>
      name in mapping && mapping[name].PyStr? && exists i :: 0 <= i < |data| && mapping[name].s in data[i]
    ensures FirstColumn(data, mapping, name).Some? ==>
      exists i :: 0 <= i < |data| && mapping[name].s in data[i]
        && FirstColumn(data, mapping, name).value == data[i][mapping[name].s]
        && forall j :: 0 <= j < i ==> mapping[name].s !in data[j]
  {
    if data != [] {
      FirstColumnIsFirstMatch(data[1..], mapping, name);
      if name in mapping && mapping[name].PyStr? && mapping[name].s !in data[0] {
        if FirstColumn(data, mapping, name).Some? {
          var i :| 0 <= i < |data[1..]| && mapping[name].s in data[1..][i]
            && FirstColumn(data[1..], mapping, name).value == data[1..][i][mapping[name].s]
            && forall j :: 0 <= j < i ==> mapping[name].s !in data[1..][j];
          assert forall j :: 0 <= j < i + 1 ==> mapping[name].s !in data[j];
        } else {
          assert forall i :: 1 <= i < |data| ==> data[i] == data[1..][i - 1];
        }
      }
    }
  }

  /** define_figure_split */
  datatype Figure = Panes(rows: nat, cols: nat) | Raised(msg: string) | Exit(status: int)

  function DefineFigureSplit(split: Option<string>): (f: Figure)
    ensures split == Some("Unique") <==> f == Panes(1, 1)
    ensures f.Raised? <==> (split.Some? && split.value in
      {"Vertical", "Horizontal", "ThreeLeft", "ThreeTop", "ThreeRight", "ThreeBottom", "Four"})
    ensures f.Raised? ==> f.msg == "Unimplemented split"
    ensures f.Exit? ==> f.status == -1
  {
    if split == Some("Unique") then Panes(1, 1)
    else if split.Some? && split.value in
      {"Vertical", "Horizontal", "ThreeLeft", "ThreeTop", "ThreeRight", "ThreeBottom", "Four"}
    then Raised("Unimplemented split")
    else Exit(-1)
  }

  /** The renderer calls one mapping issues: `ax.plot` with its style,
      columns, colour, marker size and line width (None where the call
      leaves the keyword out), `ax.annotate`, and `ax.fill_between` with
      its colour. */
  datatype DrawCall<C> =
    | Plot(style: string, x: Option<C>, y: Option<C>, color: Option<C>, markersize: Option<C>, linewidth: Option<C>)
    | Annotate(ax: PyVal, ay: PyVal, text: PyVal)
    | FillBetween(fx: C, fy: C, ymax: C, fillColor: PyVal)

  function Zip3Annotations<C>(xs: seq<PyVal>, ys: seq<PyVal>, ts: seq<PyVal>): (r: seq<DrawCall<C>>)
    ensures |r| == Min3(|xs|, |ys|, |ts|)
    ensures forall i :: 0 <= i < |r| ==> r[i] == Annotate(xs[i], ys[i], ts[i])
  {
    if xs == [] || ys == [] || ts == [] then []
    else [Annotate(xs[0], ys[0], ts[0])] + Zip3Annotations(xs[1..], ys[1..], ts[1..])
  }

  function Min3(a: nat, b: nat, c: nat): nat
  {
    if a <= b && a <= c then a else if b <= c then b else c
  }

  /** The kind a record names, "" when its type is missing or not a text. */
  function KindOf(m: Record): string
  {
    if "type" in m && m["type"].PyStr? then m["type"].s else ""
  }

  /** The `ax.plot` call of a line or scatter mapping: each column, the
      colour, the marker size and the line width are searched in the
      frames; a scatter passes no line width. */
  function PlotCall(m: Record, data: seq<Frame<seq<PyVal>>>, line: bool): DrawCall<seq<PyVal>>
  {
    Plot(if line then "-" else "o", FirstColumn(data, m, "x"), FirstColumn(data, m, "y"),
         FirstColumn(data, m, "color"), FirstColumn(data, m, "radius"),
         if line then FirstColumn(data, m, "width") else None)
  }

  /** `data[mapping['x']]`: `data` is the list of CSV frames, so a column
      name (or None) as index raises TypeError; a record without x raises
      KeyError first. */
  function IndexFrameList(m: Record): (r: Result<seq<DrawCall<seq<PyVal>>>>)
    ensures r.Err? && (r.msg == "KeyError" <==> "x" !in m) && (r.msg == "TypeError" <==> "x" in m)
  {
    if "x" !in m then Err("KeyError") else Err("TypeError")
  }

  /** The calls one mapping record produces (draw_area's dispatch for one
      mapping, as written). */
  function DrawMapping(m: Record, data: seq<Frame<seq<PyVal>>>): (r: Result<seq<DrawCall<seq<PyVal>>>>)
    ensures KindOf(m) == "line" ==> r == Ok([PlotCall(m, data, true)])
    ensures KindOf(m) == "scatter" ==> r == Ok([PlotCall(m, data, false)])
    ensures KindOf(m) in {"bar", "surface"} ==> r == Err("Unimplemented")
    ensures KindOf(m) in {"text", "area"} ==> r.Err? && r.msg in {"KeyError", "TypeError"}
    ensures !(KindOf(m) in {"line", "scatter", "bar", "surface", "text", "area"}) ==> r == Err("Unknown mapping type")
  {
    var ty := KindOf(m);
    if ty == "line" then Ok([PlotCall(m, data, true)])
    else if ty == "scatter" then Ok([PlotCall(m, data, false)])
    else if ty == "bar" || ty == "surface" then Err("Unimplemented")
    else if ty == "text" || ty == "area" then IndexFrameList(m)
    else Err("Unknown mapping type")
  }

  /** Every record the reader builds holds a text or None under x. */
  lemma RecordXIsText(m: XNode, pf: string -> Option<real>, pi: string -> Option<int>)
    requires GetMappingProperties(m, pf, pi).Ok?
    ensures var rec := GetMappingProperties(m, pf, pi).value;
      "x" in rec && (rec["x"].PyStr? || rec["x"].PyNone?)
  {
    var xT := MProp(m, "x").value;
    var yT := MProp(m, "y").value;
    var cT := MProp(m, "color").value;
    var ty := AttrVal(m, "type");
    var extra := ExtraProps(m, ty.s, pf, pi).value;
    ExtraPropsKeys(m, ty.s, pf, pi);
    assert GetMappingProperties(m, pf, pi).value == CommonProps(m, xT, yT, cT) + extra;
    assert "x" !in extra;
  }

  /** As written, no text or area mapping the reader builds can be drawn:
      indexing the list of frames with its x raises TypeError. */
  lemma TextAreaRaiseTypeError(m: XNode, pf: string -> Option<real>, pi: string -> Option<int>, data: seq<Frame<seq<PyVal>>>)
    requires GetMappingProperties(m, pf, pi).Ok?
    requires KindOf(GetMappingProperties(m, pf, pi).value) in {"text", "area"}
    ensures DrawMapping(GetMappingProperties(m, pf, pi).value, data) == Err("TypeError")
  {
    RecordXIsText(m, pf, pi);
  }

  /** The column a mapping refers to under `name`, from the first frame
      holding it; a column found nowhere raises KeyError. */
  function FoundColumn(data: seq<Frame<seq<PyVal>>>, m: Record, name: string): Result<seq<PyVal>>
  {
    match FirstColumn(data, m, name)
    case None => Err("KeyError")
    case Some(c) => Ok(c)
  }

  /** draw_area's dispatch with the text and area columns searched in the
      frames like the other kinds, and the area keeping its colour. */
  function DrawMappingFixed(m: Record, data: seq<Frame<seq<PyVal>>>): (r: Result<seq<DrawCall<seq<PyVal>>>>)
  {
    var ty := KindOf(m);
    if ty == "text" then
      var xs :- FoundColumn(data, m, "x");
      var ys :- FoundColumn(data, m, "y");
      var ts :- FoundColumn(data, m, "text");
      Ok(Zip3Annotations(xs, ys, ts))
    else if ty == "area" then
      var xs :- FoundColumn(data, m, "x");
      var ys :- FoundColumn(data, m, "y");
      var ym :- FoundColumn(data, m, "ymax");
      if "color" !in m then Err("KeyError") else Ok([FillBetween(xs, ys, ym, m["color"])])
    else DrawMapping(m, data)
  }

  /** With the columns found in the frames, a text mapping annotates every
      point up to the shortest column, and an area mapping fills once
      between its columns with the mapping's colour; the other kinds draw
      as written. */
  lemma DrawMappingFixedTextArea(m: Record, data: seq<Frame<seq<PyVal>>>)
    ensures KindOf(m) !in {"text", "area"} ==> DrawMappingFixed(m, data) == DrawMapping(m, data)
    ensures KindOf(m) == "text" ==>
      (DrawMappingFixed(m, data).Ok? <==>
        FirstColumn(data, m, "x").Some? && FirstColumn(data, m, "y").Some? && FirstColumn(data, m, "text").Some?)
    ensures KindOf(m) == "text" && DrawMappingFixed(m, data).Ok? ==>
      var xs := FirstColumn(data, m, "x").value;
      var ys := FirstColumn(data, m, "y").value;
      var ts := FirstColumn(data, m, "text").value;
      var calls := DrawMappingFixed(m, data).value;
      |calls| == Min3(|xs|, |ys|, |ts|) && forall i :: 0 <= i < |calls| ==> calls[i] == Annotate(xs[i], ys[i], ts[i])
    ensures KindOf(m) == "area" ==>
      (DrawMappingFixed(m, data).Ok? <==>
        FirstColumn(data, m, "x").Some? && FirstColumn(data, m, "y").Some? && FirstColumn(data, m, "ymax").Some?
        && "color" in m)
    ensures KindOf(m) == "area" && DrawMappingFixed(m, data).Ok? ==>
      DrawMappingFixed(m, data).value == [FillBetween(FirstColumn(data, m, "x").value, FirstColumn(data, m, "y").value,
                                                     FirstColumn(data, m, "ymax").value, m["color"])]
  {
  }

  datatype Area = Area(x: Segment, y: Segment, mappings: seq<Record>)

  /** draw_area: the calls of all mappings, in order; the first failing mapping raises. */
  method DrawArea(area: Area, data: seq<Frame<seq<PyVal>>>) returns (r: Result<seq<DrawCall<seq<PyVal>>>>)
    ensures r == AreaCalls(area.mappings, data)
  {
    var calls: seq<DrawCall<seq<PyVal>>> := [];
    var i := 0;
    assert area.mappings[0..] == area.mappings;
    GlueEmpty(AreaCalls(area.mappings, data));
    while i < |area.mappings|
      invariant 0 <= i <= |area.mappings|
      invariant AreaCalls(area.mappings, data) == Glue(calls, AreaCalls(area.mappings[i..], data))
    {
      assert area.mappings[i..][1..] == area.mappings[i + 1..] && area.mappings[i..][0] == area.mappings[i];
      var c := DrawMapping(area.mappings[i], data);
      if c.Err? {
        return Err(c.msg);
      }
      GlueAssoc(calls, c.value, AreaCalls(area.mappings[i + 1..], data));
      calls := calls + c.value;
      i := i + 1;
    }
    assert area.mappings[i..] == [] && calls + [] == calls;
    return Ok(calls);
  }

  function AreaCalls(ms: seq<Record>, data: seq<Frame<seq<PyVal>>>): Result<seq<DrawCall<seq<PyVal>>>>
  {
    if ms == [] then Ok([])
    else
      var first :- DrawMapping(ms[0], data);
      var rest :- AreaCalls(ms[1..], data);
      Ok(first + rest)
  }

  lemma GlueEmpty<T>(r: Result<seq<T>>)
    ensures Glue([], r) == r
  {
    if r.Ok? {
      assert [] + r.value == r.value;
    }
  }

  lemma GlueAssoc<T>(a: seq<T>, b: seq<T>, r: Result<seq<T>>)
    ensures Glue(a, Glue(b, r)) == Glue(a + b, r)
  {
    if r.Ok? {
      assert a + (b + r.value) == (a + b) + r.value;
    }
  }

  /** As written, an area holding any bar, surface, text or area mapping
      cannot be drawn. */
  lemma {:induction false} UndrawableKindRaises(ms: seq<Record>, data: seq<Frame<seq<PyVal>>>, k: nat)
    requires k < |ms| && KindOf(ms[k]) in {"bar", "surface", "text", "area"}
    ensures AreaCalls(ms, data).Err?
    decreases k
  {
    if k > 0 {
      UndrawableKindRaises(ms[1..], data, k - 1);
    }
  }

  /** draw_plot: the split decides the panes; pane i draws area i. */
  function DrawPlot(design: Design, areas: seq<Area>, data: seq<Frame<seq<PyVal>>>): (r: Result<seq<DrawCall<seq<PyVal>>>>)
    ensures design.split != Some("Unique") ==> r.Err?
    ensures design.split == Some("Unique") && |areas| >= 1 ==> r == AreaCalls(areas[0].mappings, data)
  {
    match DefineFigureSplit(design.split)
    case Raised(msg) => Err(msg)
    case Exit(_) => Err("SystemExit")
    case Panes(_, _) =>
      if |areas| == 0 then Err("IndexError") else AreaCalls(areas[0].mappings, data)
  }

  /** The entry of one plotarea object: its x and y segments and its pooled mappings. */
  function AreaOf(obj: XNode, pf: string -> Option<real>, pi: string -> Option<int>): Result<Area>
  {
    var x :- GetSegmentProperties(obj, "x", pf, pi);
    var y :- GetSegmentProperties(obj, "y", pf, pi);
    var ms :- Records(MappingObjects(obj), pf, pi);
    Ok(Area(x, y, ms))
  }

  /** The area entries of the document, stopping at the first error. */
  function Areas(objs: seq<XNode>, pf: string -> Option<real>, pi: string -> Option<int>): (r: Result<seq<Area>>)
    ensures r.Ok? ==> |r.value| == |objs|
  {
    Collect(objs, obj => AreaOf(obj, pf, pi))
  }

  lemma AreasCons(objs: seq<XNode>, pf: string -> Option<real>, pi: string -> Option<int>)
    requires objs != []
    ensures var a := AreaOf(objs[0], pf, pi);
      Areas(objs, pf, pi) == if a.Err? then Err(a.msg) else Glue([a.value], Areas(objs[1..], pf, pi))
  {
  }

  /** get_area_list: one entry per plotarea object of the plotgroup, in order. */
  method GetAreaList(root: XNode, pf: string -> Option<real>, pi: string -> Option<int>) returns (r: Result<seq<Area>>)
    ensures r == Areas(ChildrenWhere(root, "object", "class", "plotarea"), pf, pi)
    ensures r.Ok? ==> |r.value| == |ChildrenWhere(root, "object", "class", "plotarea")|
  {
    var objs := ChildrenWhere(root, "object", "class", "plotarea");
    var areas: seq<Area> := [];
    var i := 0;
    assert objs[0..] == objs;
    GlueEmpty(Areas(objs, pf, pi));
    while i < |objs|
      invariant 0 <= i <= |objs|
      invariant Areas(objs, pf, pi) == Glue(areas, Areas(objs[i..], pf, pi))
    {
      AreasCons(objs[i..], pf, pi);
      assert objs[i..][1..] == objs[i + 1..] && objs[i..][0] == objs[i];
      var x := GetSegmentProperties(objs[i], "x", pf, pi);
      if x.Err? { return Err(x.msg); }
      var y := GetSegmentProperties(objs[i], "y", pf, pi);
      if y.Err? { return Err(y.msg); }
      var ms := PoolMappings(objs[i], pf, pi);
      if ms.Err? { return Err(ms.msg); }
      assert AreaOf(objs[i], pf, pi) == Ok(Area(x.value, y.value, ms.value));
      GlueAssoc(areas, [Area(x.value, y.value, ms.value)], Areas(objs[i + 1..], pf, pi));
      areas := areas + [Area(x.value, y.value, ms.value)];
      i := i + 1;
    }
    assert objs[i..] == [] && areas + [] == areas;
    return Ok(areas);
  }
}
