/** A plot group: one to four plot areas laid out by a split, loaded from a
    `plotgroup` layout, and the origin and scale of each pane when drawn. */
module PlotGroups {
  import opened Wrappers
  import opened PlotAreas

  datatype GroupSplit = Unique | Vertical | Horizontal | Four | ThreeLeft | ThreeTop | ThreeRight | ThreeBottom

  /** The layout text of a split. */
  function SplitName(g: GroupSplit): string
  {
    match g
    case Unique => "Unique"
    case Vertical => "Vertical"
    case Horizontal => "Horizontal"
    case Four => "Four"
    case ThreeLeft => "ThreeLeft"
    case ThreeTop => "ThreeTop"
    case ThreeRight => "ThreeRight"
    case ThreeBottom => "ThreeBottom"
  }

  /** The split tag of load_layout: exactly the eight names, anything else refused. */
  function SplitOfName(s: string): (r: Option<GroupSplit>)
    ensures r.Some? ==> SplitName(r.value) == s
  {
    match s
    case "Unique" => Some(Unique)
    case "Four" => Some(Four)
    case "Horizontal" => Some(Horizontal)
    case "Vertical" => Some(Vertical)
    case "ThreeLeft" => Some(ThreeLeft)
    case "ThreeTop" => Some(ThreeTop)
    case "ThreeRight" => Some(ThreeRight)
    case "ThreeBottom" => Some(ThreeBottom)
    case _ => None
  }

  /** Every split is read back from its own name. */
  lemma SplitNameRoundTrip(g: GroupSplit)
    ensures SplitOfName(SplitName(g)) == Some(g)
  {
  }

  /** The number of plot areas a split lays out. */
  function AreaCount(g: GroupSplit): nat
  {
    match g
    case Unique => 1
    case Vertical => 2
    case Horizontal => 2
    case Four => 4
    case _ => 3
  }

  /** The error load_layout gives when the area count does not match the split. */
  function CountMessage(g: GroupSplit): string
  {
    match g
    case Unique => "'None' split require 1 plot"
    case Vertical => "Vertical split require 2 plots"
    case Horizontal => "Horizontal split require 2 plots"
    case Four => "'Both' split require 4 plots"
    case _ => "'Three' split require 3 plots"
  }

  /** The from/to of the x and y grid segments of an area. */
  datatype Bounds = Bounds(xFrom: real, xTo: real, yFrom: real, yTo: real)

  /** A child of the `plotgroup` root: a `property` (its name attribute, its
      text and that text read as a number, when it reads as one), a
      `plotarea`, or any other node.  A plot area carries its mapping nodes
      and what read_grid_segment gives for its x and y segments: a panic
      for a missing property (`unwrap` and map indexing), an error for a
      text that does not parse, or the bounds. */
  datatype AreaData = AreaData(mappings: seq<MappingNode>, grid: Outcome<Result<Bounds>>)

  datatype GroupNode =
    | Property(name: Option<string>, content: string, number: Option<real>)
    | AreaNode(area: AreaData)
    | OtherNode

  /** What the scan of the children has gathered so far. */
  datatype Scan = Scan(vRatio: Option<real>, hRatio: Option<real>, split: Option<GroupSplit>, areas: seq<AreaData>)

  /** One child of the scan in load_layout. */
  function ScanStep(s: Scan, c: GroupNode): Result<Scan>
  {
    match c
    case Property(name, content, number) =>
      if name == Some("vertical_ratio") then
        if number.None? then Err("Unabe to parse vertical ratio") else Ok(s.(vRatio := number))
      else if name == Some("horizontal_ratio") then
        if number.None? then Err("Unabe to parse horizontal ratio") else Ok(s.(hRatio := number))
      else if name == Some("split") then
        match SplitOfName(content)
        case None => Err("Unrecognized split value")
        case Some(g) => Ok(s.(split := Some(g)))
      else Err("Unknown property")
    case AreaNode(a) => Ok(s.(areas := s.areas + [a]))
    case OtherNode => Ok(s)
  }

  /** The scan of load_layout over the root's children, stopping at the first error. */
  function ScanLayout(cs: seq<GroupNode>): Result<Scan>
    decreases |cs|
  {
    if |cs| == 0 then Ok(Scan(None, None, None, []))
    else
      var prev :- ScanLayout(cs[..|cs| - 1]);
      ScanStep(prev, cs[|cs| - 1])
  }

  /** Once a prefix fails, the scan fails with the same message. */
  lemma {:induction false} ScanStops(cs: seq<GroupNode>, i: nat)
    requires i <= |cs| && ScanLayout(cs[..i]).Err?
    ensures ScanLayout(cs) == ScanLayout(cs[..i])
    decreases |cs| - i
  {
    if i < |cs| {
      assert cs[..|cs| - 1][..i] == cs[..i];
      ScanStops(cs[..|cs| - 1], i);
    } else {
      assert cs[..i] == cs;
    }
  }

  /** A property other than the two ratios and the split makes the load fail. */
  lemma {:induction false} UnknownPropertyRejected(cs: seq<GroupNode>, j: nat)
    requires j < |cs| && cs[j].Property?
    requires cs[j].name !in {Some("vertical_ratio"), Some("horizontal_ratio"), Some("split")}
    ensures ScanLayout(cs).Err?
    decreases |cs|
  {
    if j < |cs| - 1 {
      UnknownPropertyRejected(cs[..|cs| - 1], j);
    }
  }

  /** A split tag outside the eight names makes the load fail. */
  lemma {:induction false} UnknownSplitRejected(cs: seq<GroupNode>, j: nat)
    requires j < |cs| && cs[j].Property? && cs[j].name == Some("split")
    requires SplitOfName(cs[j].content).None?
    ensures ScanLayout(cs).Err?
    decreases |cs|
  {
    if j < |cs| - 1 {
      UnknownSplitRejected(cs[..|cs| - 1], j);
    }
  }

  /** The plotarea children, in document order. */
  function AreasOf(cs: seq<GroupNode>): (r: seq<AreaData>)
    ensures |r| <= |cs|
    decreases |cs|
  {
    if |cs| == 0 then []
    else AreasOf(cs[..|cs| - 1]) + (if cs[|cs| - 1].AreaNode? then [cs[|cs| - 1].area] else [])
  }

  /** A successful scan keeps every plotarea child, in order, and nothing else. */
  lemma {:induction false} ScanKeepsAreas(cs: seq<GroupNode>)
    ensures ScanLayout(cs).Ok? ==> ScanLayout(cs).value.areas == AreasOf(cs)
    decreases |cs|
  {
    if |cs| > 0 {
      ScanKeepsAreas(cs[..|cs| - 1]);
    }
  }

  class PlotGroup {
    var split: GroupSplit
    var hRatio: real
    var vRatio: real
    var plots: seq<PlotArea>

    /** The group as PlotGroup::new sets it up before loading its layout. */
    constructor ()
      ensures split == Unique && hRatio == 1.0 && vRatio == 1.0 && plots == []
    {
      split, hRatio, vRatio, plots := Unique, 1.0, 1.0, [];
    }

    /** load_layout: the root must be `plotgroup`; the children are scanned
        (ratios, split tag, plot areas); there must be at least one area; a
        missing split tag means Unique; the area count must match the split;
        then every area reloads its grid segments and then its mappings. */
    method LoadLayout(root: string, children: seq<GroupNode>) returns (r: Outcome<Result<()>>)
      modifies this
      ensures root != "plotgroup" ==> r == Returned(Err("Root node should be called plotgroup"))
      ensures root == "plotgroup" && ScanLayout(children).Err? ==> r == Returned(Err(ScanLayout(children).msg))
      ensures root == "plotgroup" && ScanLayout(children).Ok? && |ScanLayout(children).value.areas| == 0 ==>
        r == Returned(Err("Root node plotgroup does not contain any plotarea children."))
      ensures root == "plotgroup" && ScanLayout(children).Ok? && |ScanLayout(children).value.areas| > 0 ==>
        var s := ScanLayout(children).value;
        && split == FinalSplit(s)
        && (|s.areas| != AreaCount(split) ==> r == Returned(Err(CountMessage(split))))
        && (|s.areas| == AreaCount(split) ==> r == LoadStatus(s.areas))
      ensures r == Returned(Ok(())) <==>
        root == "plotgroup" && ScanLayout(children).Ok? && |ScanLayout(children).value.areas| > 0
        && |ScanLayout(children).value.areas| == AreaCount(FinalSplit(ScanLayout(children).value))
        && LoadStatus(ScanLayout(children).value.areas) == Returned(Ok(()))
      ensures r == Returned(Ok(())) ==>
        var s := ScanLayout(children).value;
        && |plots| == |s.areas| == AreaCount(split)
        && (vRatio == if s.vRatio.Some? then s.vRatio.value else old(vRatio))
        && (hRatio == if s.hRatio.Some? then s.hRatio.value else old(hRatio))
        && forall k :: 0 <= k < |plots| ==> Loaded(plots[k], s.areas[k])
    {
      if root != "plotgroup" {
        return Returned(Err("Root node should be called plotgroup"));
      }
      var scan := ScanChildren(children);
      if scan.Err? {
        return Returned(Err(scan.msg));
      }
      var areas := scan.value.areas;
      if |areas| == 0 {
        return Returned(Err("Root node plotgroup does not contain any plotarea children."));
      }
      if scan.value.split.None? {
        split := Unique;
      }
      if |areas| != AreaCount(split) {
        return Returned(Err(CountMessage(split)));
      }
      r := ReloadAreas(areas);
    }

    /** The loop over the root's children in load_layout: the ratios and the
        split tag are stored as they are read, the plot areas gathered. */
    method ScanChildren(children: seq<GroupNode>) returns (r: Result<Scan>)
      modifies this
      ensures r == ScanLayout(children) && plots == []
      ensures r.Ok? ==> var s := r.value;
        (s.split.Some? ==> split == s.split.value)
        && (vRatio == if s.vRatio.Some? then s.vRatio.value else old(vRatio))
        && (hRatio == if s.hRatio.Some? then s.hRatio.value else old(hRatio))
    {
      plots := [];
      var areas: seq<AreaData> := [];
      var foundSplit := false;
      var i := 0;
      while i < |children|
        invariant 0 <= i <= |children|
        invariant ScanLayout(children[..i]).Ok? && plots == []
        invariant var s := ScanLayout(children[..i]).value;
          areas == s.areas && foundSplit == s.split.Some?
          && (s.split.Some? ==> split == s.split.value)
          && (vRatio == if s.vRatio.Some? then s.vRatio.value else old(vRatio))
          && (hRatio == if s.hRatio.Some? then s.hRatio.value else old(hRatio))
      {
        assert children[..i + 1][..i] == children[..i];
        var c := children[i];
        match c {
          case Property(name, content, number) =>
            if name == Some("vertical_ratio") {
              if number.None? {
                ScanStops(children, i + 1);
                return Err("Unabe to parse vertical ratio");
              }
              vRatio := number.value;
            } else if name == Some("horizontal_ratio") {
              if number.None? {
                ScanStops(children, i + 1);
                return Err("Unabe to parse horizontal ratio");
              }
              hRatio := number.value;
            } else if name == Some("split") {
              foundSplit := true;
              var g := SplitOfName(content);
              if g.None? {
                ScanStops(children, i + 1);
                return Err("Unrecognized split value");
              }
              split := g.value;
            } else {
              ScanStops(children, i + 1);
              return Err("Unknown property");
            }
          case AreaNode(a) =>
            areas := areas + [a];
          case OtherNode =>
        }
        i := i + 1;
      }
      assert children[..i] == children;
      return ScanLayout(children);
    }

    /** The end of load_layout: reload_layout_data reads the grid segments
        of every area, then every area reloads its mappings; the first
        failure stops the load. */
    method ReloadAreas(areas: seq<AreaData>) returns (r: Outcome<Result<()>>)
      modifies this
      ensures split == old(split) && vRatio == old(vRatio) && hRatio == old(hRatio)
      ensures r == LoadStatus(areas)
      ensures r == Returned(Ok(())) ==> |plots| == |areas| && forall k :: 0 <= k < |plots| ==> Loaded(plots[k], areas[k])
    {
      plots := [];
      var k := 0;
      while k < |areas|
        invariant 0 <= k <= |areas|
        invariant LayoutStatus(areas) == LayoutStatus(areas[k..])
        invariant forall a :: 0 <= a < k ==> GridRead(areas[a])
        invariant split == old(split) && vRatio == old(vRatio) && hRatio == old(hRatio)
      {
        assert areas[k..][1..] == areas[k + 1..];
        if areas[k].grid.Panic? {
          return Panic;
        }
        if areas[k].grid.value.Err? {
          return Returned(Err("Could not reload layout data"));
        }
        k := k + 1;
      }
      assert areas[k..] == [];
      r := ReloadMappingsOfAll(areas);
    }

    /** The second loop of ReloadAreas: one plot area per plotarea child,
        with the bounds read, each reloading its mappings. */
    method ReloadMappingsOfAll(areas: seq<AreaData>) returns (r: Outcome<Result<()>>)
      requires forall a :: 0 <= a < |areas| ==> GridRead(areas[a])
      modifies this
      ensures split == old(split) && vRatio == old(vRatio) && hRatio == old(hRatio)
      ensures r == MappingsStatus(areas)
      ensures r == Returned(Ok(())) ==> |plots| == |areas| && forall k :: 0 <= k < |plots| ==> Loaded(plots[k], areas[k])
    {
      var loaded;
      loaded, r := LoadAreas(areas);
      plots := loaded;
    }
  }

  /** The areas load_layout builds, in order, until one fails to reload. */
  method LoadAreas(areas: seq<AreaData>) returns (plots: seq<PlotArea>, r: Outcome<Result<()>>)
    requires forall a :: 0 <= a < |areas| ==> GridRead(areas[a])
    ensures r == MappingsStatus(areas)
    ensures r == Returned(Ok(())) ==> |plots| == |areas| && forall k :: 0 <= k < |plots| ==> Loaded(plots[k], areas[k])
  {
    plots := [];
    var k := 0;
    while k < |areas|
      invariant 0 <= k <= |areas| && |plots| == k
      invariant MappingsStatus(areas) == MappingsStatus(areas[k..])
      invariant forall a :: 0 <= a < k ==> Loaded(plots[a], areas[a])
    {
      var p, st := LoadArea(areas[k]);
      if st.Panic? {
        return plots, Panic;
      }
      if st.value.Err? {
        return plots, Returned(Err("Could not reload mappings from informed layout"));
      }
      assert st.value.value == ();
      MappingsStatusStep(areas, k);
      plots := plots + [p];
      k := k + 1;
    }
    assert areas[k..] == [];
    return plots, Returned(Ok(()));
  }

  /** One plot area of load_layout: built with the bounds read, then its
      mappings reloaded. */
  method LoadArea(a: AreaData) returns (p: PlotArea, st: Outcome<Result<()>>)
    requires GridRead(a)
    ensures fresh(p)
    ensures st == ReloadSpec(a.mappings).status
    ensures st == Returned(Ok(())) ==> Loaded(p, a)
  {
    var b := a.grid.value.value;
    p := new PlotArea(a.mappings, b.xFrom, b.xTo, b.yFrom, b.yTo);
    st := p.ReloadMappings();
  }

  /** The split load_layout settles on: the last split tag, Unique without one. */
  function FinalSplit(s: Scan): GroupSplit
  {
    if s.split.Some? then s.split.value else Unique
  }

  /** The grid segments of an area were read. */
  predicate GridRead(a: AreaData)
  {
    a.grid.Returned? && a.grid.value.Ok?
  }

  /** A plot area loaded from its plotarea child: its nodes, the bounds of
      its grid segments and its mappings reloaded without failure. */
  ghost predicate Loaded(p: PlotArea, a: AreaData)
    reads p
  {
    && p.nodes == a.mappings
    && GridRead(a)
    && var b := a.grid.value.value;
    && p.xFrom == b.xFrom && p.xTo == b.xTo && p.yFrom == b.yFrom && p.yTo == b.yTo
    && ReloadSpec(p.nodes).status == Returned(Ok(()))
    && p.mappings == ReloadSpec(p.nodes).list
  }

  /** reload_layout_data over the areas: the first grid that panics or fails stops it. */
  function LayoutStatus(areas: seq<AreaData>): (r: Outcome<Result<()>>)
    ensures r.Returned? && r.value.Err? ==> r.value.msg == "Could not reload layout data"
  {
    if areas == [] then Returned(Ok(()))
    else match areas[0].grid
      case Panic => Panic
      case Returned(Err(_)) => Returned(Err("Could not reload layout data"))
      case Returned(Ok(_)) => LayoutStatus(areas[1..])
  }

  /** The reload_mappings loop over the areas: the first reload that panics or fails stops it. */
  function MappingsStatus(areas: seq<AreaData>): (r: Outcome<Result<()>>)
    ensures r.Returned? && r.value.Err? ==> r.value.msg == "Could not reload mappings from informed layout"
  {
    if areas == [] then Returned(Ok(()))
    else
      var st := ReloadSpec(areas[0].mappings).status;
      if st == Returned(Ok(())) then MappingsStatus(areas[1..])
      else if st.Panic? then Panic
      else Returned(Err("Could not reload mappings from informed layout"))
  }

  lemma MappingsStatusStep(areas: seq<AreaData>, k: nat)
    requires k < |areas| && ReloadSpec(areas[k].mappings).status == Returned(Ok(()))
    ensures MappingsStatus(areas[k..]) == MappingsStatus(areas[k + 1..])
  {
    assert areas[k..][1..] == areas[k + 1..];
  }

  /** How the end of load_layout finishes: the layout data first, then the mappings. */
  function LoadStatus(areas: seq<AreaData>): Outcome<Result<()>>
  {
    if LayoutStatus(areas) != Returned(Ok(())) then LayoutStatus(areas) else MappingsStatus(areas)
  }

  /** The layout data reloads exactly when every area's grid segments are read. */
  lemma {:induction false} LayoutStatusOk(areas: seq<AreaData>)
    ensures LayoutStatus(areas) == Returned(Ok(())) <==> forall k :: 0 <= k < |areas| ==> GridRead(areas[k])
  {
    if areas != [] {
      LayoutStatusOk(areas[1..]);
      assert forall k :: 1 <= k < |areas| ==> areas[k] == areas[1..][k - 1];
    }
  }

  /** The mappings reload exactly when every area's reload succeeds. */
  lemma {:induction false} MappingsStatusOk(areas: seq<AreaData>)
    ensures MappingsStatus(areas) == Returned(Ok(())) <==>
      forall k :: 0 <= k < |areas| ==> ReloadSpec(areas[k].mappings).status == Returned(Ok(()))
  {
    if areas != [] {
      MappingsStatusOk(areas[1..]);
      assert forall k :: 1 <= k < |areas| ==> areas[k] == areas[1..][k - 1];
    }
  }

  /** The end of load_layout succeeds exactly when every area's grid
      segments are read and every area's mappings reload; otherwise it
      panics, or fails with the message of the step that stopped it. */
  lemma LoadStatusOk(areas: seq<AreaData>)
    ensures LoadStatus(areas) == Returned(Ok(())) <==>
      (forall k :: 0 <= k < |areas| ==> GridRead(areas[k]))
      && forall k :: 0 <= k < |areas| ==> ReloadSpec(areas[k].mappings).status == Returned(Ok(()))
    ensures LoadStatus(areas).Returned? && LoadStatus(areas).value.Err? ==>
      LoadStatus(areas).value.msg in {"Could not reload layout data", "Could not reload mappings from informed layout"}
  {
    LayoutStatusOk(areas);
    MappingsStatusOk(areas);
  }

  // ---------------------------------------------------------------------
  // Pane origins and scales in draw_to_context

  /** The origin offset of pane i in a w x h drawing, as written. */
  function OriginOffset(g: GroupSplit, i: nat, w: real, h: real, hr: real, vr: real): (real, real)
  {
    var topLeft := (0.05, 0.05);
    var topRight := (w * vr, 0.05);
    var bottomLeft := (0.05, h * hr);
    var bottomRight := (w * vr, h * hr);
    match (g, i)
    case (Horizontal, 1) => (0.05, h * vr)
    case (Vertical, 1) => (w * hr, 0.05)
    case (Four, 1) => topRight
    case (Four, 2) => bottomLeft
    case (Four, 3) => bottomRight
    case (ThreeLeft, 1) => topRight
    case (ThreeLeft, 2) => bottomRight
    case (ThreeTop, 1) => bottomLeft
    case (ThreeTop, 2) => bottomRight
    case (ThreeRight, 0) => topLeft
    case (ThreeRight, 1) => topLeft
    case (ThreeRight, 2) => bottomLeft
    case (ThreeBottom, 0) => topLeft
    case (ThreeBottom, 1) => bottomLeft
    case (ThreeBottom, 2) => bottomRight
    case _ => topLeft
  }

  /** The (width, height) fractions of pane i, as written. */
  function ScaleFactor(g: GroupSplit, i: nat, hr: real, vr: real): (real, real)
  {
    var hFullV := (1.0, vr);
    var hFullVCompl := (1.0, 1.0 - vr);
    var hVFull := (hr, 1.0);
    var hComplVFull := (1.0 - hr, 1.0);
    var hComplV := (1.0 - hr, vr);
    var hVCompl := (hr, 1.0 - vr);
    var diag := (hr, vr);
    var diagCompl := (1.0 - hr, 1.0 - vr);
    match (g, i)
    case (Horizontal, 0) => hFullV
    case (Horizontal, 1) => hFullVCompl
    case (Vertical, 0) => hFullV
    case (Vertical, 1) => hComplVFull
    case (Four, 0) => diag
    case (Four, 1) => hComplV
    case (Four, 2) => hVCompl
    case (Four, 3) => diagCompl
    case (ThreeLeft, 0) => hFullV
    case (ThreeLeft, 1) => hComplV
    case (ThreeLeft, 2) => diagCompl
    case (ThreeTop, 0) => hComplVFull
    case (ThreeTop, 1) => hVCompl
    case (ThreeTop, 2) => diagCompl
    case (ThreeRight, 0) => diag
    case (ThreeRight, 1) => hFullVCompl
    case (ThreeRight, 2) => hVCompl
    case (ThreeBottom, 0) => diag
    case (ThreeBottom, 1) => hComplV
    case (ThreeBottom, 2) => hComplVFull
    case _ => (1.0, 1.0)
  }

  /** Panes beyond the split's count, and every pane of Unique, sit at the
      top-left corner at full scale; in Four and Horizontal the fractions of
      neighbouring panes add up to the whole. */
  lemma PaneTables(g: GroupSplit, i: nat, w: real, h: real, hr: real, vr: real)
    ensures i >= AreaCount(g) ==> OriginOffset(g, i, w, h, hr, vr) == (0.05, 0.05) && ScaleFactor(g, i, hr, vr) == (1.0, 1.0)
    ensures ScaleFactor(Four, 0, hr, vr).0 + ScaleFactor(Four, 1, hr, vr).0 == 1.0
    ensures ScaleFactor(Four, 0, hr, vr).1 + ScaleFactor(Four, 2, hr, vr).1 == 1.0
    ensures ScaleFactor(Horizontal, 0, hr, vr).1 + ScaleFactor(Horizontal, 1, hr, vr).1 == 1.0
    ensures OriginOffset(Horizontal, 1, w, h, hr, vr).1 == h * ScaleFactor(Horizontal, 0, hr, vr).1
  {
  }

  /** As written, the Four split places pane 1 at w * v_ratio although pane 0
      is w * h_ratio wide: with h_ratio 1/4 and v_ratio 3/4 on a 100-wide
      drawing, pane 0 ends at 25 and pane 1 starts at 75. */
  lemma FourCornerGap()
    ensures 100.0 * ScaleFactor(Four, 0, 0.25, 0.75).0 == 25.0
    ensures OriginOffset(Four, 1, 100.0, 100.0, 0.25, 0.75).0 == 75.0
    ensures OriginOffset(Four, 2, 100.0, 100.0, 0.25, 0.75).1 == 25.0
    ensures 100.0 * ScaleFactor(Four, 0, 0.25, 0.75).1 == 75.0
  {
  }

  /** As written, pane 0 of the Vertical split is full width while pane 1
      starts at w * h_ratio, so the two overlap whenever h_ratio < 1. */
  lemma VerticalOverlap(w: real, hr: real, vr: real)
    requires w > 0.0 && 0.0 < hr < 1.0
    ensures OriginOffset(Vertical, 1, w, 100.0, hr, vr).0 < w * ScaleFactor(Vertical, 0, hr, vr).0
  {
  }

  /** The origins with the corners taken from h_ratio across and v_ratio down. */
  function OriginOffsetFixed(g: GroupSplit, i: nat, w: real, h: real, hr: real, vr: real): (real, real)
  {
    var topRight := (w * hr, 0.05);
    var bottomLeft := (0.05, h * vr);
    var bottomRight := (w * hr, h * vr);
    match (g, i)
    case (Four, 1) => topRight
    case (Four, 2) => bottomLeft
    case (Four, 3) => bottomRight
    case (ThreeLeft, 1) => topRight
    case (ThreeLeft, 2) => bottomRight
    case (ThreeTop, 1) => bottomLeft
    case (ThreeTop, 2) => bottomRight
    case (ThreeRight, 2) => bottomLeft
    case (ThreeBottom, 1) => bottomLeft
    case (ThreeBottom, 2) => bottomRight
    case _ => OriginOffset(g, i, w, h, hr, vr)
  }

  /** The scales with pane 0 of the Vertical split h_ratio wide and full height. */
  function ScaleFactorFixed(g: GroupSplit, i: nat, hr: real, vr: real): (real, real)
  {
    if g == Vertical && i == 0 then (hr, 1.0) else ScaleFactor(g, i, hr, vr)
  }

  /** With the corrected tables, in the Vertical, Horizontal and Four splits
      each pane starts where its left or upper neighbour ends, and the
      neighbours' fractions add up to the whole. */
  lemma PanesMeetFixed(w: real, h: real, hr: real, vr: real)
    ensures OriginOffsetFixed(Vertical, 1, w, h, hr, vr).0 == w * ScaleFactorFixed(Vertical, 0, hr, vr).0
    ensures ScaleFactorFixed(Vertical, 0, hr, vr).0 + ScaleFactorFixed(Vertical, 1, hr, vr).0 == 1.0
    ensures ScaleFactorFixed(Vertical, 0, hr, vr).1 == 1.0 == ScaleFactorFixed(Vertical, 1, hr, vr).1
    ensures OriginOffsetFixed(Horizontal, 1, w, h, hr, vr).1 == h * ScaleFactorFixed(Horizontal, 0, hr, vr).1
    ensures OriginOffsetFixed(Four, 1, w, h, hr, vr).0 == w * ScaleFactorFixed(Four, 0, hr, vr).0
    ensures OriginOffsetFixed(Four, 2, w, h, hr, vr).1 == h * ScaleFactorFixed(Four, 0, hr, vr).1
    ensures OriginOffsetFixed(Four, 3, w, h, hr, vr).0 == w * ScaleFactorFixed(Four, 2, hr, vr).0
    ensures OriginOffsetFixed(Four, 3, w, h, hr, vr).1 == h * ScaleFactorFixed(Four, 1, hr, vr).1
  {
  }
}
