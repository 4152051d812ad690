/** The layout toolbar: the eight toolbars of layout toggles, one per plot
    group split, the mapping-type toggles that follow the number of selected
    columns, and the lookup and removal of the data sources bound to a
    selection. */
module LayoutToolbars {
  import opened Wrappers
  import opened Strs
  import opened PlotGroups
  import PlotWorkspaces
  import opened DataSources

  // ---------------------------------------------------------------------
  // Layout toggles

  /** The toolbars of the layout stack, in stack order. */
  const Prefixes: seq<string> := ["unique", "vert", "horiz", "three-left", "three-top", "three-right", "three-bottom", "four"]

  /** How many toggles the toolbar with this prefix holds. */
  function NOpts(prefix: string): (n: nat)
    ensures 1 <= n <= 4
  {
    match prefix
    case "unique" => 1
    case "vert" => 2
    case "horiz" => 2
    case _ => if "three" <= prefix then 3 else 4
  }

  /** The stack child set_active shows for a stack position. */
  function StackName(pos: nat): (r: Option<string>)
    ensures r.Some? <==> pos < 8
  {
    match pos
    case 0 => Some("unique")
    case 1 => Some("vert")
    case 2 => Some("horiz")
    case 3 => Some("three-left")
    case 4 => Some("three-top")
    case 5 => Some("three-right")
    case 6 => Some("three-bottom")
    case 7 => Some("four")
    case _ => None
  }

  /** The stack position set_active_default gives a split. */
  function SplitPos(g: GroupSplit): (pos: nat)
    ensures pos < 8
  {
    match g
    case Unique => 0
    case Vertical => 1
    case Horizontal => 2
    case ThreeLeft => 3
    case ThreeTop => 4
    case ThreeRight => 5
    case ThreeBottom => 6
    case Four => 7
  }

  /** set_active shows, at each stack position, the toolbar built with the
      prefix of that position; the position of a split holds one toggle per
      pane of that split, and the workspace knows how to lay out that many
      panes with that split. */
  lemma StackMatchesBuild(pos: nat, g: GroupSplit)
    ensures pos < 8 ==> StackName(pos) == Some(Prefixes[pos])
    ensures NOpts(Prefixes[SplitPos(g)]) == (match g
      case Unique => 1
      case Vertical => 2 case Horizontal => 2
      case Four => 4
      case _ => 3)
    ensures PlotWorkspaces.Laid(NOpts(Prefixes[SplitPos(g)]), g)
  {
  }

  /** Distinct splits sit at distinct stack positions. */
  lemma SplitPosInjective(g: GroupSplit, h: GroupSplit)
    ensures SplitPos(g) == SplitPos(h) ==> g == h
  {
  }

  datatype Toggle = Toggle(active: bool, sensitive: bool)

  /** The group toolbar: the stack position and pane that are active, the
      recorded sensitivity, the visible stack child, and the toggles of
      every toolbar. */
  datatype ToolbarState = ToolbarState(stack: nat, area: Option<nat>, sensitive: bool, visible: string, toggles: seq<seq<Toggle>>)

  /** One toolbar per stack position, each with NOpts toggles. */
  predicate Shaped(toggles: seq<seq<Toggle>>)
  {
    |toggles| == 8 && forall i :: 0 <= i < 8 ==> |toggles[i]| == NOpts(Prefixes[i])
  }

  function MapRow(row: seq<Toggle>, f: Toggle -> Toggle): (r: seq<Toggle>)
    ensures |r| == |row| && forall j :: 0 <= j < |row| ==> r[j] == f(row[j])
  {
    seq(|row|, j requires 0 <= j < |row| => f(row[j]))
  }

  function MapAll(ts: seq<seq<Toggle>>, f: Toggle -> Toggle): (r: seq<seq<Toggle>>)
    ensures |r| == |ts| && forall i :: 0 <= i < |ts| ==> r[i] == MapRow(ts[i], f)
  {
    seq(|ts|, i requires 0 <= i < |ts| => MapRow(ts[i], f))
  }

  function Off(t: Toggle): Toggle { t.(active := false) }

  function SensitiveTo(b: bool): Toggle -> Toggle { (t: Toggle) => t.(sensitive := b) }

  /** set_inactive: outside the unique layout every toggle goes off and no
      pane is active; the unique layout is left as it is. */
  function Inactive(st: ToolbarState): ToolbarState
  {
    if st.stack != 0 then st.(toggles := MapAll(st.toggles, Off), area := None) else st
  }

  /** set_sensitive: outside the unique layout every toggle takes the flag,
      which is recorded; in the unique layout every toggle is made
      insensitive and the flag is not recorded. */
  function Sensitive(st: ToolbarState, b: bool): ToolbarState
  {
    if st.stack != 0 then st.(toggles := MapAll(st.toggles, SensitiveTo(b)), sensitive := b)
    else st.(toggles := MapAll(st.toggles, SensitiveTo(false)))
  }

  /** The toolbar set_active turns on: every toggle sensitive, only the one
      at pos active. */
  function Pick(row: seq<Toggle>, pos: nat): (r: seq<Toggle>)
    ensures |r| == |row|
  {
    seq(|row|, j requires 0 <= j < |row| => Toggle(j == pos, true))
  }

  /** set_active(stackPos, togglePos). */
  function SetActiveSpec(st: ToolbarState, stackPos: nat, togglePos: nat): Outcome<ToolbarState>
  {
    var s1 := Inactive(st);
    match StackName(stackPos)
    case None => Panic
    case Some(name) =>
      if stackPos >= |s1.toggles| then Panic
      else
        var s2 := s1.(visible := name, stack := stackPos, area := Some(togglePos),
                      toggles := s1.toggles[stackPos := Pick(s1.toggles[stackPos], togglePos)]);
        Returned(if stackPos == 0 then Sensitive(s2, false) else s2)
  }

  /** set_active records the stack position and the pane, shows that
      toolbar with only the toggle at the pane active, and keeps the
      toolbars shaped. Outside the unique layout the shown toggles are
      sensitive and, if the previous layout was not the unique one, every
      other toolbar is off; in the unique layout every toggle is
      insensitive and the recorded flag is kept. Positions above 7 panic. */
  lemma SetActiveRecords(st: ToolbarState, stackPos: nat, togglePos: nat)
    requires Shaped(st.toggles)
    ensures SetActiveSpec(st, stackPos, togglePos).Panic? <==> stackPos >= 8
    ensures SetActiveSpec(st, stackPos, togglePos).Returned? ==>
      var r := SetActiveSpec(st, stackPos, togglePos).value;
      && r.stack == stackPos && r.area == Some(togglePos) && r.visible == Prefixes[stackPos]
      && Shaped(r.toggles)
      && (forall j :: 0 <= j < |r.toggles[stackPos]| ==> (r.toggles[stackPos][j].active <==> j == togglePos))
      && (stackPos != 0 ==> forall j :: 0 <= j < |r.toggles[stackPos]| ==> r.toggles[stackPos][j].sensitive)
      && (stackPos != 0 ==> r.sensitive == st.sensitive)
      && (stackPos != 0 && st.stack != 0 ==>
            forall i, j :: 0 <= i < 8 && i != stackPos && 0 <= j < |r.toggles[i]| ==> !r.toggles[i][j].active)
      && (stackPos == 0 ==>
            (r.sensitive == st.sensitive
             && forall i, j :: 0 <= i < 8 && 0 <= j < |r.toggles[i]| ==> !r.toggles[i][j].sensitive))
  {
    if stackPos < 8 {
      var s1 := Inactive(st);
      assert Shaped(s1.toggles);
      var s2 := s1.(visible := Prefixes[stackPos], stack := stackPos, area := Some(togglePos),
                    toggles := s1.toggles[stackPos := Pick(s1.toggles[stackPos], togglePos)]);
      assert Shaped(s2.toggles);
      if st.stack != 0 {
        assert forall i, j :: 0 <= i < 8 && 0 <= j < |s1.toggles[i]| ==> !s1.toggles[i][j].active;
      }
      if stackPos == 0 {
        var r := Sensitive(s2, false);
        assert forall j :: 0 <= j < |r.toggles[0]| ==> r.toggles[0][j] == Toggle(j == togglePos, false);
      }
    }
  }

  /** set_active_default: the position of the split, or the current
      position, with the first pane active. */
  function SetActiveDefaultSpec(st: ToolbarState, layout: Option<GroupSplit>): Outcome<ToolbarState>
  {
    SetActiveSpec(st, if layout.Some? then SplitPos(layout.value) else st.stack, 0)
  }

  /** A given split never panics and shows its own toolbar with its first
      pane active; without a split the current position is kept. */
  lemma SetActiveDefaultShows(st: ToolbarState, layout: Option<GroupSplit>)
    requires Shaped(st.toggles) && st.stack < 8
    ensures SetActiveDefaultSpec(st, layout).Returned?
    ensures var r := SetActiveDefaultSpec(st, layout).value;
            r.area == Some(0) && r.stack == (if layout.Some? then SplitPos(layout.value) else st.stack)
            && r.toggles[r.stack][0].active
  {
    var pos := if layout.Some? then SplitPos(layout.value) else st.stack;
    SetActiveRecords(st, pos, 0);
  }

  /** The toolbars as build creates them, before its set_active(0, 0). */
  function Built(): (st: ToolbarState)
    ensures Shaped(st.toggles)
  {
    ToolbarState(0, None, true, "", seq(8, i requires 0 <= i < 8 => seq(NOpts(Prefixes[i]), _ => Toggle(false, true))))
  }

  /** After build the unique layout is shown with its single pane active,
      every toggle insensitive and the recorded flag still set. */
  lemma BuildShowsUnique()
    ensures SetActiveSpec(Built(), 0, 0).Returned?
    ensures var r := SetActiveSpec(Built(), 0, 0).value;
            r.stack == 0 && r.area == Some(0) && r.sensitive && r.toggles[0] == [Toggle(true, false)]
  {
    SetActiveRecords(Built(), 0, 0);
    var r := SetActiveSpec(Built(), 0, 0).value;
    assert |r.toggles[0]| == 1;
  }

  class GroupToolbar {
    var stack: nat
    var area: Option<nat>
    var sensitive: bool
    var visible: string
    var toggles: seq<seq<Toggle>>

    function State(): ToolbarState
      reads this
    {
      ToolbarState(stack, area, sensitive, visible, toggles)
    }

    /** build: the eight toolbars, then the unique layout made active. */
    constructor Build()
      ensures SetActiveSpec(Built(), 0, 0) == Returned(State())
    {
      var st := Built();
      stack, area, sensitive, visible, toggles := st.stack, st.area, st.sensitive, st.visible, st.toggles;
      new;
      SetActiveRecords(Built(), 0, 0);
      var r := SetActive(0, 0);
    }

    method SetInactive()
      modifies this
      ensures State() == Inactive(old(State()))
    {
      if stack != 0 {
        toggles := MapToggles(toggles, Off);
        area := None;
      }
    }

    method SetSensitive(b: bool)
      modifies this
      ensures State() == Sensitive(old(State()), b)
    {
      if stack != 0 {
        toggles := MapToggles(toggles, SensitiveTo(b));
        sensitive := b;
      } else {
        toggles := MapToggles(toggles, SensitiveTo(false));
      }
    }

    method SetActive(stackPos: nat, togglePos: nat) returns (r: Outcome<()>)
      modifies this
      ensures r.Panic? <==> SetActiveSpec(old(State()), stackPos, togglePos).Panic?
      ensures r.Returned? ==> Returned(State()) == SetActiveSpec(old(State()), stackPos, togglePos)
    {
      SetInactive();
      var name := StackName(stackPos);
      if name.None? || stackPos >= |toggles| {
        return Panic;
      }
      visible := name.value;
      stack, area := stackPos, Some(togglePos);
      var row := toggles[stackPos];
      var picked: seq<Toggle> := [];
      var i := 0;
      while i < |row|
        invariant 0 <= i <= |row|
        invariant picked == Pick(row, togglePos)[..i]
      {
        picked := picked + [Toggle(i == togglePos, true)];
        i := i + 1;
      }
      assert picked == Pick(row, togglePos);
      toggles := toggles[stackPos := picked];
      if stack == 0 {
        SetSensitive(false);
      }
      return Returned(());
    }

    method SetActiveDefault(layout: Option<GroupSplit>) returns (r: Outcome<()>)
      modifies this
      ensures r.Panic? <==> SetActiveDefaultSpec(old(State()), layout).Panic?
      ensures r.Returned? ==> Returned(State()) == SetActiveDefaultSpec(old(State()), layout)
    {
      var pos := if layout.Some? then SplitPos(layout.value) else stack;
      r := SetActive(pos, 0);
    }

    /** switch_active_plot: the same layout with another pane active. */
    method SwitchActivePlot(plotIx: nat) returns (r: Outcome<()>)
      modifies this
      ensures r.Panic? <==> SetActiveSpec(old(State()), old(stack), plotIx).Panic?
      ensures r.Returned? ==> Returned(State()) == SetActiveSpec(old(State()), old(stack), plotIx)
    {
      r := SetActive(stack, plotIx);
    }
  }

  /** Applies f to every toggle of every toolbar. */
  method MapToggles(ts: seq<seq<Toggle>>, f: Toggle -> Toggle) returns (r: seq<seq<Toggle>>)
    ensures r == MapAll(ts, f)
  {
    r := [];
    var i := 0;
    while i < |ts|
      invariant 0 <= i <= |ts|
      invariant r == MapAll(ts, f)[..i]
    {
      var row: seq<Toggle> := [];
      var j := 0;
      while j < |ts[i]|
        invariant 0 <= j <= |ts[i]|
        invariant row == MapRow(ts[i], f)[..j]
      {
        row := row + [f(ts[i][j])];
        j := j + 1;
      }
      assert row == MapRow(ts[i], f);
      assert MapAll(ts, f)[..i + 1] == MapAll(ts, f)[..i] + [MapRow(ts[i], f)];
      r := r + [row];
      i := i + 1;
    }
  }

  // ---------------------------------------------------------------------
  // Mapping-type toggles

  /** The mapping types whose toggle is sensitive for a number of selected
      columns. */
  function SensitiveTypes(ncols: nat): set<string>
  {
    match ncols
    case 1 => {"bar"}
    case 2 => {"line", "scatter"}
    case 3 => {"area", "text", "surface"}
    case _ => {}
  }

  /** config_toggles_sensitive, on the sensitivity of each mapping toggle. */
  function ConfigToggles(btns: map<string, bool>, ncols: nat): (r: map<string, bool>)
    ensures r.Keys == btns.Keys
  {
    map ty | ty in btns :: ty in SensitiveTypes(ncols)
  }

  /** A mapping toggle is sensitive exactly when the selection has as many
      columns as its mapping type takes; a type the workspace does not know
      is never sensitive. */
  lemma ConfigTogglesFollowArity(btns: map<string, bool>, ncols: nat, ty: string)
    requires ty in btns
    ensures ConfigToggles(btns, ncols)[ty] <==> Arity(ty) > 0 && ncols == ColumnsTaken(ty)
  {
  }

  // ---------------------------------------------------------------------
  // Sources bound to a selection

  /** What check_mapped reports for a source: its type, its plot, its
      position among the sources and its number in the plot. */
  datatype SelectedMapping = SelectedMapping(ty: string, plIx: nat, globalIx: nat, localIx: nat)

  /** Iterator::all over the zipped index lists. */
  function ZipEqual(a: seq<nat>, b: seq<nat>): bool
  {
    if |a| == 0 || |b| == 0 then true else a[0] == b[0] && ZipEqual(a[1..], b[1..])
  }

  /** The three tests of check_mapped on a source bound to table tblIx. */
  predicate Matches(s: DataSource, selected: seq<nat>, tblIx: nat, ty: Option<string>)
  {
    s.tblPos == Some(tblIx) && |selected| == |s.tblIxs| && ZipEqual(selected, s.tblIxs)
    && (ty.Some? ==> ty.value == s.ty)
  }

  /** The zipped comparison with equal lengths is equality of the lists. */
  lemma {:induction false} ZipEqualIff(a: seq<nat>, b: seq<nat>)
    requires |a| == |b|
    ensures ZipEqual(a, b) <==> a == b
  {
    if |a| > 0 {
      ZipEqualIff(a[1..], b[1..]);
      assert a == [a[0]] + a[1..] && b == [b[0]] + b[1..];
    }
  }

  /** A source matches when it is bound to the table, its table indices
      are the selection, and its type is the one asked for, if any. */
  lemma MatchesIff(s: DataSource, selected: seq<nat>, tblIx: nat, ty: Option<string>)
    ensures Matches(s, selected, tblIx, ty) <==>
      s.tblPos == Some(tblIx) && s.tblIxs == selected && (ty.Some? ==> ty.value == s.ty)
  {
    if |selected| == |s.tblIxs| {
      ZipEqualIff(selected, s.tblIxs);
    }
  }

  /** check_mapped over the first sources: a source not bound to any table,
      or a matching one whose name is not a number, panics. */
  function CheckMappedSpec(sources: seq<DataSource>, selected: seq<nat>, tblIx: nat, ty: Option<string>): Outcome<seq<SelectedMapping>>
  {
    if |sources| == 0 then Returned([])
    else
      var n := |sources| - 1;
      var prev := CheckMappedSpec(sources[..n], selected, tblIx, ty);
      var s := sources[n];
      if prev.Panic? || s.tblPos.None? then Panic
      else if !Matches(s, selected, tblIx, ty) then prev
      else match ParseNat(s.name)
        case None => Panic
        case Some(l) => Returned(prev.value + [SelectedMapping(s.ty, s.plotIx, n, l)])
  }

  /** The source at i makes check_mapped panic. */
  predicate Breaks(sources: seq<DataSource>, selected: seq<nat>, tblIx: nat, ty: Option<string>, i: nat)
    requires i < |sources|
  {
    sources[i].tblPos.None? || (Matches(sources[i], selected, tblIx, ty) && ParseNat(sources[i].name).None?)
  }

  /** check_mapped panics exactly when some source breaks it. */
  lemma {:induction false} CheckMappedPanics(sources: seq<DataSource>, selected: seq<nat>, tblIx: nat, ty: Option<string>)
    ensures CheckMappedSpec(sources, selected, tblIx, ty).Panic? <==>
      exists i :: 0 <= i < |sources| && Breaks(sources, selected, tblIx, ty, i)
  {
    if |sources| > 0 {
      var n := |sources| - 1;
      CheckMappedPanics(sources[..n], selected, tblIx, ty);
      if exists i :: 0 <= i < n && Breaks(sources[..n], selected, tblIx, ty, i) {
        var i :| 0 <= i < n && Breaks(sources[..n], selected, tblIx, ty, i);
        assert sources[..n][i] == sources[i];
        assert Breaks(sources, selected, tblIx, ty, i);
      } else {
        forall i | 0 <= i < n
          ensures !Breaks(sources, selected, tblIx, ty, i)
        {
          assert sources[..n][i] == sources[i];
          assert !Breaks(sources[..n], selected, tblIx, ty, i);
        }
        if Breaks(sources, selected, tblIx, ty, n) {
          assert CheckMappedSpec(sources, selected, tblIx, ty).Panic?;
        } else {
          assert CheckMappedSpec(sources, selected, tblIx, ty).Returned?;
        }
      }
    }
  }

  /** What check_mapped reports for the source at i, when it matches. */
  function Reported(sources: seq<DataSource>, i: nat, l: nat): SelectedMapping
    requires i < |sources|
  {
    SelectedMapping(sources[i].ty, sources[i].plotIx, i, l)
  }

  /** Every entry of ms reports a matching source with a numeric name. */
  predicate ReportsMatching(sources: seq<DataSource>, selected: seq<nat>, tblIx: nat, ty: Option<string>, ms: seq<SelectedMapping>)
  {
    forall k :: 0 <= k < |ms| ==>
      ms[k].globalIx < |sources| && Matches(sources[ms[k].globalIx], selected, tblIx, ty)
      && Some(ms[k].localIx) == ParseNat(sources[ms[k].globalIx].name)
      && ms[k] == Reported(sources, ms[k].globalIx, ms[k].localIx)
  }

  /** The entries of ms follow the order of the sources. */
  predicate InSourceOrder(ms: seq<SelectedMapping>)
  {
    forall k, m :: 0 <= k < m < |ms| ==> ms[k].globalIx < ms[m].globalIx
  }

  /** Every matching source has an entry in ms. */
  predicate CoversMatching(sources: seq<DataSource>, selected: seq<nat>, tblIx: nat, ty: Option<string>, ms: seq<SelectedMapping>)
  {
    forall i :: 0 <= i < |sources| && Matches(sources[i], selected, tblIx, ty) ==>
      exists k :: 0 <= k < |ms| && ms[k].globalIx == i
  }

  /** When check_mapped returns, it lists exactly the matching sources, in
      their order, each with its type, plot and number. */
  lemma {:induction false} CheckMappedExactly(sources: seq<DataSource>, selected: seq<nat>, tblIx: nat, ty: Option<string>)
    requires CheckMappedSpec(sources, selected, tblIx, ty).Returned?
    ensures var ms := CheckMappedSpec(sources, selected, tblIx, ty).value;
      ReportsMatching(sources, selected, tblIx, ty, ms) && InSourceOrder(ms) && CoversMatching(sources, selected, tblIx, ty, ms)
  {
    if |sources| > 0 {
      var n := |sources| - 1;
      CheckMappedExactly(sources[..n], selected, tblIx, ty);
      ExactlyStep(sources, selected, tblIx, ty, CheckMappedSpec(sources[..n], selected, tblIx, ty).value,
        CheckMappedSpec(sources, selected, tblIx, ty).value);
    }
  }

  /** One more source keeps the listing exact. */
  lemma ExactlyStep(sources: seq<DataSource>, selected: seq<nat>, tblIx: nat, ty: Option<string>, prev: seq<SelectedMapping>, ms: seq<SelectedMapping>)
    requires |sources| > 0
    requires var prefix := sources[..|sources| - 1];
      ReportsMatching(prefix, selected, tblIx, ty, prev) && InSourceOrder(prev) && CoversMatching(prefix, selected, tblIx, ty, prev)
    requires var n := |sources| - 1;
      if Matches(sources[n], selected, tblIx, ty)
      then ParseNat(sources[n].name).Some? && ms == prev + [Reported(sources, n, ParseNat(sources[n].name).value)]
      else ms == prev
    ensures ReportsMatching(sources, selected, tblIx, ty, ms) && InSourceOrder(ms) && CoversMatching(sources, selected, tblIx, ty, ms)
  {
    var n := |sources| - 1;
    var prefix := sources[..n];
    assert forall k :: 0 <= k < |prev| ==> prev[k].globalIx < n && sources[prev[k].globalIx] == prefix[prev[k].globalIx];
    assert ms[..|prev|] == prev;
    forall i | 0 <= i < |sources| && Matches(sources[i], selected, tblIx, ty)
      ensures exists k :: 0 <= k < |ms| && ms[k].globalIx == i
    {
      if i < n {
        assert prefix[i] == sources[i];
        var k :| 0 <= k < |prev| && prev[k].globalIx == i;
        assert ms[k] == prev[k];
      } else {
        assert ms[|prev|].globalIx == n;
      }
    }
  }

  /** Once a prefix of the sources panics, check_mapped panics. */
  lemma {:induction false} CheckMappedStops(sources: seq<DataSource>, selected: seq<nat>, tblIx: nat, ty: Option<string>, k: nat)
    requires k <= |sources| && CheckMappedSpec(sources[..k], selected, tblIx, ty).Panic?
    ensures CheckMappedSpec(sources, selected, tblIx, ty).Panic?
  {
    if k < |sources| {
      var n := |sources| - 1;
      assert sources[..n][..k] == sources[..k];
      CheckMappedStops(sources[..n], selected, tblIx, ty, k);
    } else {
      assert sources[..k] == sources;
    }
  }

  /** check_mapped, source by source. */
  method CheckMapped(sources: seq<DataSource>, selected: seq<nat>, tblIx: nat, ty: Option<string>) returns (r: Outcome<seq<SelectedMapping>>)
    ensures r == CheckMappedSpec(sources, selected, tblIx, ty)
  {
    var mapped: seq<SelectedMapping> := [];
    var i := 0;
    while i < |sources|
      invariant 0 <= i <= |sources|
      invariant CheckMappedSpec(sources[..i], selected, tblIx, ty) == Returned(mapped)
    {
      var s := sources[i];
      assert sources[..i + 1][..i] == sources[..i];
      if s.tblPos.None? {
        CheckMappedStops(sources, selected, tblIx, ty, i + 1);
        return Panic;
      }
      var tblMatch := tblIx == s.tblPos.value;
      var lenMatch := |selected| == |s.tblIxs|;
      var colMatch := ZipEqual(selected, s.tblIxs);
      var typeMatch := if ty.Some? then ty.value == s.ty else true;
      if tblMatch && lenMatch && colMatch && typeMatch {
        var l := ParseNat(s.name);
        if l.None? {
          CheckMappedStops(sources, selected, tblIx, ty, i + 1);
          return Panic;
        }
        mapped := mapped + [SelectedMapping(s.ty, s.plotIx, i, l.value)];
      }
      i := i + 1;
    }
    assert sources[..i] == sources;
    return Returned(mapped);
  }

  // ---------------------------------------------------------------------
  // Removing the selected mapping's source

  /** The source feeds mapping number localIx of plot plIx. */
  predicate Feeding(s: DataSource, plIx: nat, localIx: nat)
  {
    s.plotIx == plIx && ParseNat(s.name) == Some(localIx)
  }

  /** Iterator::position with the closure of the remove handler: every
      source it visits has its name parsed, so a name that is not a number
      before the first match panics. */
  function Position(sources: seq<DataSource>, plIx: nat, localIx: nat): (r: Outcome<Option<nat>>)
    ensures r.Returned? && r.value.Some? ==> r.value.value < |sources|
  {
    if |sources| == 0 then Returned(None)
    else match ParseNat(sources[0].name)
      case None => Panic
      case Some(l) =>
        if sources[0].plotIx == plIx && l == localIx then Returned(Some(0))
        else match Position(sources[1..], plIx, localIx)
          case Panic => Panic
          case Returned(None) => Returned(None)
          case Returned(Some(p)) => Returned(Some(p + 1))
  }

  /** The remove handler on the sources: the first source feeding the
      selected mapping is removed; no such source panics. */
  function RemoveSource(sources: seq<DataSource>, plIx: nat, localIx: nat): Outcome<seq<DataSource>>
  {
    match Position(sources, plIx, localIx)
    case Returned(Some(p)) => Returned(sources[..p] + sources[p + 1..])
    case _ => Panic
  }

  /** Position finds the first source feeding the mapping, after sources
      whose names all are numbers; it panics when a name before that is
      not a number or when no source feeds the mapping. */
  lemma {:induction false} PositionFirst(sources: seq<DataSource>, plIx: nat, localIx: nat)
    ensures var r := Position(sources, plIx, localIx);
      && (r.Returned? && r.value.Some? ==>
            Feeding(sources[r.value.value], plIx, localIx)
            && forall q :: 0 <= q < r.value.value ==> ParseNat(sources[q].name).Some? && !Feeding(sources[q], plIx, localIx))
      && (r == Returned(None) <==>
            forall q :: 0 <= q < |sources| ==> ParseNat(sources[q].name).Some? && !Feeding(sources[q], plIx, localIx))
  {
    if |sources| > 0 && ParseNat(sources[0].name).Some? && !Feeding(sources[0], plIx, localIx) {
      var rest := sources[1..];
      PositionFirst(rest, plIx, localIx);
      assert forall q :: 0 < q < |sources| ==> sources[q] == rest[q - 1];
      if Position(rest, plIx, localIx) != Returned(None) {
        var q :| 0 <= q < |rest| && !(ParseNat(rest[q].name).Some? && !Feeding(rest[q], plIx, localIx));
        assert sources[q + 1] == rest[q];
      }
    }
  }

  /** Removing takes out exactly the first source feeding the selected
      mapping and keeps the others in order. */
  lemma RemoveSourceFirst(sources: seq<DataSource>, plIx: nat, localIx: nat)
    requires RemoveSource(sources, plIx, localIx).Returned?
    ensures var p := Position(sources, plIx, localIx).value.value;
      var r := RemoveSource(sources, plIx, localIx).value;
      && |r| == |sources| - 1
      && Feeding(sources[p], plIx, localIx)
      && (forall q :: 0 <= q < p ==> r[q] == sources[q] && !Feeding(r[q], plIx, localIx))
      && (forall q :: p <= q < |r| ==> r[q] == sources[q + 1])
  {
    PositionFirst(sources, plIx, localIx);
  }
}
