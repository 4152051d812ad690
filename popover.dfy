/** The plot popover: a stack of mapping menus whose first child is the
    label of an empty plot, and the selection that remembers which stack
    children belong to each of the four plots and which one is shown. */
module PlotPopovers {
  import opened Wrappers

  /** MappingSelection: the selected plot, the stack indices of each
      plot's mappings, and the position in the selected plot's list. */
  datatype Selection = Selection(plotIx: nat, validIx: seq<seq<nat>>, currIx: nat)

  /** The sensitivity of the table, backward and forward buttons. */
  datatype Nav = Nav(tbl: bool, backward: bool, forward: bool)

  /** The selection new() starts with. */
  const InitialSelection := Selection(0, [[], [], [], []], 0)

  /** The list of the selected plot; indexing a fifth plot panics. */
  function Current(sel: Selection): Outcome<seq<nat>>
  {
    if sel.plotIx < |sel.validIx| then Returned(sel.validIx[sel.plotIx]) else Panic
  }

  /** update_nav_sensitive. */
  function NavSensitive(sel: Selection): (r: Outcome<Nav>)
    ensures r.Returned? <==> sel.plotIx < |sel.validIx|
    ensures r.Returned? && |sel.validIx[sel.plotIx]| == 0 ==> r.value == Nav(false, false, false)
    ensures r.Returned? && |sel.validIx[sel.plotIx]| == 1 ==> r.value == Nav(true, false, false)
    ensures r.Returned? && |sel.validIx[sel.plotIx]| >= 2 ==>
      r.value.tbl && (r.value.backward <==> sel.currIx != 0)
      && (r.value.forward <==> sel.currIx == 0 || sel.currIx != |sel.validIx[sel.plotIx]| - 1)
  {
    match Current(sel)
    case Panic => Panic
    case Returned(list) =>
      var size := |list|;
      if size == 0 then Returned(Nav(false, false, false))
      else if size == 1 then Returned(Nav(true, false, false))
      else if sel.currIx == 0 then Returned(Nav(true, false, true))
      else if sel.currIx == size - 1 then Returned(Nav(true, true, false))
      else Returned(Nav(true, true, true))
  }

  /** navigate: the selection after a click on the forward or backward
      button, and the stack child then shown, if the stack has it. */
  function NavigateSpec(sel: Selection, children: nat, forward: bool): Outcome<(Selection, Option<nat>)>
  {
    match Current(sel)
    case Panic => Panic
    case Returned(list) =>
      if sel.currIx >= |list| then Returned((sel, None))
      else if !forward && sel.currIx == 0 then Panic
      else
        var curr := if forward then sel.currIx + 1 else sel.currIx - 1;
        if curr >= |list| then Panic
        else Returned((sel.(currIx := curr), if list[curr] < children then Some(list[curr]) else None))
  }

  /** navigate moves one step, and only while the position is inside the
      list; a backward step at the first position and a forward step at
      the last one panic. */
  lemma NavigateSteps(sel: Selection, children: nat, forward: bool)
    requires sel.plotIx < |sel.validIx|
    ensures var list := sel.validIx[sel.plotIx];
      var r := NavigateSpec(sel, children, forward);
      && (sel.currIx >= |list| ==> r == Returned((sel, None)))
      && (sel.currIx < |list| && forward ==> (r.Panic? <==> sel.currIx == |list| - 1))
      && (sel.currIx < |list| && !forward ==> (r.Panic? <==> sel.currIx == 0))
      && (r.Returned? && sel.currIx < |list| ==>
            r.value.0 == sel.(currIx := if forward then sel.currIx + 1 else sel.currIx - 1))
  {
  }

  /** A button update_nav_sensitive makes sensitive can be clicked without
      a panic. */
  lemma SensitiveButtonsNavigate(sel: Selection, children: nat)
    requires sel.plotIx < |sel.validIx|
    ensures NavSensitive(sel).value.forward ==> NavigateSpec(sel, children, true).Returned?
    ensures NavSensitive(sel).value.backward ==> NavigateSpec(sel, children, false).Returned?
  {
  }

  /** get_selected_mapping: the global mapping index is the stack index
      less the empty-plot label. */
  function SelectedMapping(sel: Selection): (r: Outcome<nat>)
    ensures r.Returned? <==> sel.plotIx < |sel.validIx| && sel.currIx < |sel.validIx[sel.plotIx]|
                             && sel.validIx[sel.plotIx][sel.currIx] >= 1
    ensures r.Returned? ==> r.value + 1 == sel.validIx[sel.plotIx][sel.currIx]
  {
    match Current(sel)
    case Panic => Panic
    case Returned(list) =>
      if sel.currIx >= |list| || list[sel.currIx] == 0 then Panic else Returned(list[sel.currIx] - 1)
  }

  /** update_stack: the stack child shown for the selection. */
  function StackChild(sel: Selection, children: nat): (r: Outcome<nat>)
    ensures r.Returned? ==> r.value < children
  {
    if children == 1 then Returned(0)
    else match Current(sel)
      case Panic => Panic
      case Returned(list) =>
        if |list| == 0 then (if children > 0 then Returned(0) else Panic)
        else if sel.currIx >= |list| || list[sel.currIx] >= children then Panic
        else Returned(list[sel.currIx])
  }

  /** The popover after add_mapping has added the menu of a mapping of
      plot plIx to the stack. */
  datatype Added = Added(sel: Selection, children: nat, shown: nat, nav: Nav)

  /** add_mapping as written: the new stack index goes to the plot's list
      and becomes, less one, the position in that list. */
  function AddMappingSpec(sel: Selection, children: nat, plIx: nat): Outcome<Added>
  {
    var n := children;
    if plIx >= |sel.validIx| || n == 0 then Panic
    else
      var s1 := Selection(plIx, sel.validIx[plIx := sel.validIx[plIx] + [n]], n - 1);
      FinishUpdate(s1, children + 1)
  }

  /** The update_stack and update_nav_sensitive that add_mapping and
      remove_mapping_at_ix end with. */
  function FinishUpdate(sel: Selection, children: nat): Outcome<Added>
  {
    match StackChild(sel, children)
    case Panic => Panic
    case Returned(shown) =>
      match NavSensitive(sel)
      case Panic => Panic
      case Returned(nav) => Returned(Added(sel, children, shown, nav))
  }

  /** add_mapping pushes the new stack index onto the plot's list, selects
      that plot and sets the position to the stack index less one. */
  lemma AddMappingRecords(sel: Selection, children: nat, plIx: nat)
    requires AddMappingSpec(sel, children, plIx).Returned?
    ensures var a := AddMappingSpec(sel, children, plIx).value;
      && a.children == children + 1
      && a.sel.plotIx == plIx && a.sel.currIx == children - 1
      && |a.sel.validIx| == |sel.validIx|
      && a.sel.validIx[plIx] == sel.validIx[plIx] + [children]
      && (forall p :: 0 <= p < |sel.validIx| && p != plIx ==> a.sel.validIx[p] == sel.validIx[p])
  {
  }

  /** With the empty-plot label in the stack, a first mapping in plot 0
      and a second one in plot 1 make add_mapping panic: the position set
      for plot 1 is 1, and its list has a single entry. */
  lemma AddMappingSecondPlotPanics()
    ensures AddMappingSpec(InitialSelection, 1, 0).Returned?
    ensures var a := AddMappingSpec(InitialSelection, 1, 0).value;
            AddMappingSpec(a.sel, a.children, 1).Panic?
  {
    var a := AddMappingSpec(InitialSelection, 1, 0).value;
    assert InitialSelection.validIx[0] + [1] == [1];
    assert InitialSelection.validIx[0 := [1]] == [[1], [], [], []];
    assert a.sel == Selection(0, [[1], [], [], []], 0);
    assert a.children == 2;
    var s1 := Selection(1, [[1], [2], [], []], 1);
    assert StackChild(s1, 3).Panic?;
  }

  /** The selection keeps the four plot lists, each holding stack indices
      of mapping menus (never the label at 0), with the position inside
      the selected plot's list when it is not empty. */
  predicate WellFormed(sel: Selection, children: nat)
  {
    |sel.validIx| == 4 && sel.plotIx < 4 && children >= 1
    && (forall p, k :: 0 <= p < 4 && 0 <= k < |sel.validIx[p]| ==> 1 <= sel.validIx[p][k] < children)
    && (|sel.validIx[sel.plotIx]| > 0 ==> sel.currIx < |sel.validIx[sel.plotIx]|)
  }

  /** add_mapping with the position set to the last entry of the plot's
      list, where the new mapping was pushed. */
  function AddMappingFixed(sel: Selection, children: nat, plIx: nat): Outcome<Added>
  {
    if plIx >= |sel.validIx| then Panic
    else
      var list := sel.validIx[plIx] + [children];
      var s1 := Selection(plIx, sel.validIx[plIx := list], |list| - 1);
      FinishUpdate(s1, children + 1)
  }

  /** The fixed add_mapping never panics on a well-formed selection, keeps
      it well formed, shows the new menu and selects the new mapping. */
  lemma AddMappingFixedSelectsNew(sel: Selection, children: nat, plIx: nat)
    requires WellFormed(sel, children) && plIx < 4
    ensures AddMappingFixed(sel, children, plIx).Returned?
    ensures var a := AddMappingFixed(sel, children, plIx).value;
      && WellFormed(a.sel, a.children)
      && a.shown == children
      && SelectedMapping(a.sel) == Returned(children - 1)
      && a.sel.validIx[plIx] == sel.validIx[plIx] + [children]
  {
    var list := sel.validIx[plIx] + [children];
    var s1 := Selection(plIx, sel.validIx[plIx := list], |list| - 1);
    assert forall p, k :: 0 <= p < 4 && 0 <= k < |s1.validIx[p]| ==> 1 <= s1.validIx[p][k] < children + 1 by {
      forall p, k | 0 <= p < 4 && 0 <= k < |s1.validIx[p]|
        ensures 1 <= s1.validIx[p][k] < children + 1
      {
        if p != plIx || k < |sel.validIx[plIx]| {
          assert s1.validIx[p][k] == sel.validIx[p][k];
        }
      }
    }
  }

  /** Where the first list holding x is, and x's place in it. */
  function Locate(lists: seq<seq<nat>>, x: nat): (r: Option<(nat, nat)>)
    ensures r.Some? ==> r.value.0 < |lists| && r.value.1 < |lists[r.value.0]| && lists[r.value.0][r.value.1] == x
    ensures r.None? <==> forall p :: 0 <= p < |lists| ==> x !in lists[p]
  {
    if |lists| == 0 then None
    else
      var n := |lists| - 1;
      var prev := Locate(lists[..n], x);
      if prev.Some? then Some(prev.value)
      else match IndexOf(lists[n], x)
        case None => None
        case Some(k) => Some((n, k))
  }

  /** The first position of x. */
  function IndexOf(list: seq<nat>, x: nat): (r: Option<nat>)
    ensures r.Some? ==> r.value < |list| && list[r.value] == x && x !in list[..r.value]
    ensures r.None? <==> x !in list
  {
    if |list| == 0 then None
    else if list[0] == x then Some(0)
    else match IndexOf(list[1..], x)
      case None => None
      case Some(k) => Some(k + 1)
  }

  /** The first half of remove_mapping_at_ix: the menu of mapping ix
      (stack child ix + 1) leaves the stack and its entry leaves the list
      that holds it; plot and position go back to 0. A missing child or
      entry panics. */
  function RemoveEntry(sel: Selection, children: nat, ix: nat): Outcome<(Selection, nat)>
  {
    if ix + 1 >= children then Panic
    else match Locate(sel.validIx, ix + 1)
      case None => Panic
      case Some((p, k)) =>
        var list := sel.validIx[p];
        Returned((Selection(0, sel.validIx[p := list[..k] + list[k + 1..]], 0), children - 1))
  }

  /** remove_mapping_at_ix as written: the entry is removed, then the stack
      and the buttons are updated for the new selection. */
  function RemoveMappingSpec(sel: Selection, children: nat, ix: nat): Outcome<Added>
  {
    match RemoveEntry(sel, children, ix)
    case Panic => Panic
    case Returned((s, c)) => FinishUpdate(s, c)
  }

  /** Removing takes exactly one entry ix + 1 out of the first plot list
      holding it and resets the selection to the first position of plot 0;
      the whole operation then ends in the stack and button update for
      that selection. */
  lemma RemoveMappingTakesEntry(sel: Selection, children: nat, ix: nat)
    ensures RemoveEntry(sel, children, ix).Panic? <==>
      ix + 1 >= children || forall p :: 0 <= p < |sel.validIx| ==> ix + 1 !in sel.validIx[p]
    ensures RemoveEntry(sel, children, ix).Returned? ==>
      var (s, c) := RemoveEntry(sel, children, ix).value;
      var (p, k) := Locate(sel.validIx, ix + 1).value;
      && c == children - 1 && s.plotIx == 0 && s.currIx == 0
      && |s.validIx| == |sel.validIx| && |s.validIx[p]| + 1 == |sel.validIx[p]|
      && multiset(s.validIx[p]) + multiset{ix + 1} == multiset(sel.validIx[p])
      && (forall q :: 0 <= q < |sel.validIx| && q != p ==> s.validIx[q] == sel.validIx[q])
      && RemoveMappingSpec(sel, children, ix) == FinishUpdate(s, c)
    ensures RemoveEntry(sel, children, ix).Panic? ==> RemoveMappingSpec(sel, children, ix).Panic?
  {
    if RemoveEntry(sel, children, ix).Returned? {
      var (p, k) := Locate(sel.validIx, ix + 1).value;
      var list := sel.validIx[p];
      assert list == list[..k] + [ix + 1] + list[k + 1..];
    }
  }

  /** As written, the stack indices above the removed child are not
      renumbered: with plot 0 holding children 1 and 2 of three, removing
      mapping 0 leaves plot 0 holding 2 in a stack of two, and update_stack
      panics asking for child 2. */
  lemma RemoveStaleIndexPanics()
    ensures WellFormed(Selection(0, [[1, 2], [], [], []], 0), 3)
    ensures RemoveEntry(Selection(0, [[1, 2], [], [], []], 0), 3, 0) == Returned((Selection(0, [[2], [], [], []], 0), 2))
    ensures RemoveMappingSpec(Selection(0, [[1, 2], [], [], []], 0), 3, 0).Panic?
  {
    var sel := Selection(0, [[1, 2], [], [], []], 0);
    assert IndexOf([1, 2], 1) == Some(0);
    LocateInFirst(sel.validIx, 1);
    assert [1, 2][..0] + [1, 2][1..] == [2];
    assert sel.validIx[0 := [2]] == [[2], [], [], []];
    assert StackChild(Selection(0, [[2], [], [], []], 0), 2).Panic?;
  }

  /** The stack indices after child `gone` has left the stack: those above
      it move one down. */
  function Renumber(lists: seq<seq<nat>>, gone: nat): (r: seq<seq<nat>>)
    ensures |r| == |lists|
    ensures forall p :: 0 <= p < |lists| ==> |r[p]| == |lists[p]|
    ensures forall p, k :: 0 <= p < |lists| && 0 <= k < |lists[p]| ==>
      r[p][k] == if lists[p][k] > gone then lists[p][k] - 1 else lists[p][k]
  {
    seq(|lists|, p requires 0 <= p < |lists| =>
      seq(|lists[p]|, k requires 0 <= k < |lists[p]| => if lists[p][k] > gone then lists[p][k] - 1 else lists[p][k]))
  }

  /** remove_mapping_at_ix with the remaining stack indices renumbered
      before the stack is updated. */
  function RemoveMappingFixed(sel: Selection, children: nat, ix: nat): Outcome<Added>
  {
    match RemoveEntry(sel, children, ix)
    case Panic => Panic
    case Returned((s, c)) => FinishUpdate(s.(validIx := Renumber(s.validIx, ix + 1)), c)
  }

  /** Stack child x is held by exactly one entry of the plot lists. */
  predicate HeldOnce(lists: seq<seq<nat>>, x: nat)
  {
    && (exists p :: 0 <= p < |lists| && x in lists[p])
    && (forall p, k, q, j ::
          (0 <= p < |lists| && 0 <= k < |lists[p]| && 0 <= q < |lists| && 0 <= j < |lists[q]|
           && lists[p][k] == x && lists[q][j] == x) ==> p == q && k == j)
  }

  /** Every entry lies in [lo, hi) and differs from x. */
  predicate EntriesWithin(lists: seq<seq<nat>>, lo: nat, hi: nat, x: nat)
  {
    forall p, k :: 0 <= p < |lists| && 0 <= k < |lists[p]| ==> lo <= lists[p][k] < hi && lists[p][k] != x
  }

  /** Locate finds an entry of the first list in that list. */
  lemma {:induction false} LocateInFirst(lists: seq<seq<nat>>, x: nat)
    requires |lists| > 0 && x in lists[0]
    ensures Locate(lists, x) == Some((0, IndexOf(lists[0], x).value))
  {
    if |lists| > 1 {
      var n := |lists| - 1;
      assert lists[..n][0] == lists[0];
      LocateInFirst(lists[..n], x);
    }
  }

  /** After the single entry x is removed, every entry left differs from x. */
  lemma RemovedOnce(lists: seq<seq<nat>>, hi: nat, x: nat, p: nat, k: nat)
    requires forall q, j :: 0 <= q < |lists| && 0 <= j < |lists[q]| ==> 1 <= lists[q][j] < hi
    requires HeldOnce(lists, x) && p < |lists| && k < |lists[p]| && lists[p][k] == x
    ensures EntriesWithin(lists[p := lists[p][..k] + lists[p][k + 1..]], 1, hi, x)
  {
    var list := lists[p];
    var rest := lists[p := list[..k] + list[k + 1..]];
    forall q, j | 0 <= q < |rest| && 0 <= j < |rest[q]|
      ensures 1 <= rest[q][j] < hi && rest[q][j] != x
    {
      if q != p {
        assert rest[q][j] == lists[q][j];
      } else if j < k {
        assert rest[q][j] == list[j];
      } else {
        assert rest[q][j] == list[j + 1];
      }
    }
  }

  /** Renumbering after x left a stack of hi children keeps every entry in
      the stack of hi - 1 children. */
  lemma RenumberWithin(lists: seq<seq<nat>>, hi: nat, x: nat)
    requires EntriesWithin(lists, 1, hi, x) && 1 <= x < hi
    ensures forall q, j :: 0 <= q < |lists| && 0 <= j < |Renumber(lists, x)[q]| ==> 1 <= Renumber(lists, x)[q][j] < hi - 1
  {
  }

  /** Removing a mapping listed once, the fixed way, never panics and keeps
      the selection well formed. */
  lemma RemoveMappingFixedKeepsWellFormed(sel: Selection, children: nat, ix: nat)
    requires WellFormed(sel, children) && ix + 1 < children && HeldOnce(sel.validIx, ix + 1)
    ensures RemoveMappingFixed(sel, children, ix).Returned?
    ensures var a := RemoveMappingFixed(sel, children, ix).value;
      WellFormed(a.sel, a.children) && a.children == children - 1
  {
    var (p, k) := Locate(sel.validIx, ix + 1).value;
    var list := sel.validIx[p];
    var lists := sel.validIx[p := list[..k] + list[k + 1..]];
    RemovedOnce(sel.validIx, children, ix + 1, p, k);
    RenumberWithin(lists, children, ix + 1);
    var s := Selection(0, Renumber(lists, ix + 1), 0);
    assert RemoveEntry(sel, children, ix) == Returned((Selection(0, lists, 0), children - 1));
    assert WellFormed(s, children - 1);
  }

  class PlotPopover {
    var sel: Selection
    var children: nat
    var shown: nat
    var nav: Nav

    /** new: nothing selected, the buttons off, the stack as built. */
    constructor(children: nat)
      ensures sel == InitialSelection && this.children == children && shown == 0 && nav == Nav(false, false, false)
    {
      sel := InitialSelection;
      this.children := children;
      shown := 0;
      nav := Nav(false, false, false);
    }

    method UpdateNavSensitive() returns (r: Outcome<()>)
      modifies this
      ensures r.Panic? <==> NavSensitive(old(sel)).Panic?
      ensures r.Returned? ==> nav == NavSensitive(old(sel)).value
      ensures sel == old(sel) && children == old(children) && shown == old(shown)
    {
      var n := NavSensitive(sel);
      if n.Panic? {
        return Panic;
      }
      nav := n.value;
      return Returned(());
    }

    method Navigate(forward: bool) returns (r: Outcome<()>)
      modifies this
      ensures r.Panic? <==> NavigateSpec(old(sel), old(children), forward).Panic?
      ensures r.Returned? ==>
        var (s, child) := NavigateSpec(old(sel), old(children), forward).value;
        sel == s && shown == (if child.Some? then child.value else old(shown))
      ensures children == old(children) && nav == old(nav)
    {
      var step := NavigateSpec(sel, children, forward);
      if step.Panic? {
        return Panic;
      }
      sel := step.value.0;
      if step.value.1.Some? {
        shown := step.value.1.value;
      }
      return Returned(());
    }

    method AddMapping(plIx: nat) returns (r: Outcome<()>)
      modifies this
      ensures r.Panic? <==> AddMappingSpec(old(sel), old(children), plIx).Panic?
      ensures r.Returned? ==> AddMappingSpec(old(sel), old(children), plIx) == Returned(Added(sel, children, shown, nav))
    {
      var a := AddMappingSpec(sel, children, plIx);
      if a.Panic? {
        return Panic;
      }
      sel, children, shown, nav := a.value.sel, a.value.children, a.value.shown, a.value.nav;
      return Returned(());
    }

    method RemoveMappingAtIx(ix: nat) returns (r: Outcome<()>)
      modifies this
      ensures r.Panic? <==> RemoveMappingSpec(old(sel), old(children), ix).Panic?
      ensures r.Returned? ==> RemoveMappingSpec(old(sel), old(children), ix) == Returned(Added(sel, children, shown, nav))
    {
      var rm := RemoveEntry(sel, children, ix);
      if rm.Panic? {
        return Panic;
      }
      sel, children := rm.value.0, rm.value.1;
      var child := StackChild(sel, children);
      if child.Panic? {
        return Panic;
      }
      shown := child.value;
      r := UpdateNavSensitive();
    }

    method GetSelectedMapping() returns (r: Outcome<nat>)
      ensures r == SelectedMapping(sel)
    {
      r := SelectedMapping(sel);
    }
  }
}
