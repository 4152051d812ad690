/** The table notebook: one page per table of the environment, each with
    its own column selection, and the translation between the selection on
    each page and the global column indices that run from the first column
    of the first table to the last column of the last table. */
module TableNotebooks {

  /** A table page: its number of columns and its selected columns, as
      indices from its own first column, in the order the page lists
      them. */
  datatype TableView = TableView(ncols: nat, selected: seq<nat>)

  /** The number of columns of the tables, together. */
  function Width(tbls: seq<TableView>): nat
  {
    if |tbls| == 0 then 0 else Width(tbls[..|tbls| - 1]) + tbls[|tbls| - 1].ncols
  }

  function Shifted(sel: seq<nat>, base: nat): (r: seq<nat>)
    ensures |r| == |sel| && forall i :: 0 <= i < |sel| ==> r[i] == sel[i] + base
  {
    seq(|sel|, i requires 0 <= i < |sel| => sel[i] + base)
  }

  /** full_selected_cols: each page's selection moved past the columns of
      the pages before it, page after page. */
  function FullSelected(tbls: seq<TableView>): seq<nat>
  {
    if |tbls| == 0 then []
    else
      var init := tbls[..|tbls| - 1];
      FullSelected(init) + Shifted(tbls[|tbls| - 1].selected, Width(init))
  }

  /** The global indices that fall in [base, base + ncols), in their
      order, made local to that range. */
  function LocalHits(globals: seq<nat>, base: nat, ncols: nat): (r: seq<nat>)
    ensures forall k :: 0 <= k < |r| ==> r[k] < ncols
  {
    if |globals| == 0 then []
    else
      var prev := LocalHits(globals[..|globals| - 1], base, ncols);
      var g := globals[|globals| - 1];
      if base <= g < base + ncols then prev + [g - base] else prev
  }

  /** set_selected_cols: every page with at least one index in its range
      gets exactly those indices, made local; the other pages keep their
      selection. */
  function SetSelectedSpec(tbls: seq<TableView>, globals: seq<nat>): (r: seq<TableView>)
    ensures |r| == |tbls|
    ensures forall i :: 0 <= i < |tbls| ==> r[i].ncols == tbls[i].ncols
  {
    seq(|tbls|, i requires 0 <= i < |tbls| =>
      var hits := LocalHits(globals, Width(tbls[..i]), tbls[i].ncols);
      if |hits| > 0 then tbls[i].(selected := hits) else tbls[i])
  }

  /** Every page selects only columns it has. */
  predicate InRange(tbls: seq<TableView>)
  {
    forall i, k :: 0 <= i < |tbls| && 0 <= k < |tbls[i].selected| ==> tbls[i].selected[k] < tbls[i].ncols
  }

  lemma {:induction false} LocalHitsAppend(a: seq<nat>, b: seq<nat>, base: nat, ncols: nat)
    ensures LocalHits(a + b, base, ncols) == LocalHits(a, base, ncols) + LocalHits(b, base, ncols)
  {
    if |b| > 0 {
      var n := |b| - 1;
      assert (a + b)[..|a + b| - 1] == a + b[..n];
      LocalHitsAppend(a, b[..n], base, ncols);
    } else {
      assert a + b == a;
    }
  }

  /** A block of indices all outside the range has no hits. */
  lemma {:induction false} LocalHitsOutside(s: seq<nat>, base: nat, ncols: nat)
    requires forall k :: 0 <= k < |s| ==> s[k] < base || base + ncols <= s[k]
    ensures LocalHits(s, base, ncols) == []
  {
    if |s| > 0 {
      LocalHitsOutside(s[..|s| - 1], base, ncols);
    }
  }

  /** A selection moved to the range and read back is the selection. */
  lemma {:induction false} LocalHitsShifted(sel: seq<nat>, base: nat, ncols: nat)
    requires forall k :: 0 <= k < |sel| ==> sel[k] < ncols
    ensures LocalHits(Shifted(sel, base), base, ncols) == sel
  {
    if |sel| > 0 {
      var n := |sel| - 1;
      assert Shifted(sel, base)[..n] == Shifted(sel[..n], base);
      LocalHitsShifted(sel[..n], base, ncols);
      assert sel == sel[..n] + [sel[n]];
    }
  }

  /** The global indices of the first pages lie below their width. */
  lemma {:induction false} FullSelectedBelow(tbls: seq<TableView>)
    requires InRange(tbls)
    ensures forall k :: 0 <= k < |FullSelected(tbls)| ==> FullSelected(tbls)[k] < Width(tbls)
  {
    if |tbls| > 0 {
      var init := tbls[..|tbls| - 1];
      assert InRange(init) by {
        forall i, k | 0 <= i < |init| && 0 <= k < |init[i].selected|
          ensures init[i].selected[k] < init[i].ncols
        {
          assert init[i] == tbls[i];
        }
      }
      FullSelectedBelow(init);
    }
  }

  lemma {:induction false} WidthPrefix(tbls: seq<TableView>, i: nat)
    requires i < |tbls|
    ensures Width(tbls[..i + 1]) == Width(tbls[..i]) + tbls[i].ncols
  {
    assert tbls[..i + 1][..i] == tbls[..i];
  }

  /** Reading the selection of page i back from the global indices of the
      first m pages, m > i. */
  lemma {:induction false} HitsOfFull(tbls: seq<TableView>, m: nat, i: nat)
    requires InRange(tbls) && i < m <= |tbls|
    ensures LocalHits(FullSelected(tbls[..m]), Width(tbls[..i]), tbls[i].ncols) == tbls[i].selected
  {
    var pre := tbls[..m];
    var init := pre[..m - 1];
    assert init == tbls[..m - 1];
    var block := Shifted(tbls[m - 1].selected, Width(init));
    assert pre[m - 1] == tbls[m - 1];
    assert FullSelected(pre) == FullSelected(init) + block;
    LocalHitsAppend(FullSelected(init), block, Width(tbls[..i]), tbls[i].ncols);
    if i == m - 1 {
      assert InRange(init) by {
        forall j, k | 0 <= j < |init| && 0 <= k < |init[j].selected|
          ensures init[j].selected[k] < init[j].ncols
        {
          assert init[j] == tbls[j];
        }
      }
      FullSelectedBelow(init);
      LocalHitsOutside(FullSelected(init), Width(tbls[..i]), tbls[i].ncols);
      LocalHitsShifted(tbls[i].selected, Width(init), tbls[i].ncols);
    } else {
      HitsOfFull(tbls, m - 1, i);
      WidthMonotone(tbls, i + 1, m - 1);
      WidthPrefix(tbls, i);
      LocalHitsOutside(block, Width(tbls[..i]), tbls[i].ncols);
    }
  }

  lemma {:induction false} WidthMonotone(tbls: seq<TableView>, a: nat, b: nat)
    requires a <= b <= |tbls|
    ensures Width(tbls[..a]) <= Width(tbls[..b])
  {
    if a < b {
      WidthMonotone(tbls, a, b - 1);
      assert tbls[..b][..b - 1] == tbls[..b - 1];
    }
  }

  /** Selecting the global indices full_selected_cols reports gives every
      page back its own selection. */
  lemma FullSelectedRoundTrip(tbls: seq<TableView>)
    requires InRange(tbls)
    ensures SetSelectedSpec(tbls, FullSelected(tbls)) == tbls
  {
    var r := SetSelectedSpec(tbls, FullSelected(tbls));
    forall i | 0 <= i < |tbls|
      ensures r[i] == tbls[i]
    {
      assert tbls[..|tbls|] == tbls;
      HitsOfFull(tbls, |tbls|, i);
    }
  }

  /** selected_table_and_cols: (page, local column) for every selection,
      page after page. */
  function Pairs(tbls: seq<TableView>): seq<(nat, nat)>
  {
    if |tbls| == 0 then []
    else
      var n := |tbls| - 1;
      Pairs(tbls[..n]) + seq(|tbls[n].selected|, k requires 0 <= k < |tbls[n].selected| => (n, tbls[n].selected[k]))
  }

  /** The pairs and the global indices list the same selections in the same
      order: pair (t, c) is global index c plus the width of the pages
      before t. */
  lemma {:induction false} PairsMatchFull(tbls: seq<TableView>)
    ensures |Pairs(tbls)| == |FullSelected(tbls)|
    ensures forall k :: 0 <= k < |Pairs(tbls)| ==>
      Pairs(tbls)[k].0 < |tbls| && FullSelected(tbls)[k] == Pairs(tbls)[k].1 + Width(tbls[..Pairs(tbls)[k].0])
  {
    if |tbls| > 0 {
      var n := |tbls| - 1;
      var init := tbls[..n];
      PairsMatchFull(init);
      forall k | 0 <= k < |Pairs(tbls)|
        ensures Pairs(tbls)[k].0 < |tbls| && FullSelected(tbls)[k] == Pairs(tbls)[k].1 + Width(tbls[..Pairs(tbls)[k].0])
      {
        if k < |Pairs(init)| {
          var t := Pairs(init)[k].0;
          assert init[..t] == tbls[..t];
        } else {
          assert tbls[..n] == init;
        }
      }
    }
  }

  class TableNotebook {
    var tbls: seq<TableView>
    var page: nat

    constructor()
      ensures tbls == [] && page == 0
    {
      tbls := [];
      page := 0;
    }

    /** clear: every page goes. */
    method Clear()
      modifies this
      ensures tbls == [] && page == old(page)
    {
      tbls := [];
    }

    method FullSelectedCols() returns (cols: seq<nat>)
      ensures cols == FullSelected(tbls)
    {
      cols := [];
      var base := 0;
      var i := 0;
      while i < |tbls|
        invariant 0 <= i <= |tbls|
        invariant base == Width(tbls[..i])
        invariant cols == FullSelected(tbls[..i])
      {
        assert tbls[..i + 1][..i] == tbls[..i];
        var sel := tbls[i].selected;
        var shifted: seq<nat> := [];
        var k := 0;
        while k < |sel|
          invariant 0 <= k <= |sel|
          invariant shifted == Shifted(sel[..k], base)
        {
          shifted := shifted + [sel[k] + base];
          k := k + 1;
        }
        assert sel[..k] == sel;
        cols := cols + shifted;
        base := base + tbls[i].ncols;
        i := i + 1;
      }
      assert tbls[..i] == tbls;
    }

    method SelectedTableAndCols() returns (sel: seq<(nat, nat)>)
      ensures sel == Pairs(tbls)
    {
      sel := [];
      var i := 0;
      while i < |tbls|
        invariant 0 <= i <= |tbls|
        invariant sel == Pairs(tbls[..i])
      {
        assert tbls[..i + 1][..i] == tbls[..i];
        ghost var before := sel;
        var cols := tbls[i].selected;
        var k := 0;
        while k < |cols|
          invariant 0 <= k <= |cols|
          invariant sel == before + seq(k, j requires 0 <= j < k => (i, cols[j]))
        {
          sel := sel + [(i, cols[k])];
          k := k + 1;
        }
        i := i + 1;
      }
      assert tbls[..i] == tbls;
    }

    /** selected_cols: the selection of the current page, none for a page
        past the last table. */
    method SelectedCols() returns (cols: seq<nat>)
      ensures page < |tbls| ==> cols == tbls[page].selected
      ensures page >= |tbls| ==> cols == []
    {
      if page < |tbls| {
        cols := tbls[page].selected;
      } else {
        cols := [];
      }
    }

    method SetSelectedCols(globals: seq<nat>)
      modifies this
      ensures tbls == SetSelectedSpec(old(tbls), globals) && page == old(page)
    {
      var base := 0;
      var i := 0;
      ghost var orig := tbls;
      while i < |tbls|
        invariant 0 <= i <= |tbls| == |orig|
        invariant base == Width(orig[..i])
        invariant forall j :: 0 <= j < i ==> tbls[j] == SetSelectedSpec(orig, globals)[j]
        invariant forall j :: i <= j < |tbls| ==> tbls[j] == orig[j]
        invariant page == old(page)
      {
        assert orig[..i + 1][..i] == orig[..i];
        var ncols := tbls[i].ncols;
        var hits := Hits(globals, base, ncols);
        if |hits| > 0 {
          tbls := tbls[i := tbls[i].(selected := hits)];
        }
        base := base + ncols;
        i := i + 1;
      }
    }
  }

  /** The filter and map of set_selected_cols for one page. */
  method Hits(globals: seq<nat>, base: nat, ncols: nat) returns (hits: seq<nat>)
    ensures hits == LocalHits(globals, base, ncols)
  {
    hits := [];
    var k := 0;
    while k < |globals|
      invariant 0 <= k <= |globals|
      invariant hits == LocalHits(globals[..k], base, ncols)
    {
      assert globals[..k + 1][..k] == globals[..k];
      if base <= globals[k] < base + ncols {
        hits := hits + [globals[k] - base];
      }
      k := k + 1;
    }
    assert globals[..k] == globals;
  }
}
