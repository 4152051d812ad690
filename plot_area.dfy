/** One plot area: its ordered list of mappings, kept beside the mapping
    nodes of its layout (each carrying an `index` attribute), and the axis
    bounds that incoming data may widen. */
module PlotAreas {
  import opened Wrappers
  import opened Strs
  import opened MappingKinds

  /** A mapping node of the layout: its `index` and `type` attributes (None when absent). */
  datatype MappingNode = MappingNode(index: Option<string>, kind: Option<string>)

  /** A mapping as the area holds it: its kind, the data vectors it last
      received and its text column (text mappings only). */
  datatype Mapping = Mapping(kind: MappingType, data: seq<seq<real>>, text: seq<string>)

  /** The axis whose bounds a data vector may widen. */
  datatype Axis = X | Y

  /** A `property` child read by children_as_hash: its `name` attribute and its text. */
  datatype PropNode = PropNode(name: Option<string>, content: string)

  function Insert<T>(s: seq<T>, i: nat, x: T): (r: seq<T>)
    requires i <= |s|
    ensures |r| == |s| + 1 && r[i] == x
    ensures forall k :: 0 <= k < i ==> r[k] == s[k]
    ensures forall k :: i < k < |r| ==> r[k] == s[k - 1]
  {
    s[..i] + [x] + s[i..]
  }

  function Delete<T>(s: seq<T>, i: nat): (r: seq<T>)
    requires i < |s|
    ensures |r| == |s| - 1
    ensures forall k :: 0 <= k < i ==> r[k] == s[k]
    ensures forall k :: i <= k < |r| ==> r[k] == s[k + 1]
  {
    s[..i] + s[i + 1..]
  }

  // ---------------------------------------------------------------------
  // reload_mappings

  /** Where reloading stops and the list it leaves. `Err("")` stands for the source's `Err(())`. */
  datatype Reloaded = Reloaded(status: Outcome<Result<()>>, list: seq<Mapping>)

  /** One node of reload_mappings: a missing attribute aborts; an unknown
      type is an error; an index that does not parse, or lies past the end of
      the list, aborts; otherwise a fresh mapping is inserted at the index. */
  function ReloadStep(list: seq<Mapping>, nd: MappingNode): Reloaded
  {
    if nd.index.None? || nd.kind.None? then Reloaded(Panic, list)
    else match FromStr(nd.kind.value)
      case None => Reloaded(Returned(Err("")), list)
      case Some(k) =>
        var ix := ParseNat(nd.index.value);
        if ix.None? || ix.value > |list| then Reloaded(Panic, list)
        else Reloaded(Returned(Ok(())), Insert(list, ix.value, Mapping(k, [], [])))
  }

  /** reload_mappings over a node list, in document order, starting from an empty list. */
  function ReloadSpec(ns: seq<MappingNode>): Reloaded
    decreases |ns|
  {
    if |ns| == 0 then Reloaded(Returned(Ok(())), [])
    else
      var prev := ReloadSpec(ns[..|ns| - 1]);
      if prev.status != Returned(Ok(())) then prev else ReloadStep(prev.list, ns[|ns| - 1])
  }

  /** Once a prefix has stopped, the rest of the nodes are never looked at. */
  lemma {:induction false} ReloadStops(ns: seq<MappingNode>, i: nat)
    requires i <= |ns|
    requires ReloadSpec(ns[..i]).status != Returned(Ok(()))
    ensures ReloadSpec(ns) == ReloadSpec(ns[..i])
    decreases |ns| - i
  {
    if i < |ns| {
      assert ns[..|ns| - 1][..i] == ns[..i];
      ReloadStops(ns[..|ns| - 1], i);
    } else {
      assert ns[..i] == ns;
    }
  }

  /** A successful reload holds exactly one mapping per node. */
  lemma {:induction false} ReloadLength(ns: seq<MappingNode>)
    ensures ReloadSpec(ns).status == Returned(Ok(())) ==> |ReloadSpec(ns).list| == |ns|
    decreases |ns|
  {
    if |ns| > 0 {
      ReloadLength(ns[..|ns| - 1]);
    }
  }

  /** A node of unknown or missing type keeps the reload from succeeding. */
  lemma {:induction false} ReloadUnknownFails(ns: seq<MappingNode>, j: nat)
    requires j < |ns| && (ns[j].kind.None? || FromStr(ns[j].kind.value).None?)
    ensures ReloadSpec(ns).status != Returned(Ok(()))
    decreases |ns|
  {
    if j < |ns| - 1 {
      ReloadUnknownFails(ns[..|ns| - 1], j);
    }
  }

  /** Nodes of known types numbered 0, 1, 2, ... in document order reload
      into a list of the same kinds in the same order. */
  lemma {:induction false} ReloadInOrder(ns: seq<MappingNode>)
    requires forall j :: 0 <= j < |ns| ==> ns[j].index == Some(NatToString(j))
    requires forall j :: 0 <= j < |ns| ==> ns[j].kind.Some? && FromStr(ns[j].kind.value).Some?
    ensures ReloadSpec(ns).status == Returned(Ok(()))
    ensures |ReloadSpec(ns).list| == |ns|
    ensures forall j :: 0 <= j < |ns| ==> ReloadSpec(ns).list[j].kind == FromStr(ns[j].kind.value).value
    decreases |ns|
  {
    if |ns| > 0 {
      var n := |ns|;
      ReloadInOrder(ns[..n - 1]);
      ParseNatToString(n - 1);
    }
  }

  // ---------------------------------------------------------------------
  // Index attributes

  /** An index attribute written the way `usize::to_string` writes it. */
  predicate Canonical(nd: MappingNode)
  {
    nd.index.Some? && ParseNat(nd.index.value).Some?
    && nd.index.value == NatToString(ParseNat(nd.index.value).value)
  }

  /** The number a canonical node carries (-1 for any other node). */
  function IdxOf(nd: MappingNode): int
  {
    if Canonical(nd) then ParseNat(nd.index.value).value else -1
  }

  predicate AllCanonical(ns: seq<MappingNode>)
  {
    forall j :: 0 <= j < |ns| ==> Canonical(ns[j])
  }

  /** The numbers the nodes carry, in node order. */
  function Idxs(ns: seq<MappingNode>): (r: seq<int>)
    ensures |r| == |ns| && forall k :: 0 <= k < |ns| ==> r[k] == IdxOf(ns[k])
  {
    seq(|ns|, k requires 0 <= k < |ns| => IdxOf(ns[k]))
  }

  /** The numbers 0 to n - 1, each exactly once. */
  predicate ContigInts(xs: seq<int>, n: nat)
  {
    |xs| == n
    && (forall j :: 0 <= j < |xs| ==> 0 <= xs[j] < n)
    && (forall a, b :: 0 <= a < b < |xs| ==> xs[a] != xs[b])
    && (forall k :: 0 <= k < n ==> k in xs)
  }

  /** The nodes carry the indices 0 to n - 1, each once, written canonically. */
  predicate Contiguous(ns: seq<MappingNode>, n: nat)
  {
    AllCanonical(ns) && ContigInts(Idxs(ns), n)
  }

  /** A canonical node matches the XPath `object[@index='i']` exactly when it carries i. */
  lemma MatchesIndex(nd: MappingNode, i: nat)
    requires Canonical(nd)
    ensures nd.index == Some(NatToString(i)) <==> IdxOf(nd) == i
  {
    ParseNatToString(i);
  }

  /** The first node whose index attribute is exactly `s`, as `findnodes(...)[0]`. */
  function FirstWithIndex(ns: seq<MappingNode>, s: string): (r: Option<nat>)
    ensures r.Some? ==> (r.value < |ns| && ns[r.value].index == Some(s)
      && forall k :: 0 <= k < r.value ==> ns[k].index != Some(s))
    ensures r.None? ==> forall k :: 0 <= k < |ns| ==> ns[k].index != Some(s)
  {
    if |ns| == 0 then None
    else if ns[0].index == Some(s) then Some(0)
    else match FirstWithIndex(ns[1..], s)
      case None => None
      case Some(j) => Some(j + 1)
  }

  /** One renumbering: a node carrying an index in (pos, hi) is rewritten to carry one less. */
  function Dec(nd: MappingNode, pos: nat, hi: nat): MappingNode
  {
    if Canonical(nd) && pos < IdxOf(nd) < hi then nd.(index := Some(NatToString(IdxOf(nd) - 1))) else nd
  }

  function Shifted(ns: seq<MappingNode>, pos: nat, hi: nat): (r: seq<MappingNode>)
    ensures |r| == |ns| && forall k :: 0 <= k < |ns| ==> r[k] == Dec(ns[k], pos, hi)
  {
    seq(|ns|, k requires 0 <= k < |ns| => Dec(ns[k], pos, hi))
  }

  /** The node list remove_mapping leaves: the node carrying pos unlinked,
      then the nodes carrying pos + 1 .. n - 1 renumbered one down. */
  function Removed(ns: seq<MappingNode>, pos: nat, n: nat): seq<MappingNode>
  {
    match FirstWithIndex(ns, NatToString(pos))
    case None => ns
    case Some(j) => Shifted(Delete(ns, j), pos, n)
  }

  function DecInt(v: int, pos: nat, hi: nat): int
  {
    if pos < v < hi then v - 1 else v
  }

  function ShiftInts(xs: seq<int>, pos: nat, hi: nat): (r: seq<int>)
    ensures |r| == |xs| && forall k :: 0 <= k < |xs| ==> r[k] == DecInt(xs[k], pos, hi)
  {
    seq(|xs|, k requires 0 <= k < |xs| => DecInt(xs[k], pos, hi))
  }

  lemma DecFacts(nd: MappingNode, pos: nat, hi: nat)
    requires Canonical(nd)
    ensures Canonical(Dec(nd, pos, hi))
    ensures IdxOf(Dec(nd, pos, hi)) == DecInt(IdxOf(nd), pos, hi)
  {
    if pos < IdxOf(nd) < hi {
      ParseNatToString(IdxOf(nd) - 1);
    }
  }

  /** Renumbering acts on the carried numbers as ShiftInts does. */
  lemma ShiftedIdxs(ns: seq<MappingNode>, pos: nat, hi: nat)
    requires AllCanonical(ns)
    ensures AllCanonical(Shifted(ns, pos, hi))
    ensures Idxs(Shifted(ns, pos, hi)) == ShiftInts(Idxs(ns), pos, hi)
  {
    var r := Shifted(ns, pos, hi);
    forall k | 0 <= k < |ns|
      ensures Canonical(r[k]) && IdxOf(r[k]) == DecInt(IdxOf(ns[k]), pos, hi)
    {
      DecFacts(ns[k], pos, hi);
    }
  }

  lemma DeleteIdxs(ns: seq<MappingNode>, j: nat)
    requires j < |ns| && AllCanonical(ns)
    ensures AllCanonical(Delete(ns, j))
    ensures Idxs(Delete(ns, j)) == Delete(Idxs(ns), j)
  {
  }

  /** Without the entry carrying pos, the other numbers are still there, each once. */
  lemma ContigDelete(xs: seq<int>, n: nat, pos: nat, j0: nat)
    requires ContigInts(xs, n) && j0 < |xs| && xs[j0] == pos
    ensures var ys := Delete(xs, j0);
      (forall a, b :: 0 <= a < b < |ys| ==> ys[a] != ys[b])
      && (forall m :: 0 <= m < |ys| ==> 0 <= ys[m] < n && ys[m] != pos)
      && (forall k :: 0 <= k < n && k != pos ==> k in ys)
  {
    var ys := Delete(xs, j0);
    forall a, b | 0 <= a < b < |ys|
      ensures ys[a] != ys[b]
    {
      var a' := if a < j0 then a else a + 1;
      var b' := if b < j0 then b else b + 1;
      assert ys[a] == xs[a'] && ys[b] == xs[b'];
    }
    forall m | 0 <= m < |ys|
      ensures ys[m] != pos
    {
      var m' := if m < j0 then m else m + 1;
      assert ys[m] == xs[m'];
      if m' < j0 { assert xs[m'] != xs[j0]; } else { assert xs[j0] != xs[m']; }
    }
    forall k | 0 <= k < n && k != pos
      ensures k in ys
    {
      assert k in xs;
      var j :| 0 <= j < |xs| && xs[j] == k;
      var m := if j < j0 then j else j - 1;
      assert ys[m] == xs[j];
    }
  }

  /** The integer core of remove_mapping: unlinking pos and renumbering
      pos + 1 .. n - 1 one down turns 0 .. n - 1 into 0 .. n - 2. */
  lemma ContigRemove(xs: seq<int>, n: nat, pos: nat, j0: nat)
    requires ContigInts(xs, n) && j0 < |xs| && xs[j0] == pos
    ensures ContigInts(ShiftInts(Delete(xs, j0), pos, n), n - 1)
  {
    ContigDelete(xs, n, pos, j0);
    var ys := Delete(xs, j0);
    var r := ShiftInts(ys, pos, n);
    forall a, b | 0 <= a < b < |r|
      ensures r[a] != r[b]
    {
      assert ys[a] != ys[b];
    }
    forall k | 0 <= k < n - 1
      ensures k in r
    {
      if k < pos {
        assert k in ys;
        var m :| 0 <= m < |ys| && ys[m] == k;
        assert r[m] == k;
      } else {
        assert k + 1 in ys;
        var m :| 0 <= m < |ys| && ys[m] == k + 1;
        assert r[m] == k;
      }
    }
  }

  /** In a contiguous list, the node the XPath for pos finds carries pos. */
  lemma FindCarrier(ns: seq<MappingNode>, n: nat, pos: nat)
    requires Contiguous(ns, n) && pos < n
    ensures FirstWithIndex(ns, NatToString(pos)).Some?
    ensures IdxOf(ns[FirstWithIndex(ns, NatToString(pos)).value]) == pos
  {
    var xs := Idxs(ns);
    assert pos in xs;
    var j :| 0 <= j < |xs| && xs[j] == pos;
    MatchesIndex(ns[j], pos);
    var j0 := FirstWithIndex(ns, NatToString(pos)).value;
    MatchesIndex(ns[j0], pos);
  }

  /** One turn of the renumbering loop on a list whose indices are canonical
      and distinct: the first node carrying i is the one with IdxOf i, and
      rewriting it extends the renumbered range by one. */
  lemma ShiftStep(base: seq<MappingNode>, pos: nat, i: nat, m: nat)
    requires AllCanonical(base)
    requires forall a, b :: 0 <= a < b < |base| ==> Idxs(base)[a] != Idxs(base)[b]
    requires pos < i && m < |base| && Idxs(base)[m] == i
    ensures FirstWithIndex(Shifted(base, pos, i), NatToString(i)) == Some(m)
    ensures var cur := Shifted(base, pos, i);
      cur[m := cur[m].(index := Some(NatToString(i - 1)))] == Shifted(base, pos, i + 1)
  {
    var xs := Idxs(base);
    var cur := Shifted(base, pos, i);
    assert cur[m] == base[m];
    MatchesIndex(base[m], i);
    forall q | 0 <= q < |base| && q != m
      ensures cur[q].index != Some(NatToString(i))
      ensures Dec(base[q], pos, i + 1) == Dec(base[q], pos, i)
    {
      DecFacts(base[q], pos, i);
      if q < m { assert xs[q] != xs[m]; } else { assert xs[m] != xs[q]; }
      MatchesIndex(cur[q], i);
    }
    var f := FirstWithIndex(cur, NatToString(i));
    assert f == Some(m) by {
      assert cur[m].index == Some(NatToString(i));
    }
    var next := cur[m := cur[m].(index := Some(NatToString(i - 1)))];
    assert next == Shifted(base, pos, i + 1);
  }

  /** What the renumbering loop may rely on: the node for pos is found, and
      the remaining nodes carry distinct canonical numbers including every
      number in (pos, n). */
  predicate LoopBase(base: seq<MappingNode>, pos: nat, n: nat)
  {
    AllCanonical(base)
    && (forall a, b :: 0 <= a < b < |base| ==> Idxs(base)[a] != Idxs(base)[b])
    && (forall i :: pos < i < n ==> i in Idxs(base))
  }

  /** The node list a loop over contiguous indices starts from, once the
      carrier of pos is unlinked. */
  lemma LoopSetup(ns: seq<MappingNode>, n: nat, pos: nat, j0: nat)
    requires Contiguous(ns, n) && pos < n && FirstWithIndex(ns, NatToString(pos)) == Some(j0)
    ensures LoopBase(Delete(ns, j0), pos, n)
  {
    FindCarrier(ns, n, pos);
    DeleteIdxs(ns, j0);
    ContigDelete(Idxs(ns), n, pos, j0);
  }

  lemma LoopStep(base: seq<MappingNode>, pos: nat, n: nat, i: nat)
    requires LoopBase(base, pos, n) && pos < i < n
    ensures var f := FirstWithIndex(Shifted(base, pos, i), NatToString(i));
      f.Some? && Shifted(base, pos, i)[f.value := Shifted(base, pos, i)[f.value].(index := Some(NatToString(i - 1)))]
        == Shifted(base, pos, i + 1)
  {
    assert i in Idxs(base);
    var m :| 0 <= m < |base| && Idxs(base)[m] == i;
    ShiftStep(base, pos, i, m);
  }

  /** remove_mapping keeps the indices contiguous: removing position pos from
      nodes numbered 0 .. n - 1 leaves nodes numbered 0 .. n - 2. */
  lemma RemoveKeepsContiguous(ns: seq<MappingNode>, n: nat, pos: nat)
    requires Contiguous(ns, n) && pos < n
    ensures Contiguous(Removed(ns, pos, n), n - 1)
  {
    FindCarrier(ns, n, pos);
    var j0 := FirstWithIndex(ns, NatToString(pos)).value;
    var base := Delete(ns, j0);
    DeleteIdxs(ns, j0);
    ShiftedIdxs(base, pos, n);
    ContigRemove(Idxs(ns), n, pos, j0);
  }

  /** add_mapping at the end, with the next index, keeps the indices contiguous. */
  lemma AppendKeepsContiguous(ns: seq<MappingNode>, n: nat, kind: string)
    requires Contiguous(ns, n)
    ensures Contiguous(ns + [MappingNode(Some(NatToString(n)), Some(kind))], n + 1)
  {
    var nd := MappingNode(Some(NatToString(n)), Some(kind));
    ParseNatToString(n);
    var r := ns + [nd];
    assert IdxOf(nd) == n;
    assert Idxs(r) == Idxs(ns) + [n];
  }

  /** add_mapping does not renumber: inserting before the end leaves two
      nodes carrying the same index. */
  lemma InsertInsideDuplicates(ns: seq<MappingNode>, n: nat, ix: nat, kind: string)
    requires Contiguous(ns, n) && ix < n
    ensures var r := ns + [MappingNode(Some(NatToString(ix)), Some(kind))];
      exists a, b :: 0 <= a < b < |r| && r[a].index == r[b].index
  {
    var r := ns + [MappingNode(Some(NatToString(ix)), Some(kind))];
    assert ix in Idxs(ns);
    var j :| 0 <= j < |ns| && Idxs(ns)[j] == ix;
    MatchesIndex(ns[j], ix);
    assert r[j].index == r[n].index;
  }

  // ---------------------------------------------------------------------
  // accomodate_dimension

  /** The running minimum of a fold seeded with `init`. */
  function FoldMin(data: seq<real>, init: real): (m: real)
    ensures m <= init && forall k :: 0 <= k < |data| ==> m <= data[k]
    ensures m == init || m in data
  {
    if |data| == 0 then init
    else
      var r := FoldMin(data[1..], if data[0] < init then data[0] else init);
      assert forall k :: 1 <= k < |data| ==> data[k] == data[1..][k - 1];
      r
  }

  /** The running maximum of a fold seeded with `init`. */
  function FoldMax(data: seq<real>, init: real): (m: real)
    ensures m >= init && forall k :: 0 <= k < |data| ==> m >= data[k]
    ensures m == init || m in data
  {
    if |data| == 0 then init
    else
      var r := FoldMax(data[1..], if data[0] > init then data[0] else init);
      assert forall k :: 1 <= k < |data| ==> data[k] == data[1..][k - 1];
      r
  }

  /** The number of empty vectors clear_all_data hands to each kind. */
  function Arity(k: MappingType): nat
  {
    match k
    case Line => 2
    case Scatter => 2
    case Bar => 4
    case Area => 3
    case Text => 2
    case Surface => 3
  }

  /** The number of vectors a kind's update_data indexes: x and y for
      lines, scatters and texts, x, ymin and ymax for areas, and the one
      vector a bar removes. */
  function DataRead(k: MappingType): nat
  {
    match k
    case Line => 2
    case Scatter => 2
    case Text => 2
    case Area => 3
    case Bar => 1
    case Surface => 1
  }

  /** A mapping after clear_all_data: empty vectors of its kind's arity, and no text. */
  function Cleared(m: Mapping): (r: Mapping)
    ensures r.kind == m.kind && |r.data| == Arity(m.kind)
    ensures forall k :: 0 <= k < |r.data| ==> r.data[k] == []
    ensures r.text == if m.kind == Text then [] else m.text
  {
    Mapping(m.kind, seq(Arity(m.kind), _ => []), if m.kind == Text then [] else m.text)
  }

  /** The ParseIntError text of a usize parse that failed. */
  function ParseErrorText(s: string): string
  {
    if |s| == 0 then "cannot parse integer from empty string" else "invalid digit found in string"
  }

  class PlotArea {
    var mappings: seq<Mapping>
    var nodes: seq<MappingNode>
    var xFrom: real
    var xTo: real
    var yFrom: real
    var yTo: real

    /** A plot area read from its layout node: the mapping nodes and the axis bounds, no mappings yet. */
    constructor (ns: seq<MappingNode>, xFrom0: real, xTo0: real, yFrom0: real, yTo0: real)
      ensures mappings == [] && nodes == ns
      ensures xFrom == xFrom0 && xTo == xTo0 && yFrom == yFrom0 && yTo == yTo0
    {
      mappings, nodes := [], ns;
      xFrom, xTo, yFrom, yTo := xFrom0, xTo0, yFrom0, yTo0;
    }

    /** reload_mappings: the list is cleared and rebuilt from the mapping
        nodes; on an error the partly rebuilt list stays. */
    method ReloadMappings() returns (r: Outcome<Result<()>>)
      modifies this
      ensures r == ReloadSpec(nodes).status
      ensures r != Panic ==> mappings == ReloadSpec(nodes).list
      ensures nodes == old(nodes)
      ensures xFrom == old(xFrom) && xTo == old(xTo) && yFrom == old(yFrom) && yTo == old(yTo)
    {
      mappings := [];
      var i := 0;
      while i < |nodes|
        invariant 0 <= i <= |nodes|
        invariant ReloadSpec(nodes[..i]) == Reloaded(Returned(Ok(())), mappings)
        invariant nodes == old(nodes)
        invariant xFrom == old(xFrom) && xTo == old(xTo) && yFrom == old(yFrom) && yTo == old(yTo)
      {
        assert nodes[..i + 1][..i] == nodes[..i];
        var nd := nodes[i];
        if nd.index.None? || nd.kind.None? {
          ReloadStops(nodes, i + 1);
          return Panic;
        }
        var kind := FromStr(nd.kind.value);
        if kind.None? {
          ReloadStops(nodes, i + 1);
          return Returned(Err(""));
        }
        var ix := ParseNat(nd.index.value);
        if ix.None? || ix.value > |mappings| {
          ReloadStops(nodes, i + 1);
          return Panic;
        }
        mappings := Insert(mappings, ix.value, Mapping(kind.value, [], []));
        i := i + 1;
      }
      assert nodes[..i] == nodes;
      return Returned(Ok(()));
    }

    /** add_mapping: an unknown type, an index that does not parse, or an
        index past the end is refused with nothing changed; otherwise a fresh
        mapping is inserted at the index and a node carrying the index text
        is appended to the layout. */
    method AddMapping(indexText: string, kindText: string) returns (r: Result<()>)
      modifies this
      ensures FromStr(kindText).None? ==> r == Err("Unrecognized mapping " + kindText)
      ensures FromStr(kindText).Some? && ParseNat(indexText).None? ==> r == Err(ParseErrorText(indexText))
      ensures r.Ok? <==> FromStr(kindText).Some? && ParseNat(indexText).Some? && ParseNat(indexText).value <= old(|mappings|)
      ensures r.Ok? ==> mappings == Insert(old(mappings), ParseNat(indexText).value, Mapping(FromStr(kindText).value, [], []))
      ensures r.Ok? ==> nodes == old(nodes) + [MappingNode(Some(indexText), Some(kindText))]
      ensures r.Err? ==> mappings == old(mappings) && nodes == old(nodes)
      ensures xFrom == old(xFrom) && xTo == old(xTo) && yFrom == old(yFrom) && yTo == old(yTo)
    {
      var kind := FromStr(kindText);
      if kind.None? {
        return Err("Unrecognized mapping " + kindText);
      }
      var ix := ParseNat(indexText);
      if ix.None? {
        return Err(ParseErrorText(indexText));
      }
      if ix.value > |mappings| {
        return Err("Tried to insert mapping at position " + NatToString(ix.value)
          + ", but plot has only " + NatToString(|mappings|) + " elements");
      }
      mappings := Insert(mappings, ix.value, Mapping(kind.value, [], []));
      nodes := nodes + [MappingNode(Some(indexText), Some(kindText))];
      return Ok(());
    }

    /** remove_mapping: the node carrying pos is unlinked, the nodes carrying
        pos + 1 .. n - 1 are renumbered one down, and mapping pos is removed.
        A missing node or a position past the end aborts. */
    method RemoveMapping(pos: nat) returns (r: Outcome<()>)
      modifies this
      ensures r.Returned? ==> pos < old(|mappings|) && mappings == Delete(old(mappings), pos)
      ensures Contiguous(old(nodes), old(|mappings|)) && pos < old(|mappings|) ==>
        r.Returned? && nodes == Removed(old(nodes), pos, old(|mappings|)) && Contiguous(nodes, |mappings|)
      ensures xFrom == old(xFrom) && xTo == old(xTo) && yFrom == old(yFrom) && yTo == old(yTo)
    {
      var n := |mappings|;
      ghost var contig := Contiguous(nodes, n) && pos < n;
      if contig {
        RemoveKeepsContiguous(nodes, n, pos);
        FindCarrier(nodes, n, pos);
      }
      var found := FirstWithIndex(nodes, NatToString(pos));
      if found.None? {
        return Panic;
      }
      ghost var orig := nodes;
      nodes := Delete(nodes, found.value);
      var renumbered := RenumberAfter(pos, n, contig, orig, found.value);
      if renumbered.Panic? {
        return Panic;
      }
      if pos >= n {
        return Panic;
      }
      mappings := Delete(mappings, pos);
      return Returned(());
    }

    /** The renumbering loop of remove_mapping: the nodes carrying pos + 1 ..
        n - 1 are found one by one and moved one down; a missing one panics. */
    method RenumberAfter(pos: nat, n: nat, ghost contig: bool, ghost orig: seq<MappingNode>, ghost j0: nat) returns (r: Outcome<()>)
      requires contig ==> Contiguous(orig, n) && pos < n && FirstWithIndex(orig, NatToString(pos)) == Some(j0)
      requires contig ==> nodes == Delete(orig, j0)
      modifies this
      ensures contig ==> r.Returned? && nodes == Shifted(Delete(orig, j0), pos, n)
      ensures mappings == old(mappings)
      ensures xFrom == old(xFrom) && xTo == old(xTo) && yFrom == old(yFrom) && yTo == old(yTo)
    {
      ghost var base := if contig then Delete(orig, j0) else nodes;
      if contig {
        LoopSetup(orig, n, pos, j0);
      }
      var i := pos + 1;
      while i < n
        invariant contig ==> pos < i <= n && nodes == Shifted(base, pos, i)
        invariant mappings == old(mappings)
        invariant xFrom == old(xFrom) && xTo == old(xTo) && yFrom == old(yFrom) && yTo == old(yTo)
      {
        if contig {
          LoopStep(base, pos, n, i);
        }
        var f := FirstWithIndex(nodes, NatToString(i));
        if f.None? {
          return Panic;
        }
        nodes := nodes[f.value := nodes[f.value].(index := Some(NatToString(i - 1)))];
        i := i + 1;
      }
      return Returned(());
    }

    /** accomodate_dimension: the axis bounds widen to take in the data; the
        lower bound only ever goes down and the upper only ever up. */
    method Accomodate(data: seq<real>, oldMin: real, oldMax: real, axis: Axis)
      modifies this
      ensures axis == X ==> (xFrom == (if FoldMin(data, oldMin) < oldMin then FoldMin(data, oldMin) else old(xFrom))
        && xTo == (if FoldMax(data, oldMax) > oldMax then FoldMax(data, oldMax) else old(xTo))
        && yFrom == old(yFrom) && yTo == old(yTo))
      ensures axis == Y ==> (yFrom == (if FoldMin(data, oldMin) < oldMin then FoldMin(data, oldMin) else old(yFrom))
        && yTo == (if FoldMax(data, oldMax) > oldMax then FoldMax(data, oldMax) else old(yTo))
        && xFrom == old(xFrom) && xTo == old(xTo))
      ensures mappings == old(mappings) && nodes == old(nodes)
    {
      var newMin := FoldMin(data, oldMin);
      var newMax := FoldMax(data, oldMax);
      if newMin < oldMin {
        if axis == X { xFrom := newMin; } else { yFrom := newMin; }
      }
      if newMax > oldMax {
        if axis == X { xTo := newMax; } else { yTo := newMax; }
      }
    }

    /** update_mapping: empty data is refused; one vector widens y, two or
        more widen x (first) and y (second); then the id text is parsed
        (a bad one panics) and the data goes to that mapping, whose
        update_data panics when it gets fewer vectors than it reads; a
        missing mapping is an error, with the bounds already widened. */
    method UpdateMapping(idText: string, data: seq<seq<real>>) returns (r: Outcome<Result<()>>)
      modifies this
      ensures |data| == 0 ==> (r == Returned(Err("Invalid data")) && mappings == old(mappings)
        && xFrom == old(xFrom) && xTo == old(xTo) && yFrom == old(yFrom) && yTo == old(yTo))
      ensures |data| > 0 ==>
        var dy := if |data| == 1 then data[0] else data[1];
        yFrom == FoldMin(dy, old(yFrom)) && yTo == FoldMax(dy, old(yTo))
      ensures |data| == 1 ==> xFrom == old(xFrom) && xTo == old(xTo)
      ensures |data| > 1 ==> xFrom == FoldMin(data[0], old(xFrom)) && xTo == FoldMax(data[0], old(xTo))
      ensures |data| > 0 && ParseNat(idText).None? ==> r == Panic
      ensures |data| > 0 && ParseNat(idText).Some? && ParseNat(idText).value < |old(mappings)| ==>
        var id := ParseNat(idText).value;
        && (r == Panic <==> |data| < DataRead(old(mappings)[id].kind))
        && (r != Panic ==> r == Returned(Ok(())) && mappings == old(mappings)[id := old(mappings)[id].(data := data)])
      ensures |data| > 0 && ParseNat(idText).Some? && ParseNat(idText).value >= |old(mappings)| ==>
        r == Returned(Err("Cannot recover mapping ")) && mappings == old(mappings)
      ensures nodes == old(nodes)
    {
      if |data| < 1 {
        return Returned(Err("Invalid data"));
      }
      var xmin, xmax, ymin, ymax := xFrom, xTo, yFrom, yTo;
      if |data| == 1 {
        Accomodate(data[0], ymin, ymax, Y);
      } else {
        Accomodate(data[0], xmin, xmax, X);
        Accomodate(data[1], ymin, ymax, Y);
      }
      var id := ParseNat(idText);
      if id.None? {
        return Panic;
      }
      if id.value < |mappings| {
        if |data| < DataRead(mappings[id.value].kind) {
          return Panic;
        }
        mappings := mappings[id.value := mappings[id.value].(data := data)];
        return Returned(Ok(()));
      }
      return Returned(Err("Cannot recover mapping "));
    }

    /** clear_all_data: every mapping receives empty vectors of its kind's
        arity, and text mappings lose their text. */
    method ClearAllData()
      modifies this
      ensures |mappings| == |old(mappings)|
      ensures forall i :: 0 <= i < |mappings| ==> mappings[i] == Cleared(old(mappings)[i])
      ensures nodes == old(nodes)
      ensures xFrom == old(xFrom) && xTo == old(xTo) && yFrom == old(yFrom) && yTo == old(yTo)
    {
      var i := 0;
      while i < |mappings|
        invariant 0 <= i <= |mappings| && |mappings| == |old(mappings)|
        invariant forall k :: 0 <= k < i ==> mappings[k] == Cleared(old(mappings)[k])
        invariant forall k :: i <= k < |mappings| ==> mappings[k] == old(mappings)[k]
        invariant nodes == old(nodes)
        invariant xFrom == old(xFrom) && xTo == old(xTo) && yFrom == old(yFrom) && yTo == old(yTo)
      {
        var m := mappings[i];
        var empty: seq<seq<real>> := [[], []];
        match m.kind {
          case Bar => empty := empty + [[], []];
          case Area => empty := empty + [[]];
          case Surface => empty := empty + [[]];
          case _ =>
        }
        var text := m.text;
        if m.kind == Text {
          text := [];
        }
        mappings := mappings[i := Mapping(m.kind, empty, text)];
        i := i + 1;
      }
    }
  }

  // ---------------------------------------------------------------------
  // children_as_hash

  /** The name-to-text table of a list of properties, later names overriding earlier ones. */
  function HashOf(ps: seq<PropNode>): map<string, string>
    requires forall j :: 0 <= j < |ps| ==> ps[j].name.Some?
    decreases |ps|
  {
    if |ps| == 0 then map[]
    else HashOf(ps[..|ps| - 1])[ps[|ps| - 1].name.value := ps[|ps| - 1].content]
  }

  /** The table holds exactly the names present. */
  lemma {:induction false} HashOfKeys(ps: seq<PropNode>, name: string)
    requires forall j :: 0 <= j < |ps| ==> ps[j].name.Some?
    ensures name in HashOf(ps) <==> exists j :: 0 <= j < |ps| && ps[j].name == Some(name)
    decreases |ps|
  {
    if |ps| > 0 {
      var n := |ps|;
      var pre := ps[..n - 1];
      HashOfKeys(pre, name);
      if ps[n - 1].name != Some(name) {
        if j :| 0 <= j < n && ps[j].name == Some(name) {
          assert pre[j] == ps[j];
        }
        if j :| 0 <= j < n - 1 && pre[j].name == Some(name) {
          assert ps[j] == pre[j];
        }
      }
    }
  }

  /** Each name maps to the text of its last occurrence. */
  lemma {:induction false} HashOfLast(ps: seq<PropNode>, name: string, j: nat)
    requires forall k :: 0 <= k < |ps| ==> ps[k].name.Some?
    requires j < |ps| && ps[j].name == Some(name)
    requires forall k :: j < k < |ps| ==> ps[k].name != Some(name)
    ensures name in HashOf(ps) && HashOf(ps)[name] == ps[j].content
    decreases |ps|
  {
    var n := |ps|;
    if j < n - 1 {
      var pre := ps[..n - 1];
      assert forall k :: j < k < n - 1 ==> pre[k] == ps[k];
      HashOfLast(pre, name, j);
    }
  }

  /** children_as_hash over the property nodes an XPath selected: no nodes,
      or a node without a name, aborts. */
  method ChildrenAsHash(props: seq<PropNode>) returns (r: Outcome<map<string, string>>)
    ensures r.Returned? <==> |props| > 0 && forall j :: 0 <= j < |props| ==> props[j].name.Some?
    ensures r.Returned? ==> r.value == HashOf(props)
  {
    if |props| == 0 {
      return Panic;
    }
    var hash: map<string, string> := map[];
    var i := 0;
    while i < |props|
      invariant 0 <= i <= |props|
      invariant forall j :: 0 <= j < i ==> props[j].name.Some?
      invariant hash == HashOf(props[..i])
    {
      if props[i].name.None? {
        return Panic;
      }
      assert props[..i + 1][..i] == props[..i];
      hash := hash[props[i].name.value := props[i].content];
      i := i + 1;
    }
    assert props[..i] == props;
    return Returned(hash);
  }
}
