/** User functions as the function registry knows them: the text form
    `name(arg,...)->ret`, the TOML entries that declare functions and
    aggregates, and the Rust items (functions and modules) read from a
    crate's source. Rust syntax trees are given as values. */
module Functions {
  import opened Wrappers
  import opened Strs
  import opened SqlTypes

  datatype Function = Function(name: string, args: seq<SqlType>, ret: SqlType, doc: Option<string>, varArg: bool)

  /** A generic aggregate: initial, state and final function names. */
  datatype Aggregate = Aggregate(name: string, initFunc: string, stateFunc: string, finalFunc: string)

  /** The TOML values the registry reads. */
  datatype TomlValue = TString(s: string) | TBool(b: bool) | TTable(entries: map<string, TomlValue>) | TOtherValue

  // ---------------------------------------------------------------------
  // Function::from_str

  /** The argument types, each piece read untrimmed; a piece that names
      no type fails the list. */
  function ParseArgs(pieces: seq<string>): (r: Option<seq<SqlType>>)
    ensures r.Some? ==> |r.value| == |pieces| && forall i :: 0 <= i < |pieces| ==> TypeName(r.value[i]) == pieces[i]
    ensures r.Some? <==> forall i :: 0 <= i < |pieces| ==> ParseType(pieces[i]).Some?
  {
    if |pieces| == 0 then Some([])
    else
      var prev := ParseArgs(pieces[..|pieces| - 1]);
      match ParseType(pieces[|pieces| - 1])
      case None => None
      case Some(t) => if prev.None? then None else Some(prev.value + [t])
  }

  /** The argument list, piece by piece. */
  method ParseArgList(pieces: seq<string>) returns (r: Option<seq<SqlType>>)
    ensures r == ParseArgs(pieces)
  {
    var args: seq<SqlType> := [];
    var i := 0;
    while i < |pieces|
      invariant 0 <= i <= |pieces|
      invariant ParseArgs(pieces[..i]) == Some(args)
    {
      assert pieces[..i + 1][..i] == pieces[..i];
      var t := ParseType(pieces[i]);
      if t.None? {
        return None;
      }
      args := args + [t.value];
      i := i + 1;
    }
    assert pieces[..i] == pieces;
    return Some(args);
  }

  /** from_str once the text is cut at "->": the name before the first
      '(', the arguments up to the first ')' after it, and a fourth piece
      at '(' refused (the third is taken by a debug print). */
  function FromParts(left: string, right: string): (r: Option<Function>)
    ensures r.Some? ==> r.value.doc.None? && !r.value.varArg
  {
    var spl := Split(left, '(');
    if |spl| < 2 then None
    else
      var fullArgs := Split(spl[1], ')')[0];
      if |spl| >= 4 then None
      else
        match ParseArgs(Split(fullArgs, ','))
        case None => None
        case Some(args) =>
          match ParseType(right)
          case None => None
          case Some(ret) => Some(Function(spl[0], args, ret, None, false))
  }

  /** Function::from_str. */
  function FromStrSpec(s: string): (r: Option<Function>)
  {
    var pieces := SplitStr(Trim(s), "->");
    if |pieces| < 2 then None else FromParts(pieces[0], pieces[1])
  }

  /** Function::from_str. */
  method FromStr(s: string) returns (r: Option<Function>)
    ensures r == FromStrSpec(s)
  {
    var spl := SplitStr(Trim(s), "->");
    if |spl| < 2 {
      return None;
    }
    r := FromSides(spl[0], spl[1]);
  }

  /** from_str once the text is cut at the arrow, argument by argument. */
  method FromSides(left: string, right: string) returns (r: Option<Function>)
    ensures r == FromParts(left, right)
  {
    var splLeft := Split(left, '(');
    if |splLeft| < 2 {
      return None;
    }
    var name := splLeft[0];
    var fullArgs := Split(splLeft[1], ')')[0];
    if |splLeft| >= 4 {
      return None;
    }
    var args := ParseArgList(Split(fullArgs, ','));
    if args.None? {
      return None;
    }
    var ret := ParseType(right);
    if ret.None? {
      return None;
    }
    return Some(Function(name, args.value, ret.value, None, false));
  }

  // ---------------------------------------------------------------------
  // Reading written-out signatures back

  predicate IdentChar(c: char)
  {
    'a' <= c <= 'z' || 'A' <= c <= 'Z' || '0' <= c <= '9' || c == '_'
  }

  /** A Rust identifier, as the registry's function names are. */
  predicate Ident(name: string)
  {
    |name| > 0 && forall c :: c in name ==> IdentChar(c)
  }

  function TypeNames(ts: seq<SqlType>): (r: seq<string>)
    ensures |r| == |ts| && forall i :: 0 <= i < |ts| ==> r[i] == TypeName(ts[i])
  {
    if |ts| == 0 then [] else [TypeName(ts[0])] + TypeNames(ts[1..])
  }

  /** The text form of a function, as the registry writes it. */
  function Signature(f: Function): string
  {
    f.name + "(" + Join(TypeNames(f.args), ',') + ")->" + TypeName(f.ret)
  }

  lemma TypeNameChars(t: SqlType)
    ensures Ident(TypeName(t))
  {
  }

  lemma TypeNameInjective(a: SqlType, b: SqlType)
    requires TypeName(a) == TypeName(b)
    ensures a == b
  {
  }

  lemma NoDashNoArrow(s: string)
    requires '-' !in s
    ensures Find(s, "->").None?
  {
    forall k: nat
      ensures !OccursAt(s, "->", k)
    {
      if k + 2 <= |s| {
        assert s[k] in s;
        assert s[k..k + 2][0] == s[k];
      }
    }
  }

  /** Text with one "->", no space at its ends and no '-' elsewhere is cut
      into the text before and after the arrow. */
  lemma ArrowSplit(left: string, right: string)
    requires '-' !in left && '-' !in right
    requires |left| > 0 && !IsSpace(left[0]) && |right| > 0 && !IsSpace(right[|right| - 1])
    ensures FromStrSpec(left + "->" + right) == FromParts(left, right)
  {
    var t := left + "->" + right;
    assert TrimStart(t) == t;
    assert TrimEnd(t) == t;
    ArrowPieces(left, right);
  }

  /** Cutting at the only arrow gives the text on either side. */
  lemma ArrowPieces(left: string, right: string)
    requires '-' !in left && '-' !in right
    ensures SplitStr(left + "->" + right, "->") == [left, right]
  {
    var t := left + "->" + right;
    var k := |left|;
    ArrowFirst(left, right);
    assert t[..k] == left;
    assert t[k + 2..] == right;
    NoDashNoArrow(right);
    assert SplitStr(right, "->") == [right];
  }

  /** The first arrow of the text sits right after `left`. */
  lemma ArrowFirst(left: string, right: string)
    requires '-' !in left
    ensures Find(left + "->" + right, "->") == Some(|left|)
  {
    var t := left + "->" + right;
    var k := |left|;
    assert t[k..k + 2] == "->";
    forall j: nat | j < k
      ensures !OccursAt(t, "->", j)
    {
      assert t[j] == left[j];
      assert t[j] in left;
    }
    assert OccursAt(t, "->", k);
  }

  /** A signature line's left part is cut at its '(' and ')'. */
  lemma ParenSplit(name: string, argText: string)
    requires '(' !in name && '(' !in argText && ')' !in argText
    ensures Split(name + "(" + argText + ")", '(') == [name, argText + ")"]
    ensures Split(argText + ")", ')')[0] == argText
  {
    var ps := [name, argText + ")"];
    forall k, i | 0 <= k < |ps| && 0 <= i < |ps[k]|
      ensures ps[k][i] != '('
    {
      assert ps[k][i] in ps[k];
    }
    JoinSplit(ps, '(');
    assert Join(ps, '(') == name + "(" + argText + ")";
    var qs := [argText, ""];
    forall k, i | 0 <= k < |qs| && 0 <= i < |qs[k]|
      ensures qs[k][i] != ')'
    {
      assert qs[k][i] in argText;
    }
    JoinSplit(qs, ')');
    assert Join(qs, ')') == argText + ")";
  }

  /** What a signature line with an identifier name and argument text
      without parentheses or '-' parses to. */
  lemma SignatureLine(name: string, argText: string, right: string)
    requires Ident(name) && '(' !in argText && ')' !in argText && '-' !in argText
    requires '-' !in right && |right| > 0 && !IsSpace(right[|right| - 1])
    ensures FromStrSpec(name + "(" + argText + ")->" + right) == FromParts(name + "(" + argText + ")", right)
    ensures FromParts(name + "(" + argText + ")", right)
      == match ParseArgs(Split(argText, ','))
         case None => None
         case Some(args) => if ParseType(right).Some? then Some(Function(name, args, ParseType(right).value, None, false)) else None
  {
    var left := name + "(" + argText + ")";
    assert '-' !in left;
    assert name[0] in name;
    assert left[0] == name[0];
    assert left + "->" + right == name + "(" + argText + ")->" + right;
    ArrowSplit(left, right);
    ParenSplit(name, argText);
  }

  /** A joined text holds only characters of its pieces and separators. */
  lemma {:induction false} JoinChars(pieces: seq<string>, c: char)
    requires forall k :: 0 <= k < |pieces| ==> Ident(pieces[k])
    ensures forall x :: x in Join(pieces, c) ==> IdentChar(x) || x == c
  {
    if |pieces| > 1 {
      JoinChars(pieces[1..], c);
      assert Join(pieces, c) == pieces[0] + [c] + Join(pieces[1..], c);
    } else if |pieces| == 1 {
      assert Join(pieces, c) == pieces[0];
    }
  }

  /** The types of the names read back are the named types. */
  lemma ParseArgsNames(ts: seq<SqlType>)
    ensures ParseArgs(TypeNames(ts)) == Some(ts)
  {
    var ns := TypeNames(ts);
    forall i | 0 <= i < |ts|
      ensures ParseType(ns[i]).Some?
    {
      TypeNameRoundTrip(ts[i], "");
    }
    var v := ParseArgs(ns).value;
    forall i | 0 <= i < |ts|
      ensures v[i] == ts[i]
    {
      TypeNameInjective(v[i], ts[i]);
    }
    assert v == ts;
  }

  /** Reading the text form of a function gives the function back, for
      identifier names and at least one argument. */
  lemma FromStrRoundTrip(f: Function)
    requires Ident(f.name) && |f.args| >= 1 && f.doc.None? && !f.varArg
    ensures FromStrSpec(Signature(f)) == Some(f)
  {
    var names := TypeNames(f.args);
    var argText := Join(names, ',');
    forall k | 0 <= k < |names|
      ensures Ident(names[k])
    {
      TypeNameChars(f.args[k]);
    }
    forall k, i | 0 <= k < |names| && 0 <= i < |names[k]|
      ensures names[k][i] != ','
    {
      assert names[k][i] in names[k];
    }
    JoinChars(names, ',');
    JoinSplit(names, ',');
    ParseArgsNames(f.args);
    var r := TypeName(f.ret);
    TypeNameChars(f.ret);
    assert r[|r| - 1] in r;
    TypeNameRoundTrip(f.ret, r);
    SignatureLine(f.name, argText, r);
  }

  /** Empty parentheses are refused: the one empty piece names no type. */
  lemma NoArgsRefused(name: string, ret: SqlType)
    requires Ident(name)
    ensures FromStrSpec(name + "()->" + TypeName(ret)) == None
  {
    var r := TypeName(ret);
    TypeNameChars(ret);
    assert r[|r| - 1] in r;
    assert name + "()->" + r == name + "(" + "" + ")->" + r;
    SignatureLine(name, "", r);
    assert Split("", ',') == [""];
    TypeNameRoundTrip(ret, "");
  }

  /** A space after a comma stays in the next piece, which then names no type. */
  lemma SpaceAfterCommaRefused(name: string, a: SqlType, b: SqlType, ret: SqlType)
    requires Ident(name)
    ensures FromStrSpec(name + "(" + TypeName(a) + ", " + TypeName(b) + ")->" + TypeName(ret)) == None
  {
    var r := TypeName(ret);
    TypeNameChars(ret);
    assert r[|r| - 1] in r;
    var argText := TypeName(a) + ", " + TypeName(b);
    CommaSpaceArgs(a, b);
    assert name + "(" + TypeName(a) + ", " + TypeName(b) + ")->" + r == name + "(" + argText + ")->" + r;
    SignatureLine(name, argText, r);
    TypeNameRoundTrip(b, " " + TypeName(b));
  }

  /** Two type names joined by ", " hold no parenthesis or dash, and cut at
      the comma into the first name and the second with its leading space. */
  lemma CommaSpaceArgs(a: SqlType, b: SqlType)
    ensures var argText := TypeName(a) + ", " + TypeName(b);
      '(' !in argText && ')' !in argText && '-' !in argText
      && Split(argText, ',') == [TypeName(a), " " + TypeName(b)]
  {
    TypeNameChars(a);
    TypeNameChars(b);
    var ta, tb := TypeName(a), " " + TypeName(b);
    var argText := ta + ", " + TypeName(b);
    assert argText == Join([ta, tb], ',');
    forall k, i | 0 <= k < 2 && 0 <= i < |[ta, tb][k]|
      ensures [ta, tb][k][i] != ','
    {
      assert [ta, tb][k][i] in [ta, tb][k];
    }
    JoinSplit([ta, tb], ',');
  }

  // ---------------------------------------------------------------------
  // TOML

  /** simple_from_table: "variadic" must be a boolean when present, and
      "name" a string holding the text form. */
  function SimpleFromTable(tbl: map<string, TomlValue>): (r: Option<Function>)
    ensures r.Some? <==>
      ("variadic" !in tbl || tbl["variadic"].TBool?) && "name" in tbl && tbl["name"].TString? && FromStrSpec(tbl["name"].s).Some?
    ensures r.Some? ==> r.value == FromStrSpec(tbl["name"].s).value.(varArg := "variadic" in tbl && tbl["variadic"].b)
  {
    var variadic :=
      if "variadic" !in tbl then Some(false)
      else if tbl["variadic"].TBool? then Some(tbl["variadic"].b)
      else None;
    if variadic.None? then None
    else if "name" in tbl && tbl["name"].TString? then
      match FromStrSpec(tbl["name"].s)
      case None => None
      case Some(f) => Some(f.(varArg := variadic.value))
    else None
  }

  /** TryFrom<toml::Value> for Aggregate. */
  function AggregateFromToml(v: TomlValue): (r: Option<Aggregate>)
  {
    if !v.TTable? then None
    else
      var t := v.entries;
      if "init" in t && t["init"].TString? then
        if !("state" in t && t["state"].TString?) then None
        else if !("final" in t && t["final"].TString?) then None
        else if !("name" in t && t["name"].TString?) then None
        else Some(Aggregate(t["name"].s, t["init"].s, t["state"].s, t["final"].s))
      else None
  }

  predicate StringEntry(t: map<string, TomlValue>, key: string)
  {
    key in t && t[key].TString?
  }

  /** An aggregate is read exactly from a table whose four entries are strings. */
  lemma AggregateFromTomlExact(v: TomlValue)
    ensures AggregateFromToml(v).Some? <==>
      v.TTable? && StringEntry(v.entries, "init") && StringEntry(v.entries, "state")
      && StringEntry(v.entries, "final") && StringEntry(v.entries, "name")
    ensures AggregateFromToml(v).Some? ==>
      AggregateFromToml(v).value == Aggregate(v.entries["name"].s, v.entries["init"].s, v.entries["state"].s, v.entries["final"].s)
  {
  }

  /** TryFrom<toml::Value> for Function: only a string, holding the text form. */
  function FunctionFromToml(v: TomlValue): (r: Option<Function>)
    ensures !v.TString? ==> r.None?
    ensures v.TString? ==> r == FromStrSpec(v.s)
  {
    match v
    case TString(s) => FromStrSpec(s)
    case _ => None
  }

  // ---------------------------------------------------------------------
  // Rust items

  datatype FnArg = Receiver | Typed(tyText: string)

  /** An attribute: its path identifier and its tokens as text. */
  datatype Attr = Attr(ident: string, tokens: string)

  /** A function item: name, whether it is `pub`, its inputs, the text of
      its return type (None for the default `()`), and its attributes. */
  datatype ItemFn = ItemFn(name: string, public: bool, inputs: seq<FnArg>, output: Option<string>, attrs: seq<Attr>)

  /** Items: functions, modules and the rest. A module declared `mod m;`
      has no inline content (`inline` false, no items); `mod m { ... }`
      has its items inline. */
  datatype Item = FnItem(f: ItemFn) | ModItem(name: string, public: bool, inline: bool, items: seq<Item>) | OtherItem

  /** The items of a module are smaller than the module. */
  lemma ItemsBelow(item: Item)
    requires item.ModItem?
    ensures forall i :: 0 <= i < |item.items| ==> item.items[i] < item
  {
    forall i | 0 <= i < |item.items|
      ensures item.items[i] < item
    {
      assert item.items[i] in item.items;
    }
  }

  /** search_mod. */
  function SearchModSpec(modName: string, item: Item): (r: Option<Item>)
    ensures r.Some? ==> r.value.ModItem? && r.value.name == modName
    decreases item, 1
  {
    match item
    case ModItem(name, _, inline, items) =>
      if name == modName then Some(item)
      else if inline then ItemsBelow(item); SearchModIn(modName, items, item)
      else None
    case _ => None
  }

  function SearchModIn(modName: string, items: seq<Item>, ghost parent: Item): (r: Option<Item>)
    requires forall i :: 0 <= i < |items| ==> items[i] < parent
    ensures r.Some? ==> r.value.ModItem? && r.value.name == modName
    decreases parent, 0, |items|
  {
    if |items| == 0 then None
    else
      var found := SearchModSpec(modName, items[0]);
      if found.Some? then found else SearchModIn(modName, items[1..], parent)
  }

  /** search_mod: a module with the name is returned, otherwise its inline
      items are searched in order. */
  method SearchMod(modName: string, item: Item) returns (r: Option<Item>)
    ensures r == SearchModSpec(modName, item)
    decreases item
  {
    match item {
      case ModItem(name, _, inline, items) =>
        if name == modName {
          return Some(item);
        }
        if inline {
          ItemsBelow(item);
          var i := 0;
          while i < |items|
            invariant 0 <= i <= |items|
            invariant SearchModIn(modName, items, item) == SearchModIn(modName, items[i..], item)
          {
            assert items[i] in items;
            assert items[i..][1..] == items[i + 1..];
            var m := SearchMod(modName, items[i]);
            if m.Some? {
              return m;
            }
            i := i + 1;
          }
        }
        return None;
      case _ =>
        return None;
    }
  }

  /** The modules of an item, depth first and parents before children,
      looking only into inline contents. */
  function ModsOf(item: Item): seq<Item>
    decreases item, 1
  {
    match item
    case ModItem(_, _, inline, items) =>
      [item] + (if inline then ItemsBelow(item); ModsIn(items, item) else [])
    case _ => []
  }

  function ModsIn(items: seq<Item>, ghost parent: Item): seq<Item>
    requires forall i :: 0 <= i < |items| ==> items[i] < parent
    decreases parent, 0, |items|
  {
    if |items| == 0 then [] else ModsOf(items[0]) + ModsIn(items[1..], parent)
  }

  /** The first module with the given name. */
  function FirstNamed(modName: string, mods: seq<Item>): Option<Item>
  {
    if |mods| == 0 then None
    else if mods[0].ModItem? && mods[0].name == modName then Some(mods[0])
    else FirstNamed(modName, mods[1..])
  }

  lemma {:induction false} FirstNamedAppend(modName: string, a: seq<Item>, b: seq<Item>)
    ensures FirstNamed(modName, a + b) == if FirstNamed(modName, a).Some? then FirstNamed(modName, a) else FirstNamed(modName, b)
  {
    if |a| > 0 {
      assert (a + b)[1..] == a[1..] + b;
      FirstNamedAppend(modName, a[1..], b);
    } else {
      assert a + b == b;
    }
  }

  /** search_mod finds the first module with the name in depth-first order. */
  lemma {:induction false} SearchModFirst(modName: string, item: Item)
    ensures SearchModSpec(modName, item) == FirstNamed(modName, ModsOf(item))
    decreases item, 1
  {
    match item
    case ModItem(name, _, inline, items) =>
      ItemsBelow(item);
      var rest := if inline then ModsIn(items, item) else [];
      assert ModsOf(item)[1..] == rest;
      if name != modName && inline {
        SearchModInFirst(modName, items, item);
      }
    case FnItem(_) =>
    case OtherItem =>
  }

  lemma {:induction false} SearchModInFirst(modName: string, items: seq<Item>, parent: Item)
    requires forall i :: 0 <= i < |items| ==> items[i] < parent
    ensures SearchModIn(modName, items, parent) == FirstNamed(modName, ModsIn(items, parent))
    decreases parent, 0, |items|
  {
    if |items| > 0 {
      SearchModFirst(modName, items[0]);
      SearchModInFirst(modName, items[1..], parent);
      FirstNamedAppend(modName, ModsOf(items[0]), ModsIn(items[1..], parent));
    }
  }
}
