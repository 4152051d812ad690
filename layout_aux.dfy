/** The property editors of the layout toolbar: the path of a layout
    property of the active plot, and the update an editor sends for it. */
module LayoutProperties {
  import opened Wrappers
  import opened Strs

  /** The layout update sent to the plot view: a property path and its new
      value. */
  datatype LayoutUpdate = Layout(path: string, value: string)

  const AreaPrefix: string := "/plotgroup/plotarea[@position="

  /** The path of the active plot area. */
  function AreaPath(area: nat): string
  {
    AreaPrefix + NatToString(area) + "]"
  }

  /** The attribute that names an object of the parent class, for the three
      classes that have one. */
  function Identifier(parentClass: string): (r: Option<string>)
    ensures r.Some? <==> parentClass in {"mapping", "grid_segment", "design"}
  {
    match parentClass
    case "mapping" => Some("@index")
    case "grid_segment" => Some("@name")
    case "design" => Some("@name")
    case _ => None
  }

  /** The path change_plot_property builds for property `name` of the
      object `prefix` of the parent class, in the active area; None when
      the parent class is not known (nothing is sent). */
  function PropertyPath(area: nat, prefix: string, name: string, parentClass: string): Option<string>
  {
    match Identifier(parentClass)
    case None => None
    case Some(id) =>
      var obj := if parentClass in {"mapping", "grid_segment", "design"}
        then "/object[" + id + "='" + prefix + "']/property"
        else "/property";
      Some(AreaPath(area) + obj + "[@name='" + name + "']")
  }

  /** A mapping's property is addressed by index, a grid segment's or the
      design's by name, always under the active area; every other parent
      class gives no path, so a bare property path is never built. */
  lemma PropertyPathShape(area: nat, prefix: string, name: string, parentClass: string)
    ensures PropertyPath(area, prefix, name, parentClass).Some? <==> parentClass in {"mapping", "grid_segment", "design"}
    ensures parentClass == "mapping" ==>
      PropertyPath(area, prefix, name, parentClass) == Some(AreaPath(area) + "/object[@index='" + prefix + "']/property[@name='" + name + "']")
    ensures parentClass == "grid_segment" || parentClass == "design" ==>
      PropertyPath(area, prefix, name, parentClass) == Some(AreaPath(area) + "/object[@name='" + prefix + "']/property[@name='" + name + "']")
  {
    var id := Identifier(parentClass);
    if id.Some? {
      var head := "/object[" + id.value + "='";
      assert parentClass == "mapping" ==> head == "/object[@index='";
      assert parentClass != "mapping" ==> head == "/object[@name='";
      assert "']/property" + "[@name='" == "']/property[@name='";
      var obj := head + prefix + "']/property";
      assert AreaPath(area) + obj + "[@name='" + name + "']"
        == AreaPath(area) + head + prefix + "']/property[@name='" + name + "']";
    }
  }

  /** The path names its area: two paths that are equal come from the same
      active area. */
  lemma PropertyPathArea(a: nat, b: nat, prefix: string, name: string, parentClass: string, prefix': string, name': string, parentClass': string)
    requires PropertyPath(a, prefix, name, parentClass).Some?
    requires PropertyPath(a, prefix, name, parentClass) == PropertyPath(b, prefix', name', parentClass')
    ensures a == b
  {
    var t := PathTail(a, prefix, name, parentClass);
    var u := PathTail(b, prefix', name', parentClass');
    var da, db := NatToString(a), NatToString(b);
    SamePrefixRest(AreaPrefix, da + "]" + t, db + "]" + u);
    DigitsBeforeBracket(da, db, t, u);
    ParseNatToString(a);
    ParseNatToString(b);
  }

  /** A property path is the area path followed by the rest. */
  lemma PathTail(area: nat, prefix: string, name: string, parentClass: string) returns (t: string)
    requires PropertyPath(area, prefix, name, parentClass).Some?
    ensures PropertyPath(area, prefix, name, parentClass).value == AreaPrefix + (NatToString(area) + "]" + t)
  {
    var id := Identifier(parentClass).value;
    t := "/object[" + id + "='" + prefix + "']/property" + "[@name='" + name + "']";
  }

  lemma SamePrefixRest(pre: string, x: string, y: string)
    requires pre + x == pre + y
    ensures x == y
  {
    assert x == (pre + x)[|pre|..];
    assert y == (pre + y)[|pre|..];
  }

  /** Two digit strings each closed by ']' at the head of the same text are equal. */
  lemma DigitsBeforeBracket(da: string, db: string, t: string, u: string)
    requires forall i :: 0 <= i < |da| ==> IsDigit(da[i])
    requires forall i :: 0 <= i < |db| ==> IsDigit(db[i])
    requires da + "]" + t == db + "]" + u
    ensures da == db
  {
    var p := da + "]" + t;
    DigitRunBeforeBracket(da, t);
    DigitRunBeforeBracket(db, u);
    assert da == p[..|da|];
    assert db == p[..|db|];
  }

  /** The number of digits at the head of a text. */
  function DigitRun(s: string): nat
  {
    if s != [] && IsDigit(s[0]) then 1 + DigitRun(s[1..]) else 0
  }

  lemma {:induction false} DigitRunBeforeBracket(d: string, t: string)
    requires forall i :: 0 <= i < |d| ==> IsDigit(d[i])
    ensures DigitRun(d + "]" + t) == |d|
  {
    if d != [] {
      assert (d + "]" + t)[1..] == d[1..] + "]" + t;
      DigitRunBeforeBracket(d[1..], t);
    }
  }

  /** change_plot_property: the update sent for a new value, if any. */
  function ChangeProperty(area: nat, prefix: string, name: string, parentClass: string, value: string): (r: Option<LayoutUpdate>)
    ensures r.Some? <==> Identifier(parentClass).Some?
    ensures r.Some? ==> r.value.value == value && Some(r.value.path) == PropertyPath(area, prefix, name, parentClass)
  {
    match PropertyPath(area, prefix, name, parentClass)
    case None => None
    case Some(path) => Some(Layout(path, value))
  }

  /** The entry editor, when it loses focus with the given text: only a
      non-empty text is sent. */
  function EntryUpdate(area: nat, prefix: string, name: string, parentClass: string, text: Option<string>): (r: Option<LayoutUpdate>)
    ensures r.Some? <==> text.Some? && |text.value| > 0 && Identifier(parentClass).Some?
    ensures r.Some? ==> r == ChangeProperty(area, prefix, name, parentClass, text.value)
  {
    if text.Some? && |text.value| > 0 then ChangeProperty(area, prefix, name, parentClass, text.value) else None
  }

  /** The switch editor sends the state as `bool::to_string` writes it. */
  function SwitchUpdate(area: nat, prefix: string, name: string, parentClass: string, state: bool): (r: Option<LayoutUpdate>)
    ensures r.Some? ==> r.value.value == (if state then "true" else "false")
  {
    ChangeProperty(area, prefix, name, parentClass, if state then "true" else "false")
  }
}
