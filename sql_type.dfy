/** The Rust argument and return types a user function may use, and the
    slice and vector forms an aggregate takes them in. Type texts are
    ASCII, with whitespace already removed. */
module SqlTypes {
  import opened Wrappers

  datatype SqlType = I32 | I64 | F32 | F64 | String

  datatype SqlAggType = Simple(ty: SqlType) | Nested(ty: SqlType) | Owned(ty: SqlType)

  /** Display for SqlType. */
  function TypeName(t: SqlType): (r: string)
    ensures |r| == 3 || (t == String && |r| == 6)
  {
    match t
    case I32 => "i32"
    case I64 => "i64"
    case F32 => "f32"
    case F64 => "f64"
    case String => "String"
  }

  /** SqlType::try_from on text: exactly the five names. */
  function ParseType(s: string): (r: Option<SqlType>)
    ensures r.Some? ==> TypeName(r.value) == s
  {
    if s == "i32" then Some(I32)
    else if s == "i64" then Some(I64)
    else if s == "f32" then Some(F32)
    else if s == "f64" then Some(F64)
    else if s == "String" then Some(String)
    else None
  }

  /** Every type's name reads back as that type, and nothing else reads as a type. */
  lemma TypeNameRoundTrip(t: SqlType, s: string)
    ensures ParseType(TypeName(t)) == Some(t)
    ensures ParseType(s).Some? <==> s in {"i32", "i64", "f32", "f64", "String"}
  {
  }

  /** `&s[a..b]`, which panics past the end of the text. */
  function Slice(s: string, a: nat, b: nat): (r: Outcome<string>)
    requires a <= b
    ensures r.Returned? <==> b <= |s|
    ensures r.Returned? ==> r.value == s[a..b]
  {
    if b <= |s| then Returned(s[a..b]) else Panic
  }

  /** The type named at offset a: a three-letter name first, then the
      six letters of "String"; the second slice may panic. */
  function TypeAt(s: string, a: nat): (r: Outcome<Option<SqlType>>)
  {
    match Slice(s, a, a + 3)
    case Panic => Panic
    case Returned(short) =>
      if ParseType(short).Some? then Returned(ParseType(short))
      else
        match Slice(s, a, a + 6)
        case Panic => Panic
        case Returned(long) => Returned(ParseType(long))
  }

  /** parse_scalar_variadic: a plain type, or "&[" and a type for a
      variadic argument. */
  function ParseScalarVariadic(ty: string): (r: Outcome<Option<(SqlType, bool)>>)
  {
    match ParseType(ty)
    case Some(t) => Returned(Some((t, false)))
    case None =>
      if "&[" <= ty then
        match TypeAt(ty, 2)
        case Panic => Panic
        case Returned(o) => Returned(if o.Some? then Some((o.value, true)) else None)
      else Returned(None)
  }

  /** SqlAggType::try_from on text. */
  function ParseAggType(s: string): (r: Outcome<Option<SqlAggType>>)
  {
    if "&[" <= s then
      if "&[&[" <= s then
        match TypeAt(s, 4)
        case Panic => Panic
        case Returned(o) => Returned(if o.Some? then Some(Nested(o.value)) else None)
      else
        match TypeAt(s, 2)
        case Panic => Panic
        case Returned(o) => Returned(if o.Some? then Some(Simple(o.value)) else None)
    else if "Vec<" <= s then
      match TypeAt(s, 4)
      case Panic => Panic
      case Returned(o) => Returned(if o.Some? then Some(Owned(o.value)) else None)
    else Returned(None)
  }

  /** Display for SqlAggType. */
  function AggTypeName(a: SqlAggType): string
  {
    match a
    case Simple(t) => "&[" + TypeName(t) + "]"
    case Nested(t) => "&[&[" + TypeName(t) + "]]"
    case Owned(t) => "Vec<" + TypeName(t) + ">"
  }

  /** inner(): the wrapped type. */
  function Inner(a: SqlAggType): (r: SqlType)
    ensures r == a.ty
  {
    match a
    case Simple(t) => t
    case Nested(t) => t
    case Owned(t) => t
  }

  /** A type name right after the offset is read, whatever follows it. */
  lemma TypeAtName(pre: string, t: SqlType, tail: string)
    ensures TypeAt(pre + TypeName(t) + tail, |pre|) == Returned(Some(t))
  {
    var s := pre + TypeName(t) + tail;
    if t == String {
      assert s[|pre|..|pre| + 3] == "Str";
      assert s[|pre|..|pre| + 6] == "String";
    } else {
      assert s[|pre|..|pre| + 3] == TypeName(t);
    }
  }

  /** The kind is read from the opening only and the type at a fixed
      offset; the closing brackets and anything after them are ignored. */
  lemma ParseAggTypeOpening(t: SqlType, tail: string)
    ensures ParseAggType("&[" + TypeName(t) + tail) == Returned(Some(Simple(t)))
    ensures ParseAggType("&[&[" + TypeName(t) + tail) == Returned(Some(Nested(t)))
    ensures ParseAggType("Vec<" + TypeName(t) + tail) == Returned(Some(Owned(t)))
  {
    TypeAtName("&[", t, tail);
    TypeAtName("&[&[", t, tail);
    TypeAtName("Vec<", t, tail);
    var s := "&[" + TypeName(t) + tail;
    assert s[2] != '&';
    assert !("&[&[" <= s);
    assert "&[" <= "&[&[" + TypeName(t) + tail;
    assert ("&[&[" + TypeName(t) + tail)[..4] == "&[&[";
    assert ("Vec<" + TypeName(t) + tail)[..4] == "Vec<";
    assert ("Vec<" + TypeName(t) + tail)[0] == 'V';
  }

  /** Display then try_from gives back every aggregate type, as for the
      twelve written out in the module's test. */
  lemma AggTypeRoundTrip(a: SqlAggType)
    ensures ParseAggType(AggTypeName(a)) == Returned(Some(a))
  {
    match a
    case Simple(t) =>
      ParseAggTypeOpening(t, "]");
    case Nested(t) =>
      ParseAggTypeOpening(t, "]]");
    case Owned(t) =>
      ParseAggTypeOpening(t, ">");
  }

  /** Text starting with neither "&[" nor "Vec<" is no aggregate type. */
  lemma ParseAggTypeOther(s: string)
    requires !("&[" <= s) && !("Vec<" <= s)
    ensures ParseAggType(s) == Returned(None)
  {
  }

  /** An opening with too little text after it panics at the slice. */
  lemma ParseAggTypeShort(s: string)
    requires "&[" <= s && |s| < 5
    ensures ParseAggType(s) == Panic
  {
  }

  /** parse_scalar_variadic: a plain name is one argument, "&[" and a
      name is a variadic one. */
  lemma ParseScalarVariadicForms(t: SqlType, tail: string)
    ensures ParseScalarVariadic(TypeName(t)) == Returned(Some((t, false)))
    ensures ParseScalarVariadic("&[" + TypeName(t) + tail) == Returned(Some((t, true)))
  {
    TypeAtName("&[", t, tail);
    var s := "&[" + TypeName(t) + tail;
    assert s[0] == '&';
    assert ParseType(s).None?;
  }
}
