/** Table columns: a column is a typed vector; a nullable column holds the
    non-null values of a column, the ascending positions of its nulls and
    its full length. The two are defined together because each can hold
    the other. */
module TableColumns {
  import opened Wrappers
  import opened Strs

  type I8 = x: int | -0x80 <= x < 0x80
  type I16 = x: int | -0x8000 <= x < 0x8000
  type I32 = x: int | -0x8000_0000 <= x < 0x8000_0000
  type U32 = x: int | 0 <= x < 0x1_0000_0000
  type I64 = x: int | -0x8000_0000_0000_0000 <= x < 0x8000_0000_0000_0000
  type Byte = x: int | 0 <= x < 0x100

  /** Floating point and decimal values are kept as reals; their text form
      is supplied by the caller (see DisplayContent). */
  datatype Column =
    | Bool(bools: seq<bool>)
    | Int8(i8s: seq<I8>)
    | Int16(i16s: seq<I16>)
    | Int32(i32s: seq<I32>)
    | UInt32(u32s: seq<U32>)
    | Int64(i64s: seq<I64>)
    | Float32(f32s: seq<real>)
    | Float64(f64s: seq<real>)
    | Numeric(decimals: seq<real>)
    | Str(strs: seq<string>)
    | Bytes(blobs: seq<seq<Byte>>)
    | Nullable(inner: NullableColumn)

  datatype NullableColumn = NullableColumn(col: Column, nullIx: seq<nat>, n: nat)

  /** The number of entries: the wrapped vector's length, or n for a nullable column. */
  function Len(c: Column): (r: nat)
    ensures c.Nullable? ==> r == c.inner.n
    ensures c.Str? ==> r == |c.strs|
  {
    match c
    case Bool(v) => |v|
    case Int8(v) => |v|
    case Int16(v) => |v|
    case Int32(v) => |v|
    case UInt32(v) => |v|
    case Int64(v) => |v|
    case Float32(v) => |v|
    case Float64(v) => |v|
    case Numeric(v) => |v|
    case Str(v) => |v|
    case Bytes(v) => |v|
    case Nullable(x) => x.n
  }

  /** The SQLite type name of a column. */
  function SqliteType(c: Column): (r: string)
    ensures r == "INT" <==> c.Int32? || c.Int64?
    ensures r == "REAL" <==> c.Float32? || c.Float64?
    ensures r == "BLOB" <==> c.Bytes?
    ensures r == "TEXT" <==> !(c.Int32? || c.Int64? || c.Float32? || c.Float64? || c.Bytes?)
  {
    match c
    case Int32(_) => "INT"
    case Int64(_) => "INT"
    case Float32(_) => "REAL"
    case Float64(_) => "REAL"
    case Bytes(_) => "BLOB"
    case _ => "TEXT"
  }

  /** The column new_empty builds, whatever element type is asked for. */
  function NewEmpty(): (r: Column)
    ensures r.Bool? && Len(r) == 0
  {
    Bool([])
  }

  // ---------------------------------------------------------------------
  // Truncation

  function Min(a: nat, b: nat): nat { if a <= b then a else b }

  /** truncate: every vector keeps its first m entries; a nullable column
      truncates only its inner column and keeps its length n. */
  function Truncate(c: Column, m: nat): (r: Column)
    ensures !c.Nullable? ==> Len(r) == Min(Len(c), m)
    ensures c.Nullable? ==> r.Nullable? && r.inner.n == c.inner.n && r.inner.nullIx == c.inner.nullIx
    ensures c.Str? ==> r == Str(c.strs[..Min(|c.strs|, m)])
  {
    match c
    case Bool(v) => Bool(v[..Min(|v|, m)])
    case Int8(v) => Int8(v[..Min(|v|, m)])
    case Int16(v) => Int16(v[..Min(|v|, m)])
    case Int32(v) => Int32(v[..Min(|v|, m)])
    case UInt32(v) => UInt32(v[..Min(|v|, m)])
    case Int64(v) => Int64(v[..Min(|v|, m)])
    case Float32(v) => Float32(v[..Min(|v|, m)])
    case Float64(v) => Float64(v[..Min(|v|, m)])
    case Numeric(v) => Numeric(v[..Min(|v|, m)])
    case Str(v) => Str(v[..Min(|v|, m)])
    case Bytes(v) => Bytes(v[..Min(|v|, m)])
    case Nullable(x) => Nullable(x.(col := Truncate(x.col, m)))
  }

  // ---------------------------------------------------------------------
  // Interleaving values and nulls

  /** The interleaving loop of display_content, ref_content and try_into,
      from position i with k nulls already placed: a position listed next
      in nullIx gets the null marker, any other takes the next value;
      running out of values is an out-of-bounds panic. */
  function Go<T>(valid: seq<T>, nullIx: seq<nat>, n: nat, nul: T, i: nat, k: nat): Outcome<seq<T>>
    requires k <= i
    decreases n - i
  {
    if i >= n then Returned([])
    else if k < |nullIx| && i == nullIx[k] then Prepend(nul, Go(valid, nullIx, n, nul, i + 1, k + 1))
    else if i - k >= |valid| then Panic
    else Prepend(valid[i - k], Go(valid, nullIx, n, nul, i + 1, k))
  }

  function Prepend<T>(x: T, o: Outcome<seq<T>>): Outcome<seq<T>>
  {
    if o.Panic? then Panic else Returned([x] + o.value)
  }

  /** The whole interleaving of n positions. */
  function Interleave<T>(valid: seq<T>, nullIx: seq<nat>, n: nat, nul: T): (r: Outcome<seq<T>>)
    ensures r.Returned? ==> |r.value| == n
  {
    GoLength(valid, nullIx, n, nul, 0, 0);
    Go(valid, nullIx, n, nul, 0, 0)
  }

  lemma {:induction false} GoLength<T>(valid: seq<T>, nullIx: seq<nat>, n: nat, nul: T, i: nat, k: nat)
    requires k <= i
    ensures Go(valid, nullIx, n, nul, i, k).Returned? ==> |Go(valid, nullIx, n, nul, i, k).value| == if i <= n then n - i else 0
    decreases n - i
  {
    if i < n {
      if k < |nullIx| && i == nullIx[k] {
        GoLength(valid, nullIx, n, nul, i + 1, k + 1);
      } else if i - k < |valid| {
        GoLength(valid, nullIx, n, nul, i + 1, k);
      }
    }
  }

  /** How many nulls the loop places over positions i..n-1, starting with k placed. */
  function Matched(nullIx: seq<nat>, n: nat, i: nat, k: nat): nat
    decreases n - i
  {
    if i >= n then k
    else if k < |nullIx| && i == nullIx[k] then Matched(nullIx, n, i + 1, k + 1)
    else Matched(nullIx, n, i + 1, k)
  }

  /** One interleaving loop written out (NullableColumn::display_content,
      ref_content): the loop runs the specification Interleave. */
  method InterleaveLoop<T>(valid: seq<T>, nullIx: seq<nat>, n: nat, nul: T) returns (r: Outcome<seq<T>>)
    ensures r == Interleave(valid, nullIx, n, nul)
  {
    var content: seq<T> := [];
    var k := 0;
    var i := 0;
    PrependAllEmpty(Go(valid, nullIx, n, nul, 0, 0));
    while i < n
      invariant k <= i <= n
      invariant Go(valid, nullIx, n, nul, 0, 0) == PrependAll(content, Go(valid, nullIx, n, nul, i, k))
      decreases n - i
    {
      if k < |nullIx| && i == nullIx[k] {
        PrependAllOne(content, nul, Go(valid, nullIx, n, nul, i + 1, k + 1));
        content := content + [nul];
        k := k + 1;
      } else {
        if i - k >= |valid| {
          return Panic;
        }
        PrependAllOne(content, valid[i - k], Go(valid, nullIx, n, nul, i + 1, k));
        content := content + [valid[i - k]];
      }
      i := i + 1;
    }
    assert content + [] == content;
    return Returned(content);
  }

  function PrependAll<T>(xs: seq<T>, o: Outcome<seq<T>>): Outcome<seq<T>>
  {
    if o.Panic? then Panic else Returned(xs + o.value)
  }

  lemma PrependAllEmpty<T>(o: Outcome<seq<T>>)
    ensures PrependAll([], o) == o
  {
    if o.Returned? {
      assert [] + o.value == o.value;
    }
  }

  lemma PrependAllOne<T>(xs: seq<T>, x: T, o: Outcome<seq<T>>)
    ensures PrependAll(xs, Prepend(x, o)) == PrependAll(xs + [x], o)
  {
    if o.Returned? {
      assert xs + ([x] + o.value) == (xs + [x]) + o.value;
    }
  }

  // ---------------------------------------------------------------------
  // Text form

  function IntText(x: int): (r: string)
    ensures x < 0 <==> (|r| > 0 && r[0] == '-')
  {
    if x < 0 then "-" + NatToString(-x) else NatToString(x)
  }

  function BoolText(b: bool): string { if b then "true" else "false" }

  function MapSeq<T, U>(f: T -> U, s: seq<T>): (r: seq<U>)
    ensures |r| == |s| && forall i :: 0 <= i < |s| ==> r[i] == f(s[i])
  {
    seq(|s|, i requires 0 <= i < |s| => f(s[i]))
  }

  /** display_content: one text per entry. `showReal` is the text of a
      float or decimal at the display precision. Strings are kept as they
      are, byte strings show as "(Binary)", and a nullable column shows
      "NULL" at its null positions; a nullable column wrapping another one
      shows nothing. */
  function DisplayContent(c: Column, showReal: real -> string): (r: Outcome<seq<string>>)
    ensures r.Returned? ==> |r.value| == (if c.Nullable? && c.inner.col.Nullable? then 0 else Len(c))
    ensures c.Str? ==> r == Returned(c.strs)
    ensures c.Bytes? ==> r.Returned? && forall i :: 0 <= i < |r.value| ==> r.value[i] == "(Binary)"
    ensures !c.Nullable? ==> r.Returned?
  {
    match c
    case Bool(v) => Returned(MapSeq(BoolText, v))
    case Int8(v) => Returned(MapSeq((x: I8) => IntText(x), v))
    case Int16(v) => Returned(MapSeq((x: I16) => IntText(x), v))
    case Int32(v) => Returned(MapSeq((x: I32) => IntText(x), v))
    case UInt32(v) => Returned(MapSeq((x: U32) => IntText(x), v))
    case Int64(v) => Returned(MapSeq((x: I64) => IntText(x), v))
    case Float32(v) => Returned(MapSeq(showReal, v))
    case Float64(v) => Returned(MapSeq(showReal, v))
    case Numeric(v) => Returned(MapSeq(showReal, v))
    case Str(v) => Returned(v)
    case Bytes(v) => Returned(MapSeq((_: seq<Byte>) => "(Binary)", v))
    case Nullable(x) =>
      if x.col.Nullable? then Returned([])
      else
        var valid := DisplayContent(x.col, showReal);
        Interleave(valid.value, x.nullIx, x.n, "NULL")
  }

  /** What a ref_content entry refers to: the i-th entry of the wrapped
      vector, or the shared "NULL" text. */
  datatype Ref = Cell(pos: nat) | NullRef

  /** ref_content: references to the entries, interleaved with "NULL" the
      same way display_content is. */
  function RefContent(c: Column): (r: Outcome<seq<Ref>>)
    ensures r.Returned? ==> |r.value| == (if c.Nullable? && c.inner.col.Nullable? then 0 else Len(c))
    ensures !c.Nullable? ==> r.Returned? && forall i :: 0 <= i < |r.value| ==> r.value[i] == Cell(i)
  {
    if !c.Nullable? then Returned(seq(Len(c), i requires 0 <= i => Cell(i)))
    else if c.inner.col.Nullable? then Returned([])
    else
      var valid := RefContent(c.inner.col);
      Interleave(valid.value, c.inner.nullIx, c.inner.n, NullRef)
  }

  /** Truncating a plain column keeps a prefix of its text. */
  lemma TruncateDisplay(c: Column, m: nat, showReal: real -> string)
    requires !c.Nullable?
    ensures DisplayContent(Truncate(c, m), showReal).value == DisplayContent(c, showReal).value[..Min(Len(c), m)]
  {
  }

  // ---------------------------------------------------------------------
  // Conversions: From<Vec<T>> picks the variant, TryFrom<Column> for Vec<T>
  // gives the vector back and refuses every other variant.

  const InvalidType := "Invalid column type"

  function TryBools(c: Column): (r: Result<seq<bool>>)
    ensures r.Ok? <==> c.Bool?
    ensures r.Ok? ==> c == Bool(r.value)
    ensures r.Err? ==> r.msg == InvalidType
  {
    if c.Bool? then Ok(c.bools) else Err(InvalidType)
  }

  function TryI8s(c: Column): (r: Result<seq<I8>>)
    ensures r.Ok? <==> c.Int8?
    ensures r.Ok? ==> c == Int8(r.value)
    ensures r.Err? ==> r.msg == InvalidType
  {
    if c.Int8? then Ok(c.i8s) else Err(InvalidType)
  }

  function TryI16s(c: Column): (r: Result<seq<I16>>)
    ensures r.Ok? <==> c.Int16?
    ensures r.Ok? ==> c == Int16(r.value)
    ensures r.Err? ==> r.msg == InvalidType
  {
    if c.Int16? then Ok(c.i16s) else Err(InvalidType)
  }

  function TryI32s(c: Column): (r: Result<seq<I32>>)
    ensures r.Ok? <==> c.Int32?
    ensures r.Ok? ==> c == Int32(r.value)
    ensures r.Err? ==> r.msg == InvalidType
  {
    if c.Int32? then Ok(c.i32s) else Err(InvalidType)
  }

  function TryU32s(c: Column): (r: Result<seq<U32>>)
    ensures r.Ok? <==> c.UInt32?
    ensures r.Ok? ==> c == UInt32(r.value)
    ensures r.Err? ==> r.msg == InvalidType
  {
    if c.UInt32? then Ok(c.u32s) else Err(InvalidType)
  }

  function TryI64s(c: Column): (r: Result<seq<I64>>)
    ensures r.Ok? <==> c.Int64?
    ensures r.Ok? ==> c == Int64(r.value)
    ensures r.Err? ==> r.msg == InvalidType
  {
    if c.Int64? then Ok(c.i64s) else Err(InvalidType)
  }

  function TryF32s(c: Column): (r: Result<seq<real>>)
    ensures r.Ok? <==> c.Float32?
    ensures r.Ok? ==> c == Float32(r.value)
    ensures r.Err? ==> r.msg == InvalidType
  {
    if c.Float32? then Ok(c.f32s) else Err(InvalidType)
  }

  function TryF64s(c: Column): (r: Result<seq<real>>)
    ensures r.Ok? <==> c.Float64?
    ensures r.Ok? ==> c == Float64(r.value)
    ensures r.Err? ==> r.msg == InvalidType
  {
    if c.Float64? then Ok(c.f64s) else Err(InvalidType)
  }

  function TryDecimals(c: Column): (r: Result<seq<real>>)
    ensures r.Ok? <==> c.Numeric?
    ensures r.Ok? ==> c == Numeric(r.value)
    ensures r.Err? ==> r.msg == InvalidType
  {
    if c.Numeric? then Ok(c.decimals) else Err(InvalidType)
  }

  function TryStrs(c: Column): (r: Result<seq<string>>)
    ensures r.Ok? <==> c.Str?
    ensures r.Ok? ==> c == Str(r.value)
    ensures r.Err? ==> r.msg == InvalidType
  {
    if c.Str? then Ok(c.strs) else Err(InvalidType)
  }

  function TryBlobs(c: Column): (r: Result<seq<seq<Byte>>>)
    ensures r.Ok? <==> c.Bytes?
    ensures r.Ok? ==> c == Bytes(r.value)
    ensures r.Err? ==> r.msg == InvalidType
  {
    if c.Bytes? then Ok(c.blobs) else Err(InvalidType)
  }
}
