/** Nullable columns: building one from optional values, reading it back,
    and the conversions to and from plain columns. */
module NullableColumns {
  import opened Wrappers
  import opened TableColumns

  /** The present values, in order. */
  function Somes<T>(o: seq<Option<T>>): (r: seq<T>)
    ensures |r| <= |o|
  {
    if |o| == 0 then []
    else Somes(o[..|o| - 1]) + (if o[|o| - 1].Some? then [o[|o| - 1].value] else [])
  }

  /** The positions of the absent values, in order. */
  function NullPositions<T>(o: seq<Option<T>>): (r: seq<nat>)
    ensures |r| <= |o|
  {
    if |o| == 0 then []
    else NullPositions(o[..|o| - 1]) + (if o[|o| - 1].None? then [|o| - 1] else [])
  }

  /** The values seen through f, with nul in place of each absent one. */
  function Fill<T, U>(o: seq<Option<T>>, f: T -> U, nul: U): (r: seq<U>)
    ensures |r| == |o|
    ensures forall i :: 0 <= i < |o| ==> r[i] == if o[i].Some? then f(o[i].value) else nul
  {
    seq(|o|, i requires 0 <= i < |o| => if o[i].Some? then f(o[i].value) else nul)
  }

  /** Every position is either a value or a null. */
  lemma {:induction false} CountSum<T>(o: seq<Option<T>>)
    ensures |Somes(o)| + |NullPositions(o)| == |o|
  {
    if |o| > 0 {
      CountSum(o[..|o| - 1]);
    }
  }

  /** The null positions are strictly ascending, in range, and are exactly
      the positions holding None. */
  lemma {:induction false} NullPositionsExact<T>(o: seq<Option<T>>)
    ensures forall a, b :: 0 <= a < b < |NullPositions(o)| ==> NullPositions(o)[a] < NullPositions(o)[b]
    ensures forall a :: 0 <= a < |NullPositions(o)| ==> NullPositions(o)[a] < |o| && o[NullPositions(o)[a]].None?
    ensures forall i :: 0 <= i < |o| && o[i].None? ==> i in NullPositions(o)
  {
    if |o| > 0 {
      var p := o[..|o| - 1];
      NullPositionsExact(p);
      assert forall i :: 0 <= i < |p| ==> p[i] == o[i];
    }
  }

  /** The values and nulls of a prefix are prefixes of those of the whole. */
  lemma {:induction false} PrefixParts<T>(o: seq<Option<T>>, j: nat)
    requires j <= |o|
    ensures NullPositions(o[..j]) <= NullPositions(o)
    ensures Somes(o[..j]) <= Somes(o)
    decreases |o| - j
  {
    if j < |o| {
      var p := o[..|o| - 1];
      assert p[..j] == o[..j];
      PrefixParts(p, j);
    } else {
      assert o[..j] == o;
    }
  }

  /** The prefix of length i + 1 adds position i to the nulls or its value to the values. */
  lemma PrefixStep<T>(o: seq<Option<T>>, i: nat)
    requires i < |o|
    ensures NullPositions(o[..i + 1]) == NullPositions(o[..i]) + (if o[i].None? then [i] else [])
    ensures Somes(o[..i + 1]) == Somes(o[..i]) + (if o[i].Some? then [o[i].value] else [])
  {
    assert o[..i + 1][..i] == o[..i];
  }

  /** from(Vec<Option<T>>): values and null positions are separated in one
      pass; `wrap` builds the inner column (the From<Vec<T>> conversion). */
  method FromOptions<T>(opts: seq<Option<T>>, wrap: seq<T> -> Column) returns (r: NullableColumn)
    ensures r == NullableColumn(wrap(Somes(opts)), NullPositions(opts), |opts|)
  {
    var nullIx: seq<nat> := [];
    var data: seq<T> := [];
    var i := 0;
    while i < |opts|
      invariant 0 <= i <= |opts|
      invariant nullIx == NullPositions(opts[..i]) && data == Somes(opts[..i])
    {
      PrefixStep(opts, i);
      if opts[i].Some? {
        data := data + [opts[i].value];
      } else {
        nullIx := nullIx + [i];
      }
      i := i + 1;
    }
    assert opts[..i] == opts;
    return NullableColumn(wrap(data), nullIx, |opts|);
  }

  /** The column FromOptions builds, as a value. */
  function OfOptions<T>(opts: seq<Option<T>>, wrap: seq<T> -> Column): NullableColumn
  {
    NullableColumn(wrap(Somes(opts)), NullPositions(opts), |opts|)
  }

  // ---------------------------------------------------------------------
  // Interleaving back

  /** From position i on, the interleaving of the separated parts gives the
      rest of the original sequence. */
  lemma {:induction false} GoFill<T, U>(o: seq<Option<T>>, f: T -> U, nul: U, i: nat)
    requires i <= |o|
    ensures |NullPositions(o[..i])| <= i
    ensures Go(MapSeq(f, Somes(o)), NullPositions(o), |o|, nul, i, |NullPositions(o[..i])|)
         == Returned(Fill(o, f, nul)[i..])
    decreases |o| - i
  {
    var k := |NullPositions(o[..i])|;
    CountSum(o[..i]);
    if i < |o| {
      var N, V, F := NullPositions(o), MapSeq(f, Somes(o)), Fill(o, f, nul);
      FillStepFacts(o, i);
      GoFill(o, f, nul, i + 1);
      assert F[i..] == [F[i]] + F[i + 1..];
      if o[i].None? {
        assert Go(V, N, |o|, nul, i, k) == Prepend(nul, Go(V, N, |o|, nul, i + 1, k + 1));
      } else {
        assert Go(V, N, |o|, nul, i, k) == Prepend(V[i - k], Go(V, N, |o|, nul, i + 1, k));
      }
    }
  }

  /** From position i on, the interleaving places every remaining null. */
  lemma {:induction false} MatchedFill<T>(o: seq<Option<T>>, i: nat)
    requires i <= |o|
    ensures |NullPositions(o[..i])| <= i
    ensures Matched(NullPositions(o), |o|, i, |NullPositions(o[..i])|) == |NullPositions(o)|
    decreases |o| - i
  {
    CountSum(o[..i]);
    if i == |o| {
      assert o[..i] == o;
    } else {
      FillStepFacts(o, i);
      MatchedFill(o, i + 1);
    }
  }

  /** Position i of o, seen from the separated parts: a null is the next
      null position, a value the next value. */
  lemma FillStepFacts<T>(o: seq<Option<T>>, i: nat)
    requires i < |o|
    ensures var N, S, k := NullPositions(o), Somes(o), |NullPositions(o[..i])|;
      k <= i
      && (o[i].None? ==> k < |N| && N[k] == i && |NullPositions(o[..i + 1])| == k + 1)
      && (o[i].Some? ==>
            !(k < |N| && i == N[k]) && i - k < |S| && S[i - k] == o[i].value && |NullPositions(o[..i + 1])| == k)
  {
    var N, S := NullPositions(o), Somes(o);
    var k := |NullPositions(o[..i])|;
    CountSum(o[..i]);
    PrefixStep(o, i);
    PrefixParts(o, i + 1);
    CountSum(o[..i + 1]);
    if o[i].None? {
      assert N[k] == NullPositions(o[..i + 1])[k] == i;
    } else {
      NullPositionsExact(o);
      assert !(k < |N| && i == N[k]);
      assert |Somes(o[..i])| == i - k;
      assert S[i - k] == Somes(o[..i + 1])[i - k] == o[i].value;
    }
  }

  /** Separating optional values and interleaving them back, through any
      view f of the values, gives every position its value or the null marker. */
  lemma InterleaveFill<T, U>(o: seq<Option<T>>, f: T -> U, nul: U)
    ensures Interleave(MapSeq(f, Somes(o)), NullPositions(o), |o|, nul) == Returned(Fill(o, f, nul))
    ensures Matched(NullPositions(o), |o|, 0, 0) == |NullPositions(o)|
  {
    GoFill(o, f, nul, 0);
    MatchedFill(o, 0);
    assert o[..0] == [];
  }

  /** display_content of a nullable column built from options: "NULL" at
      each absent position, the value's text at each present one. */
  lemma DisplayOptions<T>(opts: seq<Option<T>>, wrap: seq<T> -> Column, show: T -> string, showReal: real -> string)
    requires !wrap(Somes(opts)).Nullable?
    requires DisplayContent(wrap(Somes(opts)), showReal) == Returned(MapSeq(show, Somes(opts)))
    ensures DisplayContent(Nullable(OfOptions(opts, wrap)), showReal) == Returned(Fill(opts, show, "NULL"))
  {
    InterleaveFill(opts, show, "NULL");
  }

  // ---------------------------------------------------------------------
  // Conversions with plain columns

  /** from_col: a column with no nulls, as long as its references. */
  function FromCol(c: Column): (r: Outcome<NullableColumn>)
    ensures r.Returned? ==> r.value.col == c && r.value.nullIx == []
    ensures !c.Nullable? ==> r == Returned(NullableColumn(c, [], Len(c)))
  {
    var refs := RefContent(c);
    if refs.Panic? then Panic else Returned(NullableColumn(c, [], |refs.value|))
  }

  /** to_column: the bare inner column when there are no nulls, else the
      nullable column itself. */
  function ToColumn(x: NullableColumn): (r: Column)
    ensures x.nullIx == [] ==> r == x.col
    ensures x.nullIx != [] ==> r == Nullable(x) && Len(r) == x.n
  {
    if |x.nullIx| == 0 then x.col else Nullable(x)
  }

  /** A plain column survives from_col followed by to_column. */
  lemma ToColumnFromCol(c: Column)
    ensures FromCol(c).Returned? ==> ToColumn(FromCol(c).value) == c
  {
  }

  /** A column built from options with at least one None stays nullable
      with the full length; with none it becomes the plain column. */
  lemma ToColumnOfOptions<T>(opts: seq<Option<T>>, wrap: seq<T> -> Column)
    ensures (exists i :: 0 <= i < |opts| && opts[i].None?) ==> ToColumn(OfOptions(opts, wrap)) == Nullable(OfOptions(opts, wrap))
    ensures (forall i :: 0 <= i < |opts| ==> opts[i].Some?) ==> ToColumn(OfOptions(opts, wrap)) == wrap(Somes(opts))
  {
    NullPositionsExact(opts);
    if exists i :: 0 <= i < |opts| && opts[i].None? {
      var i :| 0 <= i < |opts| && opts[i].None?;
      assert i in NullPositions(opts);
    }
  }

  // ---------------------------------------------------------------------
  // try_into: back to a vector of options

  /** A present value. */
  function SomeOf<T>(v: T): Option<T>
  {
    Some(v)
  }

  /** try_into consulting `nulls` for the null positions: the inner column
      is converted (`unwrap` is the TryFrom<Column> for Vec<T>), every
      position takes None or the next value, and values left over are an
      error. */
  function TryIntoWith<T>(x: NullableColumn, unwrap: Column -> Result<seq<T>>, nulls: seq<nat>): Outcome<Result<seq<Option<T>>>>
  {
    var vals := unwrap(x.col);
    if vals.Err? then Returned(Err("Error performing conversion"))
    else
      var out := Interleave(MapSeq(SomeOf<T>, vals.value), nulls, x.n, None);
      if out.Panic? then Panic
      else if |vals.value| > x.n - Matched(nulls, x.n, 0, 0) then Returned(Err("Data vector not cleared"))
      else Returned(Ok(out.value))
  }

  /** try_into as written: the null list is swapped out before the loop,
      so the loop sees no nulls at all. */
  function TryIntoAsWritten<T>(x: NullableColumn, unwrap: Column -> Result<seq<T>>): Outcome<Result<seq<Option<T>>>>
  {
    TryIntoWith(x, unwrap, [])
  }

  /** Without nulls the value list is used up exactly once, position by position. */
  lemma {:induction false} GoNoNulls<T>(valid: seq<T>, n: nat, nul: T, i: nat)
    requires i <= n
    ensures |valid| < n && i < n ==> Go(valid, [], n, nul, i, 0).Panic?
    decreases n - i
  {
    if i < n {
      GoNoNulls(valid, n, nul, i + 1);
    }
  }

  /** As written, try_into panics on every column built from options that
      holds a None, once the inner column converts back. */
  lemma AsWrittenPanicsWithNulls<T>(opts: seq<Option<T>>, wrap: seq<T> -> Column, unwrap: Column -> Result<seq<T>>)
    requires unwrap(wrap(Somes(opts))) == Ok(Somes(opts))
    requires exists i :: 0 <= i < |opts| && opts[i].None?
    ensures TryIntoAsWritten(OfOptions(opts, wrap), unwrap) == Panic
  {
    var x := OfOptions(opts, wrap);
    FewerValues(opts);
    assert x.col == wrap(Somes(opts)) && x.n == |opts|;
    AsWrittenPanicsWhenShort(x, unwrap);
  }

  /** As written, try_into panics whenever the inner column holds fewer
      values than the column has positions. */
  lemma AsWrittenPanicsWhenShort<T>(x: NullableColumn, unwrap: Column -> Result<seq<T>>)
    requires unwrap(x.col).Ok? && |unwrap(x.col).value| < x.n
    ensures TryIntoAsWritten(x, unwrap) == Panic
  {
    var some := MapSeq(SomeOf<T>, unwrap(x.col).value);
    GoNoNulls(some, x.n, None, 0);
    assert Interleave(some, [], x.n, None).Panic?;
  }

  /** A sequence holding a None has fewer values than positions. */
  lemma FewerValues<T>(opts: seq<Option<T>>)
    requires exists i :: 0 <= i < |opts| && opts[i].None?
    ensures |Somes(opts)| < |opts|
  {
    var i :| 0 <= i < |opts| && opts[i].None?;
    NullPositionsExact(opts);
    assert i in NullPositions(opts);
    CountSum(opts);
  }

  /** The two agree when there are no nulls. */
  lemma AsWrittenWithoutNulls<T>(x: NullableColumn, unwrap: Column -> Result<seq<T>>)
    requires x.nullIx == []
    ensures TryIntoAsWritten(x, unwrap) == TryIntoWith(x, unwrap, x.nullIx)
  {
  }

  /** try_into consulting the column's own null list undoes building from options. */
  lemma TryIntoRoundTrip<T>(opts: seq<Option<T>>, wrap: seq<T> -> Column, unwrap: Column -> Result<seq<T>>)
    requires unwrap(wrap(Somes(opts))) == Ok(Somes(opts))
    ensures TryIntoWith(OfOptions(opts, wrap), unwrap, NullPositions(opts)) == Returned(Ok(opts))
  {
    InterleaveFill(opts, SomeOf<T>, None);
    CountSum(opts);
    assert Fill(opts, SomeOf<T>, None) == opts;
  }

  /** try_into with the null list kept: the inner column is converted, the
      loop consumes the values one position at a time, and values left over
      are an error; this runs TryIntoWith on the column's nulls. */
  method TryInto<T>(x: NullableColumn, unwrap: Column -> Result<seq<T>>) returns (r: Outcome<Result<seq<Option<T>>>>)
    ensures r == TryIntoWith(x, unwrap, x.nullIx)
  {
    var conv := unwrap(x.col);
    if conv.Err? {
      return Returned(Err("Error performing conversion"));
    }
    var out, rest := ConsumeValues(conv.value, x.nullIx, x.n);
    if out.Panic? {
      return Panic;
    }
    if |rest| > 0 {
      return Returned(Err("Data vector not cleared"));
    }
    return Returned(Ok(out.value));
  }

  /** The loop of try_into: every position below n takes None when it is
      the next null position, else the next value; `rest` holds the values
      not used. */
  method ConsumeValues<T>(orig: seq<T>, nullIx: seq<nat>, n: nat) returns (r: Outcome<seq<Option<T>>>, rest: seq<T>)
    ensures r == Interleave(MapSeq(SomeOf<T>, orig), nullIx, n, None)
    ensures r.Returned? ==> |rest| == |orig| - (n - Matched(nullIx, n, 0, 0))
  {
    ghost var some := MapSeq(SomeOf<T>, orig);
    var vals := orig;
    var out: seq<Option<T>> := [];
    var k := 0;
    var i := 0;
    PrependAllEmpty(Go(some, nullIx, n, None, 0, 0));
    while i < n
      invariant k <= i <= n
      invariant i - k <= |orig| && vals == orig[i - k..]
      invariant Go(some, nullIx, n, None, 0, 0) == PrependAll(out, Go(some, nullIx, n, None, i, k))
      invariant Matched(nullIx, n, 0, 0) == Matched(nullIx, n, i, k)
      decreases n - i
    {
      if k < |nullIx| && i == nullIx[k] {
        PrependAllOne(out, None, Go(some, nullIx, n, None, i + 1, k + 1));
        out := out + [None];
        k := k + 1;
      } else {
        if |vals| == 0 {
          return Panic, vals;
        }
        PrependAllOne(out, some[i - k], Go(some, nullIx, n, None, i + 1, k));
        out := out + [Some(vals[0])];
        vals := vals[1..];
      }
      i := i + 1;
    }
    assert out + [] == out;
    return Returned(out), vals;
  }

  // ---------------------------------------------------------------------
  // Truncation

  /** truncate as written: only the inner column is cut, the length n and
      the null positions stay. */
  function TruncateAsWritten(x: NullableColumn, m: nat): (r: NullableColumn)
    ensures r.n == x.n && r.nullIx == x.nullIx
  {
    x.(col := Truncate(x.col, m))
  }

  /** Cutting a nullable column of strings below its values makes
      display_content run out of values. */
  lemma TruncatedDisplayPanics(showReal: real -> string)
    ensures DisplayContent(Nullable(TruncateAsWritten(NullableColumn(Str(["a", "b"]), [0], 3), 1)), showReal) == Panic
  {
  }

  /** The leading entries below m of an ascending list. */
  function TakeBelow(s: seq<nat>, m: nat): (r: seq<nat>)
    ensures r <= s
    ensures forall x :: x in r ==> x < m
  {
    if |s| == 0 || s[0] >= m then [] else [s[0]] + TakeBelow(s[1..], m)
  }

  /** truncate keeping the first m positions: n becomes min(n, m), the
      nulls below it stay, and the inner column keeps the values before it. */
  function TruncateFixed(x: NullableColumn, m: nat): (r: NullableColumn)
    ensures r.n == Min(x.n, m) && r.nullIx <= x.nullIx
  {
    var m' := Min(x.n, m);
    var nulls := TakeBelow(x.nullIx, m');
    var values := if |nulls| <= m' then m' - |nulls| else 0;
    x.(col := Truncate(x.col, values), nullIx := nulls, n := m')
  }

  lemma {:induction false} TakeBelowAppend(a: seq<nat>, b: seq<nat>, m: nat)
    requires forall x :: x in a ==> x < m
    requires |b| > 0 ==> b[0] >= m
    ensures TakeBelow(a + b, m) == a
  {
    if |a| > 0 {
      assert (a + b)[1..] == a[1..] + b;
      assert forall x :: x in a[1..] ==> x in a;
      TakeBelowAppend(a[1..], b, m);
      assert a[0] in a && (a + b)[0] == a[0];
      assert [a[0]] + a[1..] == a;
    } else {
      assert a + b == b;
    }
  }

  /** The nulls after a prefix of length j all sit at j or later. */
  lemma {:induction false} NullsAfterPrefix<T>(o: seq<Option<T>>, j: nat)
    requires j <= |o|
    ensures NullPositions(o[..j]) <= NullPositions(o)
    ensures forall a :: |NullPositions(o[..j])| <= a < |NullPositions(o)| ==> NullPositions(o)[a] >= j
    decreases |o| - j
  {
    PrefixParts(o, j);
    if j < |o| {
      var p := o[..|o| - 1];
      assert p[..j] == o[..j];
      NullsAfterPrefix(p, j);
    } else {
      assert o[..j] == o;
    }
  }

  /** Truncating a column built from options, the intended way, is building
      from the first m options. */
  /** Truncation commutes with building a column of this kind. */
  ghost predicate TruncatesAsVector<T(!new)>(wrap: seq<T> -> Column)
  {
    forall v: seq<T>, j: nat :: j <= |v| ==> Truncate(wrap(v), j) == wrap(v[..j])
  }

  /** The null positions below m of all the options are those of the first m. */
  lemma NullsBelow<T>(opts: seq<Option<T>>, m: nat)
    requires m <= |opts|
    ensures TakeBelow(NullPositions(opts), m) == NullPositions(opts[..m])
  {
    var N := NullPositions(opts);
    var P := NullPositions(opts[..m]);
    NullsAfterPrefix(opts, m);
    NullsInRange(opts[..m]);
    var rest := N[|P|..];
    assert N == P + rest;
    assert |rest| > 0 ==> rest[0] == N[|P|] >= m;
    TakeBelowAppend(P, rest, m);
  }

  /** Every null position is a position of the sequence. */
  lemma NullsInRange<T>(o: seq<Option<T>>)
    ensures forall x :: x in NullPositions(o) ==> x < |o|
  {
    NullPositionsExact(o);
  }

  /** Truncating a column built from options, the intended way, is building
      from the first m options. */
  lemma TruncateFixedOfOptions<T(!new)>(opts: seq<Option<T>>, wrap: seq<T> -> Column, m: nat)
    requires m <= |opts|
    requires TruncatesAsVector(wrap)
    ensures TruncateFixed(OfOptions(opts, wrap), m) == OfOptions(opts[..m], wrap)
  {
    var P := NullPositions(opts[..m]);
    NullsBelow(opts, m);
    CountSum(opts[..m]);
    PrefixParts(opts, m);
    var j := m - |P|;
    assert Somes(opts[..m]) == Somes(opts)[..j];
    assert Truncate(wrap(Somes(opts)), j) == wrap(Somes(opts)[..j]);
  }

  /** The intended truncation keeps display_content working: it shows the
      first m entries of the original. */
  lemma TruncateFixedDisplay<T(!new)>(opts: seq<Option<T>>, wrap: seq<T> -> Column, show: T -> string, showReal: real -> string, m: nat)
    requires m <= |opts|
    requires TruncatesAsVector(wrap)
    requires !wrap(Somes(opts[..m])).Nullable?
    requires DisplayContent(wrap(Somes(opts[..m])), showReal) == Returned(MapSeq(show, Somes(opts[..m])))
    ensures DisplayContent(Nullable(TruncateFixed(OfOptions(opts, wrap), m)), showReal) == Returned(Fill(opts, show, "NULL")[..m])
  {
    TruncateFixedOfOptions(opts, wrap, m);
    DisplayOptions(opts[..m], wrap, show, showReal);
    assert Fill(opts[..m], show, "NULL") == Fill(opts, show, "NULL")[..m];
  }
}
