/** Reading function signatures out of Rust source: the function mode
    names, doc comments, argument and return types of one function item,
    and the walk over modules that collects every public function. The
    syntax tree is given as values (see Functions.Item); parsing the text
    into it is not modelled. */
module FnParsers {
  import opened Wrappers
  import opened Strs
  import opened SqlTypes
  import opened Functions
  import Utils

  // ---------------------------------------------------------------------
  // FunctionMode

  datatype FunctionMode = SimpleMode | AggregateMode | WindowMode | InvalidMode

  /** Display for FunctionMode. */
  function ModeName(m: FunctionMode): (r: string)
    ensures |r| >= 6
  {
    match m
    case SimpleMode => "Simple"
    case AggregateMode => "Aggregate"
    case WindowMode => "Window"
    case InvalidMode => "Invalid"
  }

  /** TryFrom<String> for FunctionMode: exactly the four names. */
  function ParseMode(s: string): (r: Option<FunctionMode>)
    ensures r.Some? ==> ModeName(r.value) == s
  {
    if s == "Simple" then Some(SimpleMode)
    else if s == "Aggregate" then Some(AggregateMode)
    else if s == "Window" then Some(WindowMode)
    else if s == "Invalid" then Some(InvalidMode)
    else None
  }

  /** Every mode's name reads back as that mode, and only the four names read. */
  lemma ModeRoundTrip(m: FunctionMode, s: string)
    ensures ParseMode(ModeName(m)) == Some(m)
    ensures ParseMode(s).Some? <==> s in {"Simple", "Aggregate", "Window", "Invalid"}
  {
  }

  // ---------------------------------------------------------------------
  // load_doc

  /** The tokens of the `doc` attributes, one after the other. */
  function DocText(attrs: seq<Attr>): (r: string)
  {
    if |attrs| == 0 then ""
    else
      var last := attrs[|attrs| - 1];
      DocText(attrs[..|attrs| - 1]) + (if last.ident == "doc" then last.tokens else "")
  }

  /** load_doc: quotes and '=' dropped, spaces trimmed at both ends, broken
      into lines of 45 characters; empty text is no doc. */
  function DocOf(attrs: seq<Attr>): (r: Option<string>)
  {
    var d := TrimChar(Remove(DocText(attrs), {'"', '='}), ' ');
    var b := Utils.Broken(d, 45);
    if |b| == 0 then None else Some(b)
  }

  /** load_doc, attribute by attribute. */
  method LoadDoc(f: ItemFn) returns (doc: Option<string>)
    ensures doc == DocOf(f.attrs)
  {
    var content := "";
    var i := 0;
    while i < |f.attrs|
      invariant 0 <= i <= |f.attrs|
      invariant content == DocText(f.attrs[..i])
    {
      assert f.attrs[..i + 1][..i] == f.attrs[..i];
      if f.attrs[i].ident == "doc" {
        content := content + f.attrs[i].tokens;
      } else {
        content := content + "";
      }
      i := i + 1;
    }
    assert f.attrs[..i] == f.attrs;
    content := Remove(content, {'"', '='});
    content := TrimChar(content, ' ');
    var broken := Utils.BreakString(content, 45);
    if |broken.value| == 0 {
      return None;
    }
    return Some(broken.value);
  }

  /** A doc holds no quote or '=', starts and ends with no space, and is
      no longer than the attribute text; it is absent exactly when nothing
      is left after dropping and trimming. */
  lemma DocClean(attrs: seq<Attr>)
    ensures DocOf(attrs).Some? ==>
      var v := DocOf(attrs).value;
      '"' !in v && '=' !in v && v[0] != ' ' && v[|v| - 1] != ' ' && |v| <= |DocText(attrs)|
    ensures DocOf(attrs).None? <==> TrimChar(Remove(DocText(attrs), {'"', '='}), ' ') == []
  {
    var e := Remove(DocText(attrs), {'"', '='});
    var d := TrimChar(e, ' ');
    TrimCharKeeps(e, ' ');
    if DocOf(attrs).Some? {
      var v := DocOf(attrs).value;
      forall x | x in v
        ensures x != '"' && x != '='
      {
        var i :| 0 <= i < |v| && v[i] == x;
        assert v[i] == d[i] || v[i] == '\n';
        assert d[i] in d;
      }
    }
  }

  /** Trimming keeps only characters of the text. */
  lemma {:induction false} TrimCharKeeps(s: string, c: char)
    ensures forall x :: x in TrimChar(s, c) ==> x in s
    decreases |s|
  {
    if s != [] && s[0] == c {
      TrimCharKeeps(s[1..], c);
    } else if s != [] && s[|s| - 1] == c {
      TrimCharKeeps(s[..|s| - 1], c);
    }
  }

  /** A function without doc attributes has no doc. */
  lemma {:induction false} NoDocAttrs(attrs: seq<Attr>)
    requires forall k :: 0 <= k < |attrs| ==> attrs[k].ident != "doc"
    ensures DocText(attrs) == "" && DocOf(attrs).None?
  {
    if |attrs| > 0 {
      NoDocAttrs(attrs[..|attrs| - 1]);
    }
  }

  // ---------------------------------------------------------------------
  // Argument types

  /** The type texts of the typed inputs; a receiver (`self`) has none. */
  function TypedTexts(inputs: seq<FnArg>): (r: seq<string>)
    ensures |r| <= |inputs|
  {
    if |inputs| == 0 then []
    else
      var last := inputs[|inputs| - 1];
      TypedTexts(inputs[..|inputs| - 1]) + (if last.Typed? then [last.tyText] else [])
  }

  function ArgErr(name: string, ty: string): string
  {
    "Invalid argument type for function " + name + ": " + ty
  }

  /** The argument types of function_signature, in order; the first typed
      input whose text names no type fails. */
  function ArgTypes(name: string, inputs: seq<FnArg>): (r: Result<seq<SqlType>>)
  {
    if |inputs| == 0 then Ok([])
    else
      var prev := ArgTypes(name, inputs[..|inputs| - 1]);
      var last := inputs[|inputs| - 1];
      if prev.Err? then prev
      else if last.Receiver? then prev
      else
        match ParseType(last.tyText)
        case None => Err(ArgErr(name, last.tyText))
        case Some(t) => Ok(prev.value + [t])
  }

  /** Every text names one of the five types. */
  predicate AllTypes(tt: seq<string>)
  {
    forall k :: 0 <= k < |tt| ==> ParseType(tt[k]).Some?
  }

  /** The argument types are read exactly when every typed input names a
      type, and then they are those types, in order. */
  lemma {:induction false} ArgTypesOk(name: string, inputs: seq<FnArg>)
    ensures ArgTypes(name, inputs).Ok? <==> AllTypes(TypedTexts(inputs))
    ensures ArgTypes(name, inputs).Ok? ==> TypeNames(ArgTypes(name, inputs).value) == TypedTexts(inputs)
  {
    if |inputs| > 0 {
      var init := inputs[..|inputs| - 1];
      var last := inputs[|inputs| - 1];
      ArgTypesOk(name, init);
      var pt := TypedTexts(init);
      var tt := TypedTexts(inputs);
      var prev := ArgTypes(name, init);
      if last.Receiver? {
        assert tt == pt;
      } else {
        assert tt == pt + [last.tyText];
        assert forall k :: 0 <= k < |pt| ==> tt[k] == pt[k];
        var t := ParseType(last.tyText);
        if prev.Ok? && t.Some? {
          assert TypeNames(prev.value + [t.value]) == TypeNames(prev.value) + [TypeName(t.value)];
        } else if prev.Ok? {
          assert ParseType(tt[|pt|]).None?;
        } else {
          assert !AllTypes(pt);
        }
      }
    }
  }

  /** Position k holds the first text that names no type. */
  predicate FirstUntyped(tt: seq<string>, k: int)
  {
    0 <= k < |tt| && ParseType(tt[k]).None? && forall j :: 0 <= j < k ==> ParseType(tt[j]).Some?
  }

  /** When the argument types are not read, the error names the first
      typed input that names no type. */
  lemma {:induction false} ArgTypesFirstErr(name: string, inputs: seq<FnArg>)
    ensures ArgTypes(name, inputs).Err? ==>
      exists k :: FirstUntyped(TypedTexts(inputs), k) && ArgTypes(name, inputs).msg == ArgErr(name, TypedTexts(inputs)[k])
  {
    if |inputs| > 0 {
      var init := inputs[..|inputs| - 1];
      var last := inputs[|inputs| - 1];
      ArgTypesFirstErr(name, init);
      var pt := TypedTexts(init);
      var tt := TypedTexts(inputs);
      var prev := ArgTypes(name, init);
      if last.Receiver? {
        assert tt == pt;
      } else {
        assert tt == pt + [last.tyText];
        assert forall k :: 0 <= k < |pt| ==> tt[k] == pt[k];
        if prev.Err? {
          var k :| FirstUntyped(pt, k) && prev.msg == ArgErr(name, pt[k]);
          assert FirstUntyped(tt, k);
        } else if ParseType(last.tyText).None? {
          ArgTypesOk(name, init);
          assert tt[|pt|] == last.tyText;
          assert FirstUntyped(tt, |pt|);
        }
      }
    }
  }

  /** Once a prefix of the inputs fails, the whole list fails the same way. */
  lemma {:induction false} ArgErrSticks(name: string, inputs: seq<FnArg>, j: nat)
    requires j <= |inputs| && ArgTypes(name, inputs[..j]).Err?
    ensures ArgTypes(name, inputs) == ArgTypes(name, inputs[..j])
    decreases |inputs| - j
  {
    if j < |inputs| {
      assert inputs[..j + 1][..j] == inputs[..j];
      ArgErrSticks(name, inputs, j + 1);
    } else {
      assert inputs[..j] == inputs;
    }
  }

  // ---------------------------------------------------------------------
  // Return type

  const ResultErr := "Return type must be Result<T,String> for T a String, f64, i64 or Vec<u8>"
  const ReturnSeps: set<char> := {'<', '>', ','}

  /** The text before the first '<' is `Result`, up to spaces. */
  predicate IsResult(ty: string)
  {
    Trim(Split(ty, '<')[0]) == "Result"
  }

  /** The text after the first ',' (up to the next) is `String >`, up to spaces. */
  predicate IsErrString(ty: string)
  {
    |Split(ty, ',')| >= 2 && Trim(Split(ty, ',')[1]) == "String >"
  }

  /** The second piece when cutting at '<', '>' and ','. */
  function InnerText(ty: string): (r: string)
    requires IsErrString(ty)
  {
    SplitCommaCount(ty);
    SplitBy(ty, ReturnSeps)[1]
  }

  /** The return type of function_signature, as written: the inner piece
      is read without trimming it. */
  function ReturnTypeAsWritten(name: string, output: Option<string>): (r: Result<SqlType>)
    ensures r.Ok? ==> output.Some? && IsResult(output.value) && IsErrString(output.value) && TypeName(r.value) == InnerText(output.value)
  {
    match output
    case None => Err("Invalid return type")
    case Some(ty) =>
      if !IsResult(ty) || !IsErrString(ty) then Err(ResultErr)
      else
        match ParseType(InnerText(ty))
        case None => Err("Invalid return type for function " + name + ": " + ty)
        case Some(t) => Ok(t)
  }

  /** The return type with the inner piece trimmed, which is how the token
      text of `Result<T, String>` has to be read. */
  function ReturnType(name: string, output: Option<string>): (r: Result<SqlType>)
    ensures r.Ok? ==> output.Some? && IsResult(output.value) && IsErrString(output.value) && TypeName(r.value) == Trim(InnerText(output.value))
  {
    match output
    case None => Err("Invalid return type")
    case Some(ty) =>
      if !IsResult(ty) || !IsErrString(ty) then Err(ResultErr)
      else
        match ParseType(Trim(InnerText(ty)))
        case None => Err("Invalid return type for function " + name + ": " + ty)
        case Some(t) => Ok(t)
  }

  predicate Avoids(s: string, seps: set<char>)
  {
    forall x :: x in s ==> x !in seps
  }

  lemma SplitWhole(a: string, seps: set<char>)
    requires Avoids(a, seps)
    ensures SplitBy(a, seps) == [a]
  {
    assert forall i :: 0 <= i < |a| ==> a[i] in a;
    SplitByPrefix(a, "", seps);
    assert a + "" == a;
  }

  lemma SplitAfter(a: string, c: char, s: string, seps: set<char>)
    requires Avoids(a, seps) && c in seps
    ensures SplitBy(a + [c] + s, seps) == [a] + SplitBy(s, seps)
  {
    assert forall i :: 0 <= i < |a| ==> a[i] in a;
    SplitByPrefix(a, [c] + s, seps);
    assert a + [c] + s == a + ([c] + s);
    assert ([c] + s)[1..] == s;
    assert a + "" == a;
  }

  /** A separator in the text gives at least two pieces. */
  lemma {:induction false} SplitByMany(s: string, seps: set<char>, i: nat)
    requires i < |s| && s[i] in seps
    ensures |SplitBy(s, seps)| >= 2
  {
    if s[0] !in seps {
      SplitByMany(s[1..], seps, i - 1);
    }
  }

  /** Two pieces at ',' mean two pieces at '<', '>' and ','. */
  lemma SplitCommaCount(ty: string)
    requires |Split(ty, ',')| >= 2
    ensures |SplitBy(ty, ReturnSeps)| >= 2
  {
    if Avoids(ty, {','}) {
      SplitWhole(ty, {','});
    } else {
      var i :| 0 <= i < |ty| && ty[i] == ',';
      SplitByMany(ty, ReturnSeps, i);
    }
  }

  lemma TrimPadded(t: string)
    requires Ident(t)
    ensures Trim(" " + t + " ") == t && Trim(t) == t
  {
    assert t[0] in t && t[|t| - 1] in t;
    TrimPaddedWord(t);
  }

  /** A word with no space at either end loses exactly the padding around it. */
  lemma TrimPaddedWord(t: string)
    requires |t| > 0 && !IsSpace(t[0]) && !IsSpace(t[|t| - 1])
    ensures Trim(" " + t + " ") == t && Trim(t) == t
  {
    var p := " " + t + " ";
    assert p[0] == ' ' && p[1..] == t + " ";
    assert (t + " ")[0] == t[0];
    assert TrimStart(t + " ") == t + " ";
    assert (t + " ")[..|t|] == t;
    assert TrimEnd(t + " ") == TrimEnd(t);
  }

  /** The token text `Result < T , String >` cut at '<'. */
  lemma TokenFormAngle(t: string)
    requires Ident(t)
    ensures Split("Result < " + t + " , String >", '<') == ["Result ", " " + t + " , String >"]
  {
    var rest := " " + t + " , String >";
    assert "Result < " + t + " , String >" == "Result " + ['<'] + rest;
    assert Avoids("Result ", {'<'});
    assert Avoids(rest, {'<'});
    SplitAfter("Result ", '<', rest, {'<'});
    SplitWhole(rest, {'<'});
  }

  /** The token text `Result < T , String >` cut at ','. */
  lemma TokenFormComma(t: string)
    requires Ident(t)
    ensures Split("Result < " + t + " , String >", ',') == ["Result < " + t + " ", " String >"]
  {
    var head := "Result < " + t + " ";
    assert "Result < " + t + " , String >" == head + [','] + " String >";
    assert Avoids(head, {','});
    assert Avoids(" String >", {','});
    SplitAfter(head, ',', " String >", {','});
    SplitWhole(" String >", {','});
  }

  /** The token text `Result < T , String >` cut at '<', '>' and ','. */
  lemma TokenFormInner(t: string)
    requires Ident(t)
    ensures SplitBy("Result < " + t + " , String >", ReturnSeps) == ["Result ", " " + t + " ", " String ", ""]
  {
    var inner := " " + t + " ";
    var tail := " String " + ['>'] + "";
    assert "Result < " + t + " , String >" == "Result " + ['<'] + (inner + [','] + tail);
    assert Avoids("Result ", ReturnSeps);
    assert Avoids(inner, ReturnSeps);
    assert Avoids(" String ", ReturnSeps);
    SplitAfter("Result ", '<', inner + [','] + tail, ReturnSeps);
    SplitAfter(inner, ',', tail, ReturnSeps);
    SplitAfter(" String ", '>', "", ReturnSeps);
  }

  /** One space on either side of a text without spaces at its ends is trimmed. */
  lemma TrimOneSpace(s: string)
    requires |s| > 0 && !IsSpace(s[0]) && !IsSpace(s[|s| - 1])
    ensures Trim(s + " ") == s && Trim(" " + s) == s && Trim(s) == s
  {
    assert (s + " ")[0] == s[0];
    assert TrimStart(s + " ") == s + " ";
    assert (s + " ")[..|s|] == s;
    assert TrimEnd(s + " ") == TrimEnd(s);
    assert (" " + s)[1..] == s;
    assert TrimStart(" " + s) == TrimStart(s);
  }

  lemma TrimResultWord(h: string, w: string)
    requires h == "Result " && w == "Result"
    ensures Trim(h) == w
  {
    assert h == w + " ";
    TrimOneSpace(w);
  }

  lemma TrimStringWord(e: string, w: string)
    requires e == " String >" && w == "String >"
    ensures Trim(e) == w
  {
    assert e == " " + w;
    TrimOneSpace(w);
  }

  lemma TokenFormIsResult(t: string)
    requires Ident(t)
    ensures IsResult("Result < " + t + " , String >")
  {
    TokenFormAngle(t);
    TrimResultWord(Split("Result < " + t + " , String >", '<')[0], "Result");
  }

  lemma TokenFormIsErr(t: string)
    requires Ident(t)
    ensures IsErrString("Result < " + t + " , String >")
  {
    TokenFormComma(t);
    TrimStringWord(Split("Result < " + t + " , String >", ',')[1], "String >");
  }

  /** The token text of `Result<T, String>` passes both checks and leaves
      the type with a space on each side as the inner piece. */
  lemma TokenFormChecks(t: string)
    requires Ident(t)
    ensures var ty := "Result < " + t + " , String >";
      IsResult(ty) && IsErrString(ty) && InnerText(ty) == " " + t + " "
  {
    TokenFormIsResult(t);
    TokenFormIsErr(t);
    TokenFormInner(t);
  }

  /** As written, the token text of `Result<T, String>` is refused: its
      inner piece keeps the spaces around the type. */
  lemma TokenFormRefusedAsWritten(name: string, t: SqlType)
    ensures var ty := "Result < " + TypeName(t) + " , String >";
      ReturnTypeAsWritten(name, Some(ty)) == Err("Invalid return type for function " + name + ": " + ty)
  {
    var tn := TypeName(t);
    TypeNameChars(t);
    TokenFormChecks(tn);
    var inner := " " + tn + " ";
    assert |inner| == |tn| + 2;
    assert ParseType(inner).None?;
  }

  /** Trimming the inner piece reads the token text of `Result<T, String>`
      as T, for each of the five types. */
  lemma TokenFormRead(name: string, t: SqlType)
    ensures ReturnType(name, Some("Result < " + TypeName(t) + " , String >")) == Ok(t)
  {
    var tn := TypeName(t);
    TypeNameChars(t);
    TokenFormChecks(tn);
    TrimPadded(tn);
    TypeNameRoundTrip(t, "");
    assert ParseType(Trim(" " + tn + " ")) == Some(t);
  }

  /** A return type without '<' other than `Result` itself is refused. */
  lemma PlainTextRefused(name: string, ty: string)
    requires Ident(ty) && ty != "Result"
    ensures ReturnType(name, Some(ty)) == Err(ResultErr)
    ensures ReturnTypeAsWritten(name, Some(ty)) == Err(ResultErr)
  {
    SplitWhole(ty, {'<'});
    assert Split(ty, '<')[0] == ty;
    assert ty[0] in ty && ty[|ty| - 1] in ty;
    TrimOneSpace(ty);
    assert !IsResult(ty);
  }

  /** The element types of the registry are refused as return types: they
      are not a `Result`. */
  lemma PlainTypeRefused(name: string, t: SqlType)
    ensures ReturnType(name, Some(TypeName(t))) == Err(ResultErr)
    ensures ReturnTypeAsWritten(name, Some(TypeName(t))) == Err(ResultErr)
  {
    TypeNameChars(t);
    assert TypeName(t) != "Result";
    PlainTextRefused(name, TypeName(t));
  }

  /** A function without a return type is refused. */
  lemma NoOutputRefused(name: string)
    ensures ReturnType(name, None) == Err("Invalid return type")
    ensures ReturnTypeAsWritten(name, None) == Err("Invalid return type")
  {
  }

  // ---------------------------------------------------------------------
  // function_signature

  /** function_signature: argument types, then the return type, then the
      function with its doc. */
  function SignatureOf(f: ItemFn): (r: Result<Function>)
    ensures r.Ok? ==> r.value.name == f.name && r.value.doc == DocOf(f.attrs) && !r.value.varArg
  {
    match ArgTypes(f.name, f.inputs)
    case Err(e) => Err(e)
    case Ok(args) =>
      match ReturnType(f.name, f.output)
      case Err(e) => Err(e)
      case Ok(ret) => Ok(Function(f.name, args, ret, DocOf(f.attrs), false))
  }

  /** A signature is read exactly when the argument and return types are,
      and carries them. */
  lemma SignatureOfMeaning(f: ItemFn)
    ensures SignatureOf(f).Ok? <==> ArgTypes(f.name, f.inputs).Ok? && ReturnType(f.name, f.output).Ok?
    ensures SignatureOf(f).Ok? ==>
      TypeNames(SignatureOf(f).value.args) == TypedTexts(f.inputs) && SignatureOf(f).value.ret == ReturnType(f.name, f.output).value
  {
    ArgTypesOk(f.name, f.inputs);
  }

  /** function_signature. */
  method FunctionSignature(f: ItemFn) returns (r: Result<Function>)
    ensures r == SignatureOf(f)
  {
    var args := ReadArgTypes(f.name, f.inputs);
    if args.Err? {
      return Err(args.msg);
    }
    var doc := LoadDoc(f);
    var ret := ReadReturnType(f.name, f.output);
    if ret.Err? {
      return Err(ret.msg);
    }
    return Ok(Function(f.name, args.value, ret.value, doc, false));
  }

  /** The argument loop of function_signature. */
  method ReadArgTypes(name: string, inputs: seq<FnArg>) returns (r: Result<seq<SqlType>>)
    ensures r == ArgTypes(name, inputs)
  {
    var args: seq<SqlType> := [];
    var i := 0;
    while i < |inputs|
      invariant 0 <= i <= |inputs|
      invariant ArgTypes(name, inputs[..i]) == Ok(args)
    {
      assert inputs[..i + 1][..i] == inputs[..i];
      match inputs[i] {
        case Typed(tyText) =>
          var ty := ParseType(tyText);
          if ty.None? {
            ArgErrSticks(name, inputs, i + 1);
            return Err(ArgErr(name, tyText));
          }
          args := args + [ty.value];
        case Receiver =>
      }
      i := i + 1;
    }
    assert inputs[..i] == inputs;
    return Ok(args);
  }

  /** The return-type checks of function_signature. */
  method ReadReturnType(name: string, output: Option<string>) returns (r: Result<SqlType>)
    ensures r == ReturnType(name, output)
  {
    match output {
      case None =>
        return Err("Invalid return type");
      case Some(ty) =>
        var isResult := Trim(Split(ty, '<')[0]) == "Result";
        var commaPieces := Split(ty, ',');
        var isErr := |commaPieces| >= 2 && Trim(commaPieces[1]) == "String >";
        if !isResult || !isErr {
          return Err(ResultErr);
        }
        SplitCommaCount(ty);
        var inner := Trim(SplitBy(ty, ReturnSeps)[1]);
        var ret := ParseType(inner);
        if ret.None? {
          return Err("Invalid return type for function " + name + ": " + ty);
        }
        return Ok(ret.value);
    }
  }

  // ---------------------------------------------------------------------
  // Collecting the signatures of many functions

  /** Two results in order: the first error wins, otherwise the lists join. */
  function Then(a: Result<seq<Function>>, b: Result<seq<Function>>): Result<seq<Function>>
  {
    if a.Err? then a else if b.Err? then b else Ok(a.value + b.value)
  }

  lemma ThenAssoc(a: Result<seq<Function>>, b: Result<seq<Function>>, c: Result<seq<Function>>)
    ensures Then(Then(a, b), c) == Then(a, Then(b, c))
  {
    if a.Ok? && b.Ok? && c.Ok? {
      assert a.value + b.value + c.value == a.value + (b.value + c.value);
    }
  }

  lemma ThenOkEmpty(x: Result<seq<Function>>)
    ensures Then(Ok([]), x) == x
  {
    if x.Ok? {
      assert [] + x.value == x.value;
    }
  }

  function Single(r: Result<Function>): Result<seq<Function>>
  {
    if r.Err? then Err(r.msg) else Ok([r.value])
  }

  /** Results collected in order; the first error fails the collection. */
  function Collect(rs: seq<Result<Function>>): Result<seq<Function>>
  {
    if |rs| == 0 then Ok([]) else Then(Single(rs[0]), Collect(rs[1..]))
  }

  lemma {:induction false} CollectAppend(a: seq<Result<Function>>, b: seq<Result<Function>>)
    ensures Collect(a + b) == Then(Collect(a), Collect(b))
  {
    if |a| == 0 {
      assert a + b == b;
      ThenOkEmpty(Collect(b));
    } else {
      assert (a + b)[0] == a[0] && (a + b)[1..] == a[1..] + b;
      CollectAppend(a[1..], b);
      ThenAssoc(Single(a[0]), Collect(a[1..]), Collect(b));
    }
  }

  /** A collection succeeds exactly when every result does, and then holds
      their values in order. */
  lemma {:induction false} CollectOk(rs: seq<Result<Function>>)
    ensures Collect(rs).Ok? <==> forall k :: 0 <= k < |rs| ==> rs[k].Ok?
    ensures Collect(rs).Ok? ==>
      |Collect(rs).value| == |rs| && forall k :: 0 <= k < |rs| ==> Collect(rs).value[k] == rs[k].value
  {
    if |rs| > 0 {
      CollectOk(rs[1..]);
      assert forall k :: 1 <= k < |rs| ==> rs[k] == rs[1..][k - 1];
    }
  }

  /** A collection that fails carries the error of its first failing result. */
  lemma {:induction false} CollectFirstErr(rs: seq<Result<Function>>)
    ensures Collect(rs).Err? ==>
      exists k :: 0 <= k < |rs| && rs[k].Err?
        && (forall j :: 0 <= j < k ==> rs[j].Ok?)
        && Collect(rs).msg == rs[k].msg
  {
    if |rs| > 0 && rs[0].Ok? && Collect(rs[1..]).Err? {
      CollectFirstErr(rs[1..]);
      var k :| 0 <= k < |rs[1..]| && rs[1..][k].Err?
        && (forall j :: 0 <= j < k ==> rs[1..][j].Ok?)
        && Collect(rs[1..]).msg == rs[1..][k].msg;
      assert rs[k + 1] == rs[1..][k];
      assert forall j :: 1 <= j < k + 1 ==> rs[j] == rs[1..][j - 1];
    }
  }

  /** The signature of each function item, in order. */
  function SigResults(fs: seq<ItemFn>): (r: seq<Result<Function>>)
    ensures |r| == |fs| && forall k :: 0 <= k < |fs| ==> r[k] == SignatureOf(fs[k])
  {
    seq(|fs|, k requires 0 <= k < |fs| => SignatureOf(fs[k]))
  }

  /** The signatures of function items, in order; the first that fails
      fails them all. */
  function Signatures(fs: seq<ItemFn>): Result<seq<Function>>
  {
    Collect(SigResults(fs))
  }

  lemma SignaturesAppend(a: seq<ItemFn>, b: seq<ItemFn>)
    ensures Signatures(a + b) == Then(Signatures(a), Signatures(b))
  {
    assert SigResults(a + b) == SigResults(a) + SigResults(b);
    CollectAppend(SigResults(a), SigResults(b));
  }

  lemma SignaturesOne(f: ItemFn)
    ensures Signatures([f]) == Single(SignatureOf(f))
  {
    assert SigResults([f]) == [SignatureOf(f)];
    CollectOne(SignatureOf(f));
  }

  lemma CollectOne(x: Result<Function>)
    ensures Collect([x]) == Single(x)
  {
    assert [x][1..] == [];
    if x.Ok? {
      assert [x.value] + [] == [x.value];
    }
  }

  // ---------------------------------------------------------------------
  // parse_top_level_funcs and read_funcs_at_toplevel

  /** The public functions among the items, in order. */
  function PublicFns(items: seq<Item>): (r: seq<ItemFn>)
    ensures forall k :: 0 <= k < |r| ==> r[k].public
  {
    if |items| == 0 then []
    else (if items[0].FnItem? && items[0].f.public then [items[0].f] else []) + PublicFns(items[1..])
  }

  /** One top-level item: a public function gives its signature, anything
      else nothing. */
  function TopStep(item: Item): Result<seq<Function>>
  {
    if item.FnItem? && item.f.public then Single(SignatureOf(item.f)) else Ok([])
  }

  /** parse_top_level_funcs once the text is parsed into items. */
  function TopLevelSpec(items: seq<Item>): Result<seq<Function>>
  {
    if |items| == 0 then Ok([]) else Then(TopStep(items[0]), TopLevelSpec(items[1..]))
  }

  /** parse_top_level_funcs reads the signatures of the public top-level
      functions, and only those. */
  lemma {:induction false} TopLevelReference(items: seq<Item>)
    ensures TopLevelSpec(items) == Signatures(PublicFns(items))
  {
    if |items| > 0 {
      TopLevelReference(items[1..]);
      var head := if items[0].FnItem? && items[0].f.public then [items[0].f] else [];
      SignaturesAppend(head, PublicFns(items[1..]));
      if head == [] {
        assert SigResults(head) == [];
        ThenOkEmpty(TopLevelSpec(items[1..]));
      } else {
        SignaturesOne(items[0].f);
      }
    }
  }

  /** parse_top_level_funcs: a parse error is returned as it is; otherwise
      the public top-level functions are read in order. */
  method ParseTopLevelFuncs(parsed: Result<seq<Item>>) returns (r: Result<seq<Function>>)
    ensures parsed.Err? ==> r == Err(parsed.msg)
    ensures parsed.Ok? ==> r == TopLevelSpec(parsed.value)
  {
    if parsed.Err? {
      return Err(parsed.msg);
    }
    var items := parsed.value;
    var sigs: seq<Function> := [];
    var i := 0;
    assert items[0..] == items;
    ThenOkEmpty(TopLevelSpec(items[0..]));
    while i < |items|
      invariant 0 <= i <= |items|
      invariant TopLevelSpec(items) == Then(Ok(sigs), TopLevelSpec(items[i..]))
    {
      match items[i] {
        case FnItem(f) =>
          if f.public {
            var sig := FunctionSignature(f);
            TopLoopStep(items, i, sigs, Single(sig));
            if sig.Err? {
              return Err(sig.msg);
            }
            sigs := sigs + [sig.value];
          } else {
            TopLoopStep(items, i, sigs, Ok([]));
            assert sigs + [] == sigs;
          }
        case _ =>
          TopLoopStep(items, i, sigs, Ok([]));
          assert sigs + [] == sigs;
      }
      i := i + 1;
    }
    assert TopLevelSpec(items[i..]) == Ok([]) && sigs + [] == sigs;
    return Ok(sigs);
  }

  /** One item of parse_top_level_funcs: a failure ends the read with its
      error, a success adds its functions. */
  lemma TopLoopStep(items: seq<Item>, i: nat, sigs: seq<Function>, step: Result<seq<Function>>)
    requires i < |items| && step == TopStep(items[i])
    requires TopLevelSpec(items) == Then(Ok(sigs), TopLevelSpec(items[i..]))
    ensures step.Err? ==> TopLevelSpec(items) == Err(step.msg)
    ensures step.Ok? ==> TopLevelSpec(items) == Then(Ok(sigs + step.value), TopLevelSpec(items[i + 1..]))
  {
    assert items[i..][0] == items[i] && items[i..][1..] == items[i + 1..];
    ThenAssoc(Ok(sigs), step, TopLevelSpec(items[i + 1..]));
  }

  /** TryFrom<ItemFn> for Function: only a public function is read. */
  function FunctionFromItemFn(f: ItemFn): (r: Result<Function>)
    ensures !f.public ==> r == Err("Function does not have public visibility")
    ensures f.public ==> r == SignatureOf(f)
  {
    if f.public then SignatureOf(f) else Err("Function does not have public visibility")
  }

  /** TryFrom<ItemFn> for Function, as a call. */
  method TryFromItemFn(f: ItemFn) returns (r: Result<Function>)
    ensures r == FunctionFromItemFn(f)
  {
    if f.public {
      r := FunctionSignature(f);
    } else {
      r := Err("Function does not have public visibility");
    }
  }

  /** One item read by read_funcs_at_toplevel: every function, public or not. */
  function ReadStep(item: Item): Result<seq<Function>>
  {
    if item.FnItem? then Single(FunctionFromItemFn(item.f)) else Ok([])
  }

  function ReadSpec(items: seq<Item>): Result<seq<Function>>
  {
    if |items| == 0 then Ok([]) else Then(ReadStep(items[0]), ReadSpec(items[1..]))
  }

  predicate AllFnsPublic(items: seq<Item>)
  {
    forall k :: 0 <= k < |items| && items[k].FnItem? ==> items[k].f.public
  }

  /** read_funcs_at_toplevel succeeds only when every function is public,
      and then reads what parse_top_level_funcs reads; with every function
      public the two agree outright. */
  lemma {:induction false} ReadFuncsReference(items: seq<Item>)
    ensures ReadSpec(items).Ok? ==> AllFnsPublic(items)
    ensures AllFnsPublic(items) ==> ReadSpec(items) == TopLevelSpec(items)
  {
    if |items| > 0 {
      ReadFuncsReference(items[1..]);
      assert forall k :: 1 <= k < |items| ==> items[k] == items[1..][k - 1];
      if AllFnsPublic(items) {
        assert AllFnsPublic(items[1..]);
      }
    }
  }

  /** read_funcs_at_toplevel, item by item. */
  method ReadFuncsAtToplevel(items: seq<Item>) returns (r: Result<seq<Function>>)
    ensures r == ReadSpec(items)
  {
    var funcs: seq<Function> := [];
    var i := 0;
    assert items[0..] == items;
    ThenOkEmpty(ReadSpec(items[0..]));
    while i < |items|
      invariant 0 <= i <= |items|
      invariant ReadSpec(items) == Then(Ok(funcs), ReadSpec(items[i..]))
    {
      match items[i] {
        case FnItem(f) =>
          var g := TryFromItemFn(f);
          ReadLoopStep(items, i, funcs, Single(g));
          if g.Err? {
            return Err(g.msg);
          }
          funcs := funcs + [g.value];
        case _ =>
          ReadLoopStep(items, i, funcs, Ok([]));
          assert funcs + [] == funcs;
      }
      i := i + 1;
    }
    assert ReadSpec(items[i..]) == Ok([]) && funcs + [] == funcs;
    return Ok(funcs);
  }

  /** One item of read_funcs_at_toplevel: a failure ends the read with its
      error, a success adds its functions. */
  lemma ReadLoopStep(items: seq<Item>, i: nat, funcs: seq<Function>, step: Result<seq<Function>>)
    requires i < |items| && step == ReadStep(items[i])
    requires ReadSpec(items) == Then(Ok(funcs), ReadSpec(items[i..]))
    ensures step.Err? ==> ReadSpec(items) == Err(step.msg)
    ensures step.Ok? ==> ReadSpec(items) == Then(Ok(funcs + step.value), ReadSpec(items[i + 1..]))
  {
    assert items[i..][0] == items[i] && items[i..][1..] == items[i + 1..];
    ThenAssoc(Ok(funcs), step, ReadSpec(items[i + 1..]));
  }

  // ---------------------------------------------------------------------
  // parse_fn_or_mod, parse_mod_signature and parse_nested_signatures

  /** parse_fn_or_mod: a public module gives the signatures of its
      content, a public function its own, anything else nothing. */
  function FnOrModSpec(item: Item): Result<seq<Function>>
    decreases item, 2
  {
    match item
    case ModItem(_, public, _, _) => if public then ModSpec(item) else Ok([])
    case FnItem(f) => if f.public then Single(SignatureOf(f)) else Ok([])
    case OtherItem => Ok([])
  }

  /** parse_mod_signature: the items of the inline content in order; a
      module without inline content gives nothing. */
  function ModSpec(m: Item): Result<seq<Function>>
    requires m.ModItem?
    decreases m, 1
  {
    if m.inline then ItemsBelow(m); ItemsSpec(m.items, m) else Ok([])
  }

  function ItemsSpec(items: seq<Item>, ghost parent: Item): Result<seq<Function>>
    requires forall k :: 0 <= k < |items| ==> items[k] < parent
    decreases parent, 0, |items|
  {
    if |items| == 0 then Ok([]) else Then(FnOrModSpec(items[0]), ItemsSpec(items[1..], parent))
  }

  /** The public functions reached from an item through public modules with
      inline content, depth first and in source order. */
  function NestedFns(item: Item): seq<ItemFn>
    decreases item, 1
  {
    match item
    case ModItem(_, public, inline, items) =>
      if public && inline then ItemsBelow(item); NestedFnsIn(items, item) else []
    case FnItem(f) => if f.public then [f] else []
    case OtherItem => []
  }

  function NestedFnsIn(items: seq<Item>, ghost parent: Item): seq<ItemFn>
    requires forall k :: 0 <= k < |items| ==> items[k] < parent
    decreases parent, 0, |items|
  {
    if |items| == 0 then [] else NestedFns(items[0]) + NestedFnsIn(items[1..], parent)
  }

  /** parse_fn_or_mod reads the signatures of exactly the public functions
      reached through public modules, in depth-first order. */
  lemma {:induction false} NestedReference(item: Item)
    ensures FnOrModSpec(item) == Signatures(NestedFns(item))
    decreases item, 1
  {
    match item
    case ModItem(_, public, inline, items) =>
      ItemsBelow(item);
      if public && inline {
        NestedReferenceIn(items, item);
      }
    case FnItem(f) =>
      if f.public {
        SignaturesOne(f);
      } else {
        assert SigResults([]) == [];
      }
    case OtherItem =>
      assert SigResults([]) == [];
  }

  lemma {:induction false} NestedReferenceIn(items: seq<Item>, parent: Item)
    requires forall k :: 0 <= k < |items| ==> items[k] < parent
    ensures ItemsSpec(items, parent) == Signatures(NestedFnsIn(items, parent))
    decreases parent, 0, |items|
  {
    if |items| == 0 {
      assert SigResults([]) == [];
    } else {
      NestedReference(items[0]);
      NestedReferenceIn(items[1..], parent);
      SignaturesAppend(NestedFns(items[0]), NestedFnsIn(items[1..], parent));
    }
  }

  /** parse_fn_or_mod. */
  method ParseFnOrMod(item: Item) returns (r: Result<seq<Function>>)
    ensures r == FnOrModSpec(item)
    decreases item, 2
  {
    match item {
      case ModItem(_, public, _, _) =>
        if public {
          r := ParseModSignature(item);
        } else {
          r := Ok([]);
        }
      case FnItem(f) =>
        if f.public {
          var sig := FunctionSignature(f);
          if sig.Err? {
            return Err(sig.msg);
          }
          r := Ok([sig.value]);
        } else {
          r := Ok([]);
        }
      case OtherItem =>
        r := Ok([]);
    }
  }

  /** parse_mod_signature, item by item of the inline content. */
  method ParseModSignature(m: Item) returns (r: Result<seq<Function>>)
    requires m.ModItem?
    ensures r == ModSpec(m)
    decreases m, 1
  {
    if !m.inline {
      return Ok([]);
    }
    var items := m.items;
    ItemsBelow(m);
    ghost var whole := ItemsSpec(items, m);
    assert ModSpec(m) == whole;
    var sigs: seq<Function> := [];
    var i := 0;
    assert items[0..] == items;
    ThenOkEmpty(ItemsSpec(items[0..], m));
    while i < |items|
      invariant 0 <= i <= |items|
      invariant whole == Then(Ok(sigs), ItemsSpec(items[i..], m))
    {
      var step: Result<seq<Function>>;
      match items[i] {
        case ModItem(_, public, _, _) =>
          if public {
            step := ParseModSignature(items[i]);
          } else {
            step := Ok([]);
          }
        case FnItem(f) =>
          if f.public {
            var sig := FunctionSignature(f);
            step := Single(sig);
          } else {
            step := Ok([]);
          }
        case OtherItem =>
          step := Ok([]);
      }
      ItemsLoopStep(items, m, i, sigs, step);
      if step.Err? {
        return Err(step.msg);
      }
      sigs := sigs + step.value;
      i := i + 1;
    }
    assert ItemsSpec(items[i..], m) == Ok([]) && sigs + [] == sigs;
    return Ok(sigs);
  }

  /** One item of a module's content: a failure ends the read with its
      error, a success adds its functions. */
  lemma ItemsLoopStep(items: seq<Item>, parent: Item, i: nat, sigs: seq<Function>, step: Result<seq<Function>>)
    requires forall k :: 0 <= k < |items| ==> items[k] < parent
    requires i < |items| && step == FnOrModSpec(items[i])
    ensures step.Err? ==> Then(Ok(sigs), ItemsSpec(items[i..], parent)) == Err(step.msg)
    ensures step.Ok? ==> Then(Ok(sigs), ItemsSpec(items[i..], parent)) == Then(Ok(sigs + step.value), ItemsSpec(items[i + 1..], parent))
  {
    assert items[i..][0] == items[i] && items[i..][1..] == items[i + 1..];
    ThenAssoc(Ok(sigs), step, ItemsSpec(items[i + 1..], parent));
  }

  /** The items of a parsed file, read as the content of a module. */
  function FileSpec(items: seq<Item>): Result<seq<Function>>
  {
    ModSpec(ModItem("", true, true, items))
  }

  /** parse_nested_signatures: a parse error is returned as it is;
      otherwise parse_fn_or_mod is applied to each item in order. */
  method ParseNestedSignatures(parsed: Result<seq<Item>>) returns (r: Result<seq<Function>>)
    ensures parsed.Err? ==> r == Err(parsed.msg)
    ensures parsed.Ok? ==> r == FileSpec(parsed.value)
  {
    if parsed.Err? {
      return Err(parsed.msg);
    }
    var items := parsed.value;
    ghost var file := ModItem("", true, true, items);
    ItemsBelow(file);
    var sigs: seq<Function> := [];
    var i := 0;
    assert items[0..] == items;
    ThenOkEmpty(ItemsSpec(items[0..], file));
    while i < |items|
      invariant 0 <= i <= |items|
      invariant FileSpec(items) == Then(Ok(sigs), ItemsSpec(items[i..], file))
    {
      var step := ParseFnOrMod(items[i]);
      ItemsLoopStep(items, file, i, sigs, step);
      if step.Err? {
        return Err(step.msg);
      }
      sigs := sigs + step.value;
      i := i + 1;
    }
    assert ItemsSpec(items[i..], file) == Ok([]) && sigs + [] == sigs;
    return Ok(sigs);
  }

  /** The file read by parse_test: a public module `internal` holding
      `sum_in(d : f32) -> f32`, then `sum_out(txt : String, args : f32) -> String`.
      Reading it fails on `sum_in`, which does not return a `Result`; this
      holds for any element types in place of `f32`, and whatever item follows. */
  lemma ParseTestRefused(docIn: seq<Attr>, arg: SqlType, ret: SqlType, next: Item)
    ensures var sumIn := ItemFn("sum_in", true, [Typed(TypeName(arg))], Some(TypeName(ret)), docIn);
      FileSpec([ModItem("internal", true, true, [FnItem(sumIn)]), next]) == Err(ResultErr)
  {
    var sumIn := ItemFn("sum_in", true, [Typed(TypeName(arg))], Some(TypeName(ret)), docIn);
    var inner := ModItem("internal", true, true, [FnItem(sumIn)]);
    TypeNameRoundTrip(arg, "");
    assert ArgTypes(sumIn.name, sumIn.inputs) == Ok([arg]) by {
      assert sumIn.inputs[..0] == [];
      assert ArgTypes(sumIn.name, []) == Ok([]);
      assert sumIn.inputs[0].tyText == TypeName(arg);
      assert [] + [arg] == [arg];
    }
    PlainTypeRefused(sumIn.name, ret);
    SignatureRefusedByReturn(sumIn);
    OneFnModule("internal", sumIn);
    FileFailsAtFirst(inner, [next]);
    assert [inner, next] == [inner] + [next];
  }

  /** A function whose arguments read but whose return type does not is
      refused with the return type's error. */
  lemma SignatureRefusedByReturn(f: ItemFn)
    requires ArgTypes(f.name, f.inputs).Ok? && ReturnType(f.name, f.output).Err?
    ensures SignatureOf(f) == Err(ReturnType(f.name, f.output).msg)
  {
  }

  /** A public inline module holding one function reads as that function. */
  lemma OneFnModule(name: string, f: ItemFn)
    requires f.public
    ensures FnOrModSpec(ModItem(name, true, true, [FnItem(f)])) == Then(Single(SignatureOf(f)), Ok([]))
  {
    var m := ModItem(name, true, true, [FnItem(f)]);
    ItemsBelow(m);
    assert [FnItem(f)][1..] == [];
    assert ItemsSpec([FnItem(f)], m) == Then(FnOrModSpec(FnItem(f)), ItemsSpec([], m));
  }

  /** A file whose first item fails fails with that item's error. */
  lemma FileFailsAtFirst(first: Item, rest: seq<Item>)
    requires FnOrModSpec(first).Err?
    ensures FileSpec([first] + rest) == FnOrModSpec(first)
  {
    var items := [first] + rest;
    var file := ModItem("", true, true, items);
    ItemsBelow(file);
    assert items[0] == first;
    assert ItemsSpec(items, file) == Then(FnOrModSpec(first), ItemsSpec(items[1..], file));
  }
}
