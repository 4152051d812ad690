/** The `EXECUTE '<statement>' INTO <names> USING <names>;` form a report
    uses to bind a statement's result to local names and to feed it
    template values. The SQL tokenizer is outside the model: the form is
    read from its token sequence. */
module BoundSqls {
  import opened Wrappers

  /** The keywords the form looks at; every other keyword is OtherKeyword. */
  datatype Keyword = NoKeyword | Execute | Into | Using | OtherKeyword(name: string)

  datatype Token =
    | Word(value: string, keyword: Keyword)
    | Whitespace
    | Comma
    | SemiColon
    | SingleQuotedString(text: string)
    | OtherToken(text: string)

  /** BoundSQL: the names bound at INTO, the names used at USING, and the
      statement between quotes. */
  datatype BoundSql = BoundSql(into: seq<string>, using: seq<string>, stmt: string)

  /** A name list and the token that ended it (None at the end of input). */
  datatype NameList = NameList(names: seq<string>, end: Option<Token>)

  function KeywordName(k: Keyword): string
  {
    match k
    case NoKeyword => "NoKeyword"
    case Execute => "EXECUTE"
    case Into => "INTO"
    case Using => "USING"
    case OtherKeyword(name) => name
  }

  /** get_name_list from position p on, with the names collected so far
      and whether a comma came after the last one; the second component
      is the position after the last token taken. */
  function NameListFrom(toks: seq<Token>, p: nat, names: seq<string>, separated: bool): (r: (Result<NameList>, nat))
    requires p <= |toks|
    ensures p <= r.1 <= |toks|
    decreases |toks| - p
  {
    if p == |toks| then (Ok(NameList(names, None)), p)
    else
      match toks[p]
      case Word(v, k) =>
        if k.NoKeyword? then
          if separated then NameListFrom(toks, p + 1, names + [v], false)
          else (Err("Non-separated name " + v), p + 1)
        else (Ok(NameList(names, Some(toks[p]))), p + 1)
      case Whitespace => NameListFrom(toks, p + 1, names, separated)
      case Comma =>
        if !separated then NameListFrom(toks, p + 1, names, true)
        else (Err("Invalid statement (double comma)"), p + 1)
      case SemiColon => (Ok(NameList(names, Some(SemiColon))), p + 1)
      case _ => (Err("Invalid end token"), p + 1)
  }

  function GetNameListSpec(toks: seq<Token>, p: nat): (r: (Result<NameList>, nat))
    requires p <= |toks|
    ensures p <= r.1 <= |toks|
  {
    NameListFrom(toks, p, [], true)
  }

  /** get_name_list, token by token. */
  method GetNameList(toks: seq<Token>, start: nat) returns (r: Result<NameList>, next: nat)
    requires start <= |toks|
    ensures (r, next) == GetNameListSpec(toks, start)
  {
    var names: seq<string> := [];
    var separated := true;
    var p := start;
    while p < |toks|
      invariant start <= p <= |toks|
      invariant NameListFrom(toks, p, names, separated) == GetNameListSpec(toks, start)
      decreases |toks| - p
    {
      var tk := toks[p];
      p := p + 1;
      match tk {
        case Word(v, k) =>
          if k.NoKeyword? {
            if separated {
              names := names + [v];
              separated := false;
            } else {
              return Err("Non-separated name " + v), p;
            }
          } else {
            return Ok(NameList(names, Some(tk))), p;
          }
        case Whitespace =>
        case Comma =>
          if !separated {
            separated := true;
          } else {
            return Err("Invalid statement (double comma)"), p;
          }
        case SemiColon => return Ok(NameList(names, Some(SemiColon))), p;
        case _ => return Err("Invalid end token"), p;
      }
    }
    return Ok(NameList(names, None)), p;
  }

  /** parse_using_clause: the list may end at ';' or at the end of input. */
  function ParseUsing(toks: seq<Token>, p: nat, into: seq<string>, stmt: string): (r: Result<BoundSql>)
    requires p <= |toks|
    ensures r.Ok? ==> r.value.into == into && r.value.stmt == stmt
  {
    var (l, _) := GetNameListSpec(toks, p);
    if l.Ok? then
      if l.value.end == Some(SemiColon) || l.value.end.None? then Ok(BoundSql(into, l.value.names, stmt))
      else Err("Invalid end of input")
    else Err("Using keyword does not have valid names")
  }

  /** parse_into_clause: the list must end at USING, which starts the
      using list, or at ';'. */
  function ParseInto(toks: seq<Token>, p: nat, stmt: string): (r: Result<BoundSql>)
    requires p <= |toks|
    ensures r.Ok? ==> r.value.stmt == stmt
  {
    var (l, next) := GetNameListSpec(toks, p);
    if l.Ok? then
      match l.value.end
      case Some(Word(_, k)) =>
        if k == Using then ParseUsing(toks, next, l.value.names, stmt)
        else Err("Invalid end keyword: " + KeywordName(k))
      case Some(SemiColon) => Ok(BoundSql(l.value.names, [], stmt))
      case _ => Err("Invalid end token: None")
    else Err("Invalid statement")
  }

  const MissingClause: string := "Statement missing INTO and/or USING clause"

  /** from_str: EXECUTE, one token skipped, the quoted statement, one token
      skipped, then INTO or USING. */
  function FromTokens(toks: seq<Token>): (r: Result<BoundSql>)
  {
    if |toks| == 0 then Err("No EXECUTE keyword")
    else
      match toks[0]
      case Word(_, k) =>
        if k != Execute then Err("First keyword should be EXECUTE")
        else if |toks| < 3 || !toks[2].SingleQuotedString? then Err("Missing SQL statement")
        else
          var stmt := toks[2].text;
          if |toks| < 5 || !toks[4].Word? then Err(MissingClause)
          else if toks[4].keyword == Into then ParseInto(toks, 5, stmt)
          else if toks[4].keyword == Using then ParseUsing(toks, 5, [], stmt)
          else Err(MissingClause)
      case _ => Err("Invalid start token")
  }

  /** A statement that parses starts with EXECUTE, carries the quoted text
      as its statement, and names INTO or USING at the fifth token; with
      USING there, nothing is bound. */
  lemma FromTokensShape(toks: seq<Token>)
    requires FromTokens(toks).Ok?
    ensures |toks| >= 5 && toks[0].Word? && toks[0].keyword == Execute
    ensures toks[2].SingleQuotedString? && FromTokens(toks).value.stmt == toks[2].text
    ensures toks[4].Word? && (toks[4].keyword == Into || toks[4].keyword == Using)
    ensures toks[4].keyword == Using ==> FromTokens(toks).value.into == []
  {
  }

  // ---------------------------------------------------------------------
  // Name lists written out as tokens

  /** Names separated by a comma and a space. */
  function NameTokens(names: seq<string>): (r: seq<Token>)
    ensures |names| == 0 <==> |r| == 0
  {
    if |names| == 0 then []
    else if |names| == 1 then [Word(names[0], NoKeyword)]
    else [Word(names[0], NoKeyword), Comma, Whitespace] + NameTokens(names[1..])
  }

  /** Reading a written-out name list collects its names and leaves the
      reader just after it, with a comma still owed for a further name. */
  lemma {:induction false} NameListReadsNames(toks: seq<Token>, p: nat, names: seq<string>, acc: seq<string>)
    requires p + |NameTokens(names)| <= |toks| && toks[p..p + |NameTokens(names)|] == NameTokens(names)
    ensures NameListFrom(toks, p, acc, true) == NameListFrom(toks, p + |NameTokens(names)|, acc + names, |names| == 0)
    decreases |names|
  {
    var nt := NameTokens(names);
    if |names| == 0 {
      assert acc + names == acc;
    } else {
      assert toks[p] == nt[0];
      if |names| == 1 {
        assert names == [names[0]];
      } else {
        var rest := NameTokens(names[1..]);
        assert toks[p + 1] == nt[1] == Comma;
        assert toks[p + 2] == nt[2] == Whitespace;
        assert toks[p + 3..p + 3 + |rest|] == nt[3..] == rest;
        var acc1 := acc + [names[0]];
        assert NameListFrom(toks, p, acc, true) == NameListFrom(toks, p + 1, acc1, false);
        assert NameListFrom(toks, p + 1, acc1, false) == NameListFrom(toks, p + 2, acc1, true);
        assert NameListFrom(toks, p + 2, acc1, true) == NameListFrom(toks, p + 3, acc1, true);
        NameListReadsNames(toks, p + 3, names[1..], acc1);
        assert acc + [names[0]] + names[1..] == acc + names;
      }
    }
  }

  /** A written-out name list closed by ';' reads back as that list. */
  lemma NameListRoundTrip(names: seq<string>, rest: seq<Token>)
    ensures GetNameListSpec(NameTokens(names) + [SemiColon] + rest, 0).0 == Ok(NameList(names, Some(SemiColon)))
  {
    var toks := NameTokens(names) + [SemiColon] + rest;
    assert toks[0..|NameTokens(names)|] == NameTokens(names);
    NameListReadsNames(toks, 0, names, []);
    assert [] + names == names;
  }

  /** A written-out name list, a space or not, then ';' or a keyword:
      the list is read and the reader stops after that token. */
  lemma NamesThenEnd(pre: seq<Token>, names: seq<string>, post: seq<Token>, gap: nat)
    requires gap <= 1 && gap < |post|
    requires gap == 1 ==> post[0] == Whitespace
    requires post[gap] == SemiColon || (post[gap].Word? && !post[gap].keyword.NoKeyword?)
    ensures GetNameListSpec(pre + NameTokens(names) + post, |pre|)
      == (Ok(NameList(names, Some(post[gap]))), |pre| + |NameTokens(names)| + gap + 1)
  {
    var nt := NameTokens(names);
    var toks := pre + nt + post;
    assert toks[|pre|..|pre| + |nt|] == nt;
    NameListReadsNames(toks, |pre|, names, []);
    assert [] + names == names;
    var q := |pre| + |nt|;
    assert toks[q + gap] == post[gap];
    if gap == 1 {
      assert toks[q] == Whitespace;
    }
  }

  /** The statement `EXECUTE '<stmt>' INTO <into> USING <using>;` written
      out as tokens. */
  function ExecuteTokens(stmt: string, into: seq<string>, using: seq<string>): seq<Token>
  {
    [Word("EXECUTE", Execute), Whitespace, SingleQuotedString(stmt), Whitespace, Word("INTO", Into), Whitespace]
      + NameTokens(into) + [Whitespace, Word("USING", Using), Whitespace]
      + NameTokens(using) + [SemiColon]
  }

  /** Reading the written-out statement gives back its parts; the form of
      the statement bound at parse_execute is one instance. */
  lemma FromTokensRoundTrip(stmt: string, into: seq<string>, using: seq<string>)
    ensures FromTokens(ExecuteTokens(stmt, into, using)) == Ok(BoundSql(into, using, stmt))
  {
    var head := [Word("EXECUTE", Execute), Whitespace, SingleQuotedString(stmt), Whitespace, Word("INTO", Into), Whitespace];
    var ni := NameTokens(into);
    var mid := [Whitespace, Word("USING", Using), Whitespace];
    var nu := NameTokens(using);
    var toks := head + ni + mid + nu + [SemiColon];
    assert toks == ExecuteTokens(stmt, into, using);
    assert toks[0] == Word("EXECUTE", Execute) && toks[2] == SingleQuotedString(stmt) && toks[4] == Word("INTO", Into);
    var post := mid + nu + [SemiColon];
    assert toks == head + ni + post;
    NamesThenEnd(head, into, post, 1);
    assert toks[5] == Whitespace;
    assert GetNameListSpec(toks, 5) == GetNameListSpec(toks, 6);
    var pre := head + ni + mid;
    assert toks == pre + nu + [SemiColon];
    NamesThenEnd(pre, using, [SemiColon], 0);
    assert toks[|pre| - 1] == Whitespace;
    assert GetNameListSpec(toks, |pre| - 1) == GetNameListSpec(toks, |pre|);
  }

  /** The using list may also run to the end of the input. */
  lemma UsingAtEndOfInput(pre: seq<Token>, names: seq<string>, into: seq<string>, stmt: string)
    ensures ParseUsing(pre + NameTokens(names), |pre|, into, stmt) == Ok(BoundSql(into, names, stmt))
  {
    var toks := pre + NameTokens(names);
    assert toks[|pre|..|toks|] == NameTokens(names);
    NameListReadsNames(toks, |pre|, names, []);
    assert [] + names == names;
  }

  /** Two names with no comma between them, a comma with no name before
      it, and any token other than a name, comma, space, ';' or keyword
      are refused. */
  lemma NameListErrors(toks: seq<Token>, p: nat)
    requires p + 3 <= |toks|
    ensures toks[p].Word? && toks[p].keyword.NoKeyword? && toks[p + 1] == Whitespace && toks[p + 2].Word? && toks[p + 2].keyword.NoKeyword?
      ==> GetNameListSpec(toks, p).0 == Err("Non-separated name " + toks[p + 2].value)
    ensures toks[p] == Comma ==> GetNameListSpec(toks, p).0 == Err("Invalid statement (double comma)")
    ensures toks[p].Word? && toks[p].keyword.NoKeyword? && toks[p + 1] == Comma && toks[p + 2] == Comma
      ==> GetNameListSpec(toks, p).0 == Err("Invalid statement (double comma)")
    ensures (toks[p].SingleQuotedString? || toks[p].OtherToken?) ==> GetNameListSpec(toks, p).0.Err?
  {
    if toks[p].Word? && toks[p].keyword.NoKeyword? {
      var v := [toks[p].value];
      assert [] + v == v;
      assert NameListFrom(toks, p, [], true) == NameListFrom(toks, p + 1, v, false);
      if toks[p + 1] == Whitespace {
        assert NameListFrom(toks, p + 1, v, false) == NameListFrom(toks, p + 2, v, false);
      } else if toks[p + 1] == Comma {
        assert NameListFrom(toks, p + 1, v, false) == NameListFrom(toks, p + 2, v, true);
      }
    }
  }

  /** After INTO, the end of input or a keyword other than USING is refused. */
  lemma IntoNeedsEnd(toks: seq<Token>, p: nat)
    requires p <= |toks|
    ensures var (l, _) := GetNameListSpec(toks, p);
      (l.Ok? && (l.value.end.None? || (l.value.end.value.Word? && l.value.end.value.keyword != Using)))
        ==> ParseInto(toks, p, "").Err?
  {
  }
}
