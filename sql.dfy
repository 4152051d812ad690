/** Splitting SQL text into statements, the listener that sends commands to
    the engine, and the engine's one-result-per-statement answer. */
module SqlListeners {
  import opened Wrappers
  import opened Strs
  import Tables

  /** A piece split_sql keeps: not empty and not a lone newline, space or tab. */
  predicate Keep(piece: string)
  {
    |piece| > 0 && piece != "\n" && piece != " " && piece != "\t"
  }

  /** The kept pieces, in order. */
  function KeepAll(pieces: seq<string>): (r: seq<string>)
    ensures |r| <= |pieces|
    ensures forall p :: p in r <==> p in pieces && Keep(p)
  {
    if |pieces| == 0 then []
    else
      var prev := KeepAll(pieces[..|pieces| - 1]);
      var last := pieces[|pieces| - 1];
      assert forall p :: p in pieces <==> p in pieces[..|pieces| - 1] || p == last;
      if Keep(last) then prev + [last] else prev
  }

  /** split_sql: the text cut at every ';', with the blank pieces dropped. */
  function SplitSql(text: string): (r: seq<string>)
    ensures forall k :: 0 <= k < |r| ==> Keep(r[k]) && ';' !in r[k]
  {
    var pieces := Split(text, ';');
    assert forall p :: p in pieces ==> ';' !in p by {
      forall p | p in pieces
        ensures ';' !in p
      {
        var i :| 0 <= i < |pieces| && pieces[i] == p;
        assert forall j :: 0 <= j < |pieces[i]| ==> pieces[i][j] !in {';'};
      }
    }
    KeepAll(pieces)
  }

  /** Every kept piece is a piece of the text, and joining the pieces back
      with ';' gives the text. */
  lemma SplitSqlPieces(text: string)
    ensures forall p :: p in SplitSql(text) <==> p in Split(text, ';') && Keep(p)
    ensures Join(Split(text, ';'), ';') == text
  {
    SplitJoin(text, ';');
  }

  /** Text without ';' that is not blank is one statement. */
  lemma SplitSqlSingle(text: string)
    requires ';' !in text && Keep(text)
    ensures SplitSql(text) == [text]
  {
    NoSepSplit(text, ';');
    assert [text][..0] == [];
  }

  lemma {:induction false} NoSepSplit(s: string, c: char)
    requires c !in s
    ensures Split(s, c) == [s]
  {
    if s != [] {
      assert c !in s[1..];
      NoSepSplit(s[1..], c);
      assert [s[0]] + s[1..] == s;
    }
  }

  // ---------------------------------------------------------------------
  // Statements and results

  /** A parsed statement: a query returns rows, anything else modifies. */
  datatype Statement = Query(text: string) | OtherStatement(text: string)

  datatype QueryResult = Valid(table: Tables.Table) | StatementDone(msg: string) | Invalid(msg: string)

  datatype SqlEngine = Inactive | Local | PostgreSql(connStr: string) | Sqlite3(path: Option<string>)

  /** The command kinds send_command records for its statements. */
  function Kinds(stmts: seq<Statement>): (r: seq<string>)
    ensures |r| == |stmts|
    ensures forall i :: 0 <= i < |stmts| ==> r[i] == (if stmts[i].Query? then "select" else "other")
  {
    if |stmts| == 0 then [] else Kinds(stmts[..|stmts| - 1]) + [if stmts[|stmts| - 1].Query? then "select" else "other"]
  }

  /** try_run, with the statements as the SQL parser gives them and `run`
      standing for the database answering one statement. */
  function TryRunSpec(engine: SqlEngine, parsed: Result<seq<Statement>>, run: Statement -> QueryResult): (r: Result<seq<QueryResult>>)
    ensures parsed.Err? ==> r == Err(parsed.msg)
    ensures parsed.Ok? && |parsed.value| == 0 ==> r == Err("Empty query sequence")
    ensures parsed.Ok? && |parsed.value| > 0 && engine.Inactive? ==> r == Err("Inactive Sql engine")
    ensures parsed.Ok? && |parsed.value| > 0 && engine.Local? ==> r == Err("Current SQL Engine does not support queries.")
    ensures r.Ok? <==> parsed.Ok? && |parsed.value| > 0 && (engine.PostgreSql? || engine.Sqlite3?)
    ensures r.Ok? ==> |r.value| == |parsed.value| && forall i :: 0 <= i < |r.value| ==> r.value[i] == run(parsed.value[i])
  {
    if parsed.Err? then Err(parsed.msg)
    else if |parsed.value| == 0 then Err("Empty query sequence")
    else if engine.Inactive? then Err("Inactive Sql engine")
    else if engine.Local? then Err("Current SQL Engine does not support queries.")
    else Ok(seq(|parsed.value|, i requires 0 <= i < |parsed.value| => run(parsed.value[i])))
  }

  /** try_run, statement by statement. */
  method TryRun(engine: SqlEngine, parsed: Result<seq<Statement>>, run: Statement -> QueryResult) returns (r: Result<seq<QueryResult>>)
    ensures r == TryRunSpec(engine, parsed, run)
  {
    if parsed.Err? {
      return Err(parsed.msg);
    }
    var stmts := parsed.value;
    if |stmts| == 0 {
      return Err("Empty query sequence");
    }
    match engine {
      case Inactive => return Err("Inactive Sql engine");
      case Local => return Err("Current SQL Engine does not support queries.");
      case _ =>
    }
    var results: seq<QueryResult> := [];
    var i := 0;
    while i < |stmts|
      invariant 0 <= i <= |stmts|
      invariant |results| == i && forall k :: 0 <= k < i ==> results[k] == run(stmts[k])
    {
      results := results + [run(stmts[i])];
      i := i + 1;
    }
    assert results == seq(|stmts|, k requires 0 <= k < |stmts| => run(stmts[k]));
    return Ok(results);
  }

  /** What the listener thread sends back for a command: the results, or
      one Invalid result carrying the error. */
  function Answer(engine: SqlEngine, parsed: Result<seq<Statement>>, run: Statement -> QueryResult): seq<QueryResult>
  {
    var r := TryRunSpec(engine, parsed, run);
    if r.Ok? then r.value else [Invalid(r.msg)]
  }

  /** Every command gets an answer: one result per statement when it runs,
      a single Invalid result otherwise. */
  lemma AnswerShape(engine: SqlEngine, parsed: Result<seq<Statement>>, run: Statement -> QueryResult)
    ensures |Answer(engine, parsed, run)| >= 1
    ensures parsed.Ok? && |parsed.value| > 0 && (engine.PostgreSql? || engine.Sqlite3?) ==> |Answer(engine, parsed, run)| == |parsed.value|
    ensures !(parsed.Ok? && |parsed.value| > 0 && (engine.PostgreSql? || engine.Sqlite3?)) ==> Answer(engine, parsed, run)[0].Invalid?
  {
  }

  /** The client side of the SQL engine: the kinds of the last command's
      statements, and the commands sent to the engine so far. */
  class SqlListener {
    var lastCmd: seq<string>
    var sent: seq<string>

    constructor()
      ensures lastCmd == [] && sent == []
    {
      lastCmd := [];
      sent := [];
    }

    /** send_command: the command is parsed on the client side; a command
        that does not parse is not sent and leaves no kinds behind. */
    method SendCommand(sql: string, parsed: Result<seq<Statement>>) returns (r: Result<()>)
      modifies this
      ensures parsed.Err? ==> r == Err(parsed.msg) && lastCmd == [] && sent == old(sent)
      ensures parsed.Ok? ==> r == Ok(()) && lastCmd == Kinds(parsed.value) && sent == old(sent) + [sql]
    {
      lastCmd := [];
      if parsed.Err? {
        return Err(parsed.msg);
      }
      var stmts := parsed.value;
      var i := 0;
      while i < |stmts|
        invariant 0 <= i <= |stmts|
        invariant lastCmd == Kinds(stmts[..i])
        invariant sent == old(sent)
      {
        assert stmts[..i + 1][..i] == stmts[..i];
        lastCmd := lastCmd + [if stmts[i].Query? then "select" else "other"];
        i := i + 1;
      }
      assert stmts[..i] == stmts;
      sent := sent + [sql];
      return Ok(());
    }
  }
}
