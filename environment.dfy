/** The table environment: the tables currently loaded, the history of the
    updates that produced them, the data source and the SQL engine. Query
    results coming back from the engine either refresh the tables or
    replace them; user functions append derived tables. */
module TableEnvironments {
  import opened Wrappers
  import opened SqlListeners
  import Tables
  import opened TableColumns

  /** A call of a user function: its name, its text arguments and the
      global indices of the columns it reads. */
  datatype FunctionCall = FunctionCall(name: string, args: seq<string>, source: seq<nat>)

  datatype EnvironmentUpdate =
    | Clear
      /** One entry per table, holding its column names. */
    | NewTables(names: seq<seq<string>>)
      /** Same tables and column names as before; only the data changed. */
    | Refresh
      /** One table appended by a function call, with its column names. */
    | Function(call: FunctionCall, outNames: seq<string>)

  /** Where the data comes from. The SQL sources carry the query to send. */
  datatype EnvironmentSource =
    | FileSource(path: string, content: string)
    | PostgreSQLSource(conn: string, query: string)
    | SQLite3Source(file: Option<string>, query: string)
    | OtherSource

  /** A user function: the columns it reads and its arguments to a table. */
  type UserFunction = (Tables.Columns, seq<string>) -> Result<Tables.Table>

  /** The function registry: the names it lists, and the functions whose
      code could be loaded. */
  datatype FuncRegistry = FuncRegistry(names: set<string>, loaded: map<string, UserFunction>)

  // ---------------------------------------------------------------------
  // History

  /** The column names of the last table set, unless a Clear came after it. */
  function LastTableCols(history: seq<EnvironmentUpdate>): Option<seq<seq<string>>>
  {
    if |history| == 0 then None
    else match history[|history| - 1]
      case NewTables(names) => Some(names)
      case Clear => None
      case _ => LastTableCols(history[..|history| - 1])
  }

  /** An entry that ends the backward search of last_table_columns. */
  predicate Stops(u: EnvironmentUpdate)
  {
    u.NewTables? || u.Clear?
  }

  /** last_table_columns finds `names` exactly when some NewTables(names)
      entry is followed by neither a NewTables nor a Clear entry. */
  lemma LastTableColsIff(history: seq<EnvironmentUpdate>, names: seq<seq<string>>)
    ensures LastTableCols(history) == Some(names) <==>
      (exists i :: 0 <= i < |history| && history[i] == NewTables(names) && NoStopAfter(history, i))
  {
    if LastTableCols(history) == Some(names) {
      LastTableColsFound(history, names);
    }
    if exists i :: 0 <= i < |history| && history[i] == NewTables(names) && NoStopAfter(history, i) {
      var i :| 0 <= i < |history| && history[i] == NewTables(names) && NoStopAfter(history, i);
      LastTableColsWitness(history, names, i);
    }
  }

  /** No NewTables or Clear entry comes after position i. */
  predicate NoStopAfter(history: seq<EnvironmentUpdate>, i: nat)
  {
    forall j :: i < j < |history| ==> !Stops(history[j])
  }

  lemma {:induction false} LastTableColsFound(history: seq<EnvironmentUpdate>, names: seq<seq<string>>)
    requires LastTableCols(history) == Some(names)
    ensures exists i :: 0 <= i < |history| && history[i] == NewTables(names) && NoStopAfter(history, i)
  {
    var n := |history| - 1;
    var prev := history[..n];
    if history[n] == NewTables(names) {
      assert NoStopAfter(history, n);
    } else {
      LastTableColsFound(prev, names);
      var i :| 0 <= i < |prev| && prev[i] == NewTables(names) && NoStopAfter(prev, i);
      assert history[i] == NewTables(names);
      forall j | i < j < |history|
        ensures !Stops(history[j])
      {
        if j < n {
          assert history[j] == prev[j];
        }
      }
      assert NoStopAfter(history, i);
    }
  }

  lemma {:induction false} LastTableColsWitness(history: seq<EnvironmentUpdate>, names: seq<seq<string>>, i: nat)
    requires i < |history| && history[i] == NewTables(names) && NoStopAfter(history, i)
    ensures LastTableCols(history) == Some(names)
  {
    var n := |history| - 1;
    var prev := history[..n];
    if i < n {
      assert !Stops(history[n]);
      assert prev[i] == NewTables(names);
      forall j | i < j < |prev|
        ensures !Stops(prev[j])
      {
        assert prev[j] == history[j];
      }
      LastTableColsWitness(prev, names, i);
    }
  }

  /** All column names of a table set, table after table. */
  function Flat(names: seq<seq<string>>): (r: seq<string>)
  {
    if |names| == 0 then [] else Flat(names[..|names| - 1]) + names[|names| - 1]
  }

  /** The pairs the zip of two name lists visits agree. */
  predicate CommonPrefixAgrees(a: seq<string>, b: seq<string>)
  {
    forall i :: 0 <= i < |a| && i < |b| ==> a[i] == b[i]
  }

  /** The update a batch of valid query results is recorded as: Refresh when
      the last table set has as many tables and the flattened column names
      agree wherever both have one, a new table set otherwise. */
  function ChooseUpdate(last: Option<seq<seq<string>>>, newCols: seq<seq<string>>): (r: EnvironmentUpdate)
    ensures r.Refresh? || r == NewTables(newCols)
    ensures r.Refresh? <==> last.Some? && |last.value| == |newCols| && CommonPrefixAgrees(Flat(last.value), Flat(newCols))
  {
    if last.Some? && |last.value| == |newCols| && CommonPrefixAgrees(Flat(last.value), Flat(newCols)) then Refresh
    else NewTables(newCols)
  }

  /** The first result that is not a table, if any. */
  function FirstBad(results: seq<QueryResult>): (r: Option<nat>)
    ensures r.None? <==> forall i :: 0 <= i < |results| ==> results[i].Valid?
    ensures r.Some? ==> r.value < |results| && !results[r.value].Valid?
                        && forall i :: 0 <= i < r.value ==> results[i].Valid?
  {
    if |results| == 0 then None
    else if !results[0].Valid? then Some(0)
    else
      match FirstBad(results[1..])
      case None => None
      case Some(k) => Some(k + 1)
  }

  /** What an answer from the engine does to the environment: the value
      returned, the new tables and the update appended to the history. */
  datatype Applied = Applied(answer: Result<EnvironmentUpdate>, tables: seq<Tables.Table>, pushed: EnvironmentUpdate)

  /** maybe_update_from_query_results, for an answer that arrived. */
  function ApplyResults(history: seq<EnvironmentUpdate>, results: seq<QueryResult>): (r: Applied)
    ensures |results| == 0 ==> r == Applied(Ok(Clear), [], Clear)
    ensures FirstBad(results).Some? && results[FirstBad(results).value].Invalid? ==>
      r == Applied(Err(results[FirstBad(results).value].msg), [], Clear)
    ensures FirstBad(results).Some? && results[FirstBad(results).value].StatementDone? ==>
      r == Applied(Ok(Clear), [], Clear)
    ensures |results| > 0 && FirstBad(results).None? ==>
      && |r.tables| == |results|
      && (forall i :: 0 <= i < |results| ==> r.tables[i] == results[i].table)
      && r.pushed == ChooseUpdate(LastTableCols(history), NamesOf(results))
      && r.answer == Ok(r.pushed)
  {
    if |results| == 0 then Applied(Ok(Clear), [], Clear)
    else match FirstBad(results)
      case Some(k) =>
        if results[k].Invalid? then Applied(Err(results[k].msg), [], Clear)
        else Applied(Ok(Clear), [], Clear)
      case None =>
        var pushed := ChooseUpdate(LastTableCols(history), NamesOf(results));
        Applied(Ok(pushed), seq(|results|, i requires 0 <= i < |results| => results[i].table), pushed)
  }

  /** The column names of each result table (non-tables give no names). */
  function NamesOf(results: seq<QueryResult>): (r: seq<seq<string>>)
    ensures |r| == |results|
    ensures forall i :: 0 <= i < |results| && results[i].Valid? ==> r[i] == results[i].table.names
  {
    seq(|results|, i requires 0 <= i < |results| => if results[i].Valid? then results[i].table.names else [])
  }

  /** After an answer, the environment holds tables exactly when the update
      is not a Clear; a successful answer names the update it recorded; and
      last_table_columns then gives the new names, or after a Refresh the
      previous ones, which have as many tables and agree with the new
      names wherever both have one. */
  lemma ApplyResultsHistory(history: seq<EnvironmentUpdate>, results: seq<QueryResult>)
    ensures var a := ApplyResults(history, results);
      && (a.tables == [] <==> a.pushed.Clear?)
      && (a.answer.Ok? ==> a.answer.value == a.pushed)
      && (a.pushed.NewTables? ==> LastTableCols(history + [a.pushed]) == Some(NamesOf(results)))
      && (a.pushed.Clear? ==> LastTableCols(history + [a.pushed]) == None)
      && (a.pushed.Refresh? ==>
            && LastTableCols(history + [a.pushed]) == LastTableCols(history)
            && LastTableCols(history).Some?
            && |LastTableCols(history).value| == |a.tables|
            && CommonPrefixAgrees(Flat(LastTableCols(history).value), Flat(NamesOf(results))))
  {
    var a := ApplyResults(history, results);
    var h := history + [a.pushed];
    assert h[..|h| - 1] == history;
  }

  /** The zip behind Refresh stops at the shorter list: a query that drops
      the last column of a one-table result still counts as a Refresh, and
      the history keeps the old names. */
  lemma RefreshDespiteDroppedColumn(a: string, b: string)
    ensures ChooseUpdate(Some([[a, b]]), [[a]]) == Refresh
  {
    assert Flat([[a, b]]) == [a, b] by {
      assert [[a, b]][..0] == [];
    }
    assert Flat([[a]]) == [a] by {
      assert [[a]][..0] == [];
    }
  }

  // ---------------------------------------------------------------------
  // Sources and queries

  /** prepare_query: the source with its query replaced, when it has one. */
  function WithQuery(src: EnvironmentSource, sql: string): (r: EnvironmentSource)
    ensures src.PostgreSQLSource? ==> r == PostgreSQLSource(src.conn, sql)
    ensures src.SQLite3Source? ==> r == SQLite3Source(src.file, sql)
    ensures !src.PostgreSQLSource? && !src.SQLite3Source? ==> r == src
  {
    match src
    case PostgreSQLSource(conn, _) => PostgreSQLSource(conn, sql)
    case SQLite3Source(file, _) => SQLite3Source(file, sql)
    case _ => src
  }

  /** The query send_current_query would send. */
  function QueryOf(src: EnvironmentSource): Option<string>
  {
    match src
    case PostgreSQLSource(_, q) => Some(q)
    case SQLite3Source(_, q) => Some(q)
    case _ => None
  }

  /** A prepared query is the one sent next, for SQL sources; other sources
      have none before or after. */
  lemma PrepareThenSend(src: EnvironmentSource, sql: string)
    ensures QueryOf(WithQuery(src, sql)) == (if QueryOf(src).Some? then Some(sql) else None)
    ensures WithQuery(WithQuery(src, sql), sql) == WithQuery(src, sql)
  {
  }

  /** What the outside world answers while a source is installed: the
      file stem of a file path, the parsed CSV file, and the engine
      opened for a connection. */
  datatype SourceAnswers = SourceAnswers(stem: Option<string>, parsed: Result<Tables.Table>, connected: Result<SqlEngine>)

  // ---------------------------------------------------------------------
  // Columns across tables

  /** The global index of the first column of table k. */
  function Base(tables: seq<Tables.Table>, k: nat): (r: nat)
    requires k <= |tables|
  {
    if k == 0 then 0 else Base(tables, k - 1) + |tables[k - 1].cols|
  }

  /** The indices in [base, base + n), made local to that range, in order. */
  function LocalIxs(ixs: seq<nat>, base: nat, n: nat): seq<nat>
  {
    if |ixs| == 0 then []
    else
      var prev := LocalIxs(ixs[..|ixs| - 1], base, n);
      var ix := ixs[|ixs| - 1];
      if base <= ix < base + n then prev + [ix - base] else prev
  }

  /** A local index is kept exactly when it is in range and its global
      index was asked for. */
  lemma {:induction false} LocalIxsIff(ixs: seq<nat>, base: nat, n: nat, l: nat)
    ensures l in LocalIxs(ixs, base, n) <==> l < n && base + l in ixs
  {
    if |ixs| > 0 {
      var init := ixs[..|ixs| - 1];
      LocalIxsIff(init, base, n, l);
      assert base + l in ixs <==> base + l in init || base + l == ixs[|ixs| - 1];
    }
  }

  /** get_columns over the first k tables: what take_and_extend gathers
      from each table in turn. */
  function EnvColumns(tables: seq<Tables.Table>, ixs: seq<nat>, k: nat): (r: Tables.Columns)
    requires k <= |tables|
    ensures Tables.Aligned(r)
  {
    if k == 0 then Tables.NoColumns
    else
      var prev := EnvColumns(tables, ixs, k - 1);
      var picked := Picked(tables, ixs, k - 1);
      Tables.Columns(prev.names + picked.names, prev.cols + picked.cols, prev.ixs + picked.ixs)
  }

  /** Column `ix` of one of the first k tables, named `name`, whose global
      index was asked for. */
  predicate FromTable(tables: seq<Tables.Table>, ixs: seq<nat>, k: nat, ix: nat, col: Column, name: string)
    requires k <= |tables|
  {
    exists t :: 0 <= t < k && AtTable(tables, ixs, t, ix, col, name)
  }

  /** Column `ix` of table t, named `name`, whose global index was asked for. */
  predicate AtTable(tables: seq<Tables.Table>, ixs: seq<nat>, t: nat, ix: nat, col: Column, name: string)
    requires t < |tables|
  {
    ix < |tables[t].cols| && ix < |tables[t].names|
      && col == tables[t].cols[ix] && name == tables[t].names[ix] && Base(tables, t) + ix in ixs
  }

  /** Every column get_columns returns is a column of some table whose
      global index was asked for, at its local index. */
  lemma EnvColumnsSound(tables: seq<Tables.Table>, ixs: seq<nat>, k: nat, p: nat)
    requires k <= |tables| && p < |EnvColumns(tables, ixs, k).cols|
    ensures FromTable(tables, ixs, k, EnvColumns(tables, ixs, k).ixs[p], EnvColumns(tables, ixs, k).cols[p],
                      EnvColumns(tables, ixs, k).names[p])
  {
    var t := SourceTable(tables, ixs, k, p);
  }

  /** The table the p-th column of get_columns comes from. */
  lemma {:induction false} SourceTable(tables: seq<Tables.Table>, ixs: seq<nat>, k: nat, p: nat) returns (t: nat)
    requires k <= |tables| && p < |EnvColumns(tables, ixs, k).cols|
    ensures t < k && AtTable(tables, ixs, t, EnvColumns(tables, ixs, k).ixs[p], EnvColumns(tables, ixs, k).cols[p],
                             EnvColumns(tables, ixs, k).names[p])
  {
    assert k > 0;
    var prev := EnvColumns(tables, ixs, k - 1);
    if p < |prev.cols| {
      t := SourceTable(tables, ixs, k - 1, p);
      EnvColumnsPrefix(tables, ixs, k - 1, k, p);
    } else {
      FromLastTable(tables, ixs, k - 1, p - |prev.cols|);
      t := k - 1;
    }
  }

  lemma FromLastTable(tables: seq<Tables.Table>, ixs: seq<nat>, k: nat, q: nat)
    requires k < |tables| && q < |Picked(tables, ixs, k).cols|
    ensures |EnvColumns(tables, ixs, k).cols| + q < |EnvColumns(tables, ixs, k + 1).cols|
    ensures AtTable(tables, ixs, k, EnvColumns(tables, ixs, k + 1).ixs[|EnvColumns(tables, ixs, k).cols| + q],
                    EnvColumns(tables, ixs, k + 1).cols[|EnvColumns(tables, ixs, k).cols| + q],
                    EnvColumns(tables, ixs, k + 1).names[|EnvColumns(tables, ixs, k).cols| + q])
  {
    EnvColumnsAt(tables, ixs, k, q);
    FromPicked(tables, ixs, k, q);
  }

  /** The q-th column taken from table k sits right after the columns of
      the tables before it. */
  lemma EnvColumnsAt(tables: seq<Tables.Table>, ixs: seq<nat>, k: nat, q: nat)
    requires k < |tables| && q < |Picked(tables, ixs, k).cols|
    ensures |EnvColumns(tables, ixs, k + 1).cols| == |EnvColumns(tables, ixs, k).cols| + |Picked(tables, ixs, k).cols|
    ensures EnvColumns(tables, ixs, k + 1).ixs[|EnvColumns(tables, ixs, k).cols| + q] == Picked(tables, ixs, k).ixs[q]
    ensures EnvColumns(tables, ixs, k + 1).cols[|EnvColumns(tables, ixs, k).cols| + q] == Picked(tables, ixs, k).cols[q]
    ensures EnvColumns(tables, ixs, k + 1).names[|EnvColumns(tables, ixs, k).cols| + q] == Picked(tables, ixs, k).names[q]
  {
    var prev := EnvColumns(tables, ixs, k);
    var c := Picked(tables, ixs, k);
    var r := EnvColumns(tables, ixs, k + 1);
    assert r.ixs == prev.ixs + c.ixs && r.cols == prev.cols + c.cols && r.names == prev.names + c.names;
    AppendIndex(prev.ixs, c.ixs, q);
    AppendIndex(prev.cols, c.cols, q);
    AppendIndex(prev.names, c.names, q);
  }

  lemma AppendIndex<T>(a: seq<T>, b: seq<T>, q: nat)
    requires q < |b|
    ensures (a + b)[|a| + q] == b[q]
  {
  }

  /** The columns get_columns takes from table k. */
  function Picked(tables: seq<Tables.Table>, ixs: seq<nat>, k: nat): Tables.Columns
    requires k < |tables|
  {
    Tables.PickColumns(tables[k], LocalIxs(ixs, Base(tables, k), |tables[k].cols|))
  }

  lemma FromPicked(tables: seq<Tables.Table>, ixs: seq<nat>, k: nat, q: nat)
    requires k < |tables| && q < |Picked(tables, ixs, k).cols|
    ensures var c := Picked(tables, ixs, k); AtTable(tables, ixs, k, c.ixs[q], c.cols[q], c.names[q])
  {
    var local := LocalIxs(ixs, Base(tables, k), |tables[k].cols|);
    var c := Tables.PickColumns(tables[k], local);
    PickedIxIn(tables[k], local, q);
    LocalIxsIff(ixs, Base(tables, k), |tables[k].cols|, c.ixs[q]);
  }

  lemma PickedIxIn(t: Tables.Table, local: seq<nat>, q: nat)
    requires q < |Tables.PickColumns(t, local).cols|
    ensures Tables.PickColumns(t, local).ixs[q] in local
  {
    var c := Tables.PickColumns(t, local);
    assert c.ixs[q] in c.ixs;
    Tables.PickColumnsIxs(t, local, c.ixs[q]);
  }

  /** Columns returned for the first k tables stay in place as more tables
      are visited. */
  lemma {:induction false} EnvColumnsPrefix(tables: seq<Tables.Table>, ixs: seq<nat>, k: nat, m: nat, p: nat)
    requires k <= m <= |tables| && p < |EnvColumns(tables, ixs, k).cols|
    ensures p < |EnvColumns(tables, ixs, m).cols|
    ensures EnvColumns(tables, ixs, m).ixs[p] == EnvColumns(tables, ixs, k).ixs[p]
    ensures EnvColumns(tables, ixs, m).cols[p] == EnvColumns(tables, ixs, k).cols[p]
    ensures EnvColumns(tables, ixs, m).names[p] == EnvColumns(tables, ixs, k).names[p]
  {
    if k < m {
      EnvColumnsPrefix(tables, ixs, k, m - 1, p);
      var prev := EnvColumns(tables, ixs, m - 1);
      var picked := Picked(tables, ixs, m - 1);
      var b := EnvColumns(tables, ixs, m);
      assert b.cols == prev.cols + picked.cols && b.ixs == prev.ixs + picked.ixs && b.names == prev.names + picked.names;
    }
  }

  /** Every asked-for global index g that falls in table t's range
      [Base, Base + ncols) of a table whose names and columns pair up
      brings column g - Base of that table. */
  lemma EnvColumnsComplete(tables: seq<Tables.Table>, ixs: seq<nat>, t: nat, g: nat)
    requires t < |tables| && |tables[t].names| == |tables[t].cols|
    requires g in ixs && Base(tables, t) <= g < Base(tables, t + 1)
    ensures var r := EnvColumns(tables, ixs, |tables|);
      exists p :: 0 <= p < |r.cols| && r.ixs[p] == g - Base(tables, t) && r.cols[p] == tables[t].cols[g - Base(tables, t)]
  {
    var l := g - Base(tables, t);
    var p := ColumnPosition(tables, ixs, t, l);
  }

  /** Where get_columns puts column l of table t, when it was asked for. */
  lemma ColumnPosition(tables: seq<Tables.Table>, ixs: seq<nat>, t: nat, l: nat) returns (p: nat)
    requires t < |tables| && |tables[t].names| == |tables[t].cols|
    requires l < |tables[t].cols| && Base(tables, t) + l in ixs
    ensures p < |EnvColumns(tables, ixs, |tables|).cols|
    ensures EnvColumns(tables, ixs, |tables|).ixs[p] == l
    ensures EnvColumns(tables, ixs, |tables|).cols[p] == tables[t].cols[l]
  {
    var q := PickedHas(tables, ixs, t, l);
    p := |EnvColumns(tables, ixs, t).cols| + q;
    EnvColumnsAt(tables, ixs, t, q);
    EnvColumnsPrefix(tables, ixs, t + 1, |tables|, p);
  }

  /** A local index of table t that was asked for is among the columns taken. */
  lemma PickedHas(tables: seq<Tables.Table>, ixs: seq<nat>, t: nat, l: nat) returns (q: nat)
    requires t < |tables| && |tables[t].names| == |tables[t].cols|
    requires l < |tables[t].cols| && Base(tables, t) + l in ixs
    ensures q < |Picked(tables, ixs, t).cols| && Picked(tables, ixs, t).ixs[q] == l
    ensures Picked(tables, ixs, t).cols[q] == tables[t].cols[l]
  {
    LocalIxsIff(ixs, Base(tables, t), |tables[t].cols|, l);
    var picked := Picked(tables, ixs, t);
    Tables.PickColumnsIxs(tables[t], LocalIxs(ixs, Base(tables, t), |tables[t].cols|), l);
    q :| 0 <= q < |picked.ixs| && picked.ixs[q] == l;
  }

  // ---------------------------------------------------------------------
  // Saved function calls

  /** The calls execute_saved_funcs replays: the Function entries after the
      last NewTables entry (Clear and Refresh entries do not stop it). */
  function SavedCalls(history: seq<EnvironmentUpdate>): (r: seq<FunctionCall>)
    ensures |r| <= |history|
  {
    if |history| == 0 then []
    else match history[|history| - 1]
      case NewTables(_) => []
      case Function(call, _) => SavedCalls(history[..|history| - 1]) + [call]
      case _ => SavedCalls(history[..|history| - 1])
  }

  /** execute_func on given tables: the function's answer, or why there is none. */
  function RunCall(reg: FuncRegistry, tables: seq<Tables.Table>, call: FunctionCall): (r: Result<Tables.Table>)
    ensures call.name !in reg.names ==> r == Err("Function " + call.name + " not in registry")
    ensures call.name in reg.names && call.name !in reg.loaded ==> r == Err("Error retrieving function")
    ensures r.Ok? ==> call.name in reg.names && call.name in reg.loaded
  {
    if call.name !in reg.names then Err("Function " + call.name + " not in registry")
    else if call.name !in reg.loaded then Err("Error retrieving function")
    else reg.loaded[call.name](EnvColumns(tables, call.source, |tables|), call.args)
  }

  /** A way of answering calls on given tables, as execute_func does. */
  type Runner = (seq<Tables.Table>, FunctionCall) -> Result<Tables.Table>

  /** execute_func's answers with a given registry. */
  function RunWith(reg: FuncRegistry): Runner
  {
    (tables: seq<Tables.Table>, call: FunctionCall) => RunCall(reg, tables, call)
  }

  datatype EnvState = EnvState(tables: seq<Tables.Table>, history: seq<EnvironmentUpdate>)

  /** The outcome of replaying calls one after another: the state reached
      and the first error, after which nothing more runs. `record` says
      whether each replayed call appends its Function entry, as execute_func
      does. */
  datatype Replayed = Replayed(st: EnvState, failure: Option<string>)

  function Replay(run: Runner, st: EnvState, calls: seq<FunctionCall>, record: bool): (r: Replayed)
  {
    if |calls| == 0 then Replayed(st, None)
    else
      var prev := Replay(run, st, calls[..|calls| - 1], record);
      var call := calls[|calls| - 1];
      if prev.failure.Some? then prev
      else match run(prev.st.tables, call)
        case Err(e) => Replayed(prev.st, Some(e))
        case Ok(t) =>
          Replayed(EnvState(prev.st.tables + [t], prev.st.history + if record then [Function(call, t.names)] else []), None)
  }

  /** A successful replay appends one table per call; recording it appends
      one Function entry per call, so the calls saved afterwards are the
      saved calls followed by the replayed ones, and without recording the
      history is left alone. */
  lemma {:induction false} ReplayAppends(run: Runner, st: EnvState, calls: seq<FunctionCall>, record: bool)
    ensures var r := Replay(run, st, calls, record);
      r.failure.None? ==>
        && |r.st.tables| == |st.tables| + |calls|
        && r.st.tables[..|st.tables|] == st.tables
        && (record ==> SavedCalls(r.st.history) == SavedCalls(st.history) + calls)
        && (!record ==> r.st.history == st.history)
  {
    if |calls| > 0 {
      var init := calls[..|calls| - 1];
      ReplayAppends(run, st, init, record);
      var prev := Replay(run, st, init, record);
      var r := Replay(run, st, calls, record);
      if r.failure.None? {
        var t := run(prev.st.tables, calls[|calls| - 1]).value;
        assert r.st.tables == prev.st.tables + [t];
        assert r.st.tables[..|st.tables|] == prev.st.tables[..|st.tables|];
        if record {
          var h := r.st.history;
          assert h == prev.st.history + [Function(calls[|calls| - 1], t.names)];
          assert h[..|h| - 1] == prev.st.history;
          assert init + [calls[|calls| - 1]] == calls;
        }
      }
    }
  }

  /** execute_saved_funcs on a state: a panic when there are fewer tables
      than saved calls to remove, otherwise the replay of the saved calls
      on the tables left after removing that many from the end. */
  function SavedFuncs(run: Runner, st: EnvState, record: bool): (r: Outcome<Replayed>)
    ensures r.Panic? <==> |st.tables| < |SavedCalls(st.history)|
  {
    var calls := SavedCalls(st.history);
    if |st.tables| < |calls| then Panic
    else Returned(Replay(run, EnvState(st.tables[..|st.tables| - |calls|], st.history), calls, record))
  }

  /** As written, a successful execute_saved_funcs records its calls once
      more, so the next one finds twice as many saved calls and removes
      twice as many tables as it put back. */
  lemma SavedFuncsTwiceAsWritten(run: Runner, st: EnvState)
    requires SavedFuncs(run, st, true).Returned? && SavedFuncs(run, st, true).value.failure.None?
    ensures var st2 := SavedFuncs(run, st, true).value.st;
      && |st2.tables| == |st.tables|
      && |SavedCalls(st2.history)| == 2 * |SavedCalls(st.history)|
  {
    var calls := SavedCalls(st.history);
    ReplayAppends(run, EnvState(st.tables[..|st.tables| - |calls|], st.history), calls, true);
  }

  /** Replaying without recording the calls again keeps the saved calls
      and the number of tables, so execute_saved_funcs can run again and
      removes exactly the tables the previous run appended. */
  lemma SavedFuncsRepeatable(run: Runner, st: EnvState)
    requires SavedFuncs(run, st, false).Returned? && SavedFuncs(run, st, false).value.failure.None?
    ensures var st2 := SavedFuncs(run, st, false).value.st;
      && st2.history == st.history
      && |st2.tables| == |st.tables|
      && st2.tables[..|st.tables| - |SavedCalls(st.history)|] == st.tables[..|st.tables| - |SavedCalls(st.history)|]
      && SavedFuncs(run, st2, false).Returned?
  {
    var calls := SavedCalls(st.history);
    ReplayAppends(run, EnvState(st.tables[..|st.tables| - |calls|], st.history), calls, false);
  }

  // ---------------------------------------------------------------------
  // The environment

  class TableEnvironment {
    var source: EnvironmentSource
    var engine: SqlEngine
    var tables: seq<Tables.Table>
    var lastUpdate: Option<string>
    var history: seq<EnvironmentUpdate>

    /** new: no tables, an inactive engine, and a history that starts with Clear. */
    constructor(src: EnvironmentSource)
      ensures source == src && engine == Inactive && tables == [] && lastUpdate == None && history == [Clear]
      ensures LastTableCols(history) == None && SavedCalls(history) == []
    {
      source := src;
      engine := Inactive;
      tables := [];
      lastUpdate := None;
      history := [Clear];
    }

    /** prepare_query: only a SQL source takes the query. */
    method PrepareQuery(sql: string)
      modifies this
      ensures source == WithQuery(old(source), sql)
      ensures engine == old(engine) && tables == old(tables) && history == old(history) && lastUpdate == old(lastUpdate)
    {
      match source {
        case PostgreSQLSource(conn, _) => source := PostgreSQLSource(conn, sql);
        case SQLite3Source(file, _) => source := SQLite3Source(file, sql);
        case _ =>
      }
    }

    /** The `!q.is_empty()` guard of update_source around
        prepare_and_send_query: the query is put into the current source
        and send_current_query hands that source's query to the listener,
        which fails, with the error only printed, for a source without one. */
    method PrepareAndSendQuery(q: string) returns (sent: Option<string>)
      modifies this
      ensures source == (if q == [] then old(source) else WithQuery(old(source), q))
      ensures sent == (if q != [] && QueryOf(old(source)).Some? then Some(q) else None)
      ensures engine == old(engine) && tables == old(tables) && history == old(history) && lastUpdate == old(lastUpdate)
    {
      sent := None;
      if q != [] {
        PrepareQuery(q);
        PrepareThenSend(old(source), q);
        sent := QueryOf(source);
      }
    }

    /** last_table_columns: the history searched from its end. */
    method LastTableColumns() returns (r: Option<seq<seq<string>>>)
      ensures r == LastTableCols(history)
    {
      var i := |history|;
      assert history[..i] == history;
      while i > 0
        invariant 0 <= i <= |history|
        invariant LastTableCols(history) == LastTableCols(history[..i])
      {
        assert history[..i][..i - 1] == history[..i - 1];
        match history[i - 1] {
          case NewTables(names) => return Some(names);
          case Clear => return None;
          case _ =>
        }
        i := i - 1;
      }
      return None;
    }

    /** maybe_update_from_query_results, given what the engine has sent back
        (None when no answer is waiting). */
    method MaybeUpdateFromQueryResults(pending: Option<seq<QueryResult>>) returns (r: Option<Result<EnvironmentUpdate>>)
      modifies this
      ensures pending.None? ==> r.None? && tables == old(tables) && history == old(history)
      ensures pending.Some? ==>
        var a := ApplyResults(old(history), pending.value);
        r == Some(a.answer) && tables == a.tables && history == old(history) + [a.pushed]
      ensures source == old(source) && engine == old(engine) && lastUpdate == old(lastUpdate)
    {
      if pending.None? {
        return None;
      }
      var results := pending.value;
      tables := [];
      if |results| == 0 {
        history := history + [Clear];
        return Some(Ok(Clear));
      }
      var newCols: seq<seq<string>> := [];
      var i := 0;
      while i < |results|
        invariant 0 <= i <= |results|
        invariant forall k :: 0 <= k < i ==> results[k].Valid?
        invariant |tables| == i && forall k :: 0 <= k < i ==> tables[k] == results[k].table
        invariant |newCols| == i && forall k :: 0 <= k < i ==> newCols[k] == results[k].table.names
        invariant history == old(history) && source == old(source) && engine == old(engine) && lastUpdate == old(lastUpdate)
      {
        match results[i] {
          case Valid(t) =>
            newCols := newCols + [t.names];
            tables := tables + [t];
          case Invalid(msg) =>
            tables := [];
            history := history + [Clear];
            return Some(Err(msg));
          case StatementDone(_) =>
            tables := [];
            history := history + [Clear];
            return Some(Ok(Clear));
        }
        i := i + 1;
      }
      assert newCols == NamesOf(results);
      var last := LastTableColumns();
      var update := ChooseUpdate(last, newCols);
      history := history + [update];
      return Some(Ok(update));
    }

    /** update_source: with `clear`, the tables go and a Clear is recorded;
        a file source is parsed into the only table; a SQL source installs
        the engine opened for it and, when its query is not empty, hands it
        to prepare_and_send_query. That call edits the source installed
        before, so `sent` is the query the listener receives: none when the
        previous source holds no query (the send error is only printed). */
    method UpdateSource(src: EnvironmentSource, clear: bool, world: SourceAnswers) returns (r: Result<()>, sent: Option<string>)
      modifies this
      ensures sent.Some? <==>
        (src.PostgreSQLSource? || src.SQLite3Source?) && world.connected.Ok? && src.query != [] && QueryOf(old(source)).Some?
      ensures sent.Some? ==> sent == QueryOf(src)
      ensures history == old(history) + (if clear then [Clear] else [])
      ensures clear ==> LastTableCols(history) == None
      ensures lastUpdate == old(lastUpdate)
      ensures src.FileSource? ==> engine == old(engine) && match world.stem
        case None => r == Err("Could not extract table name from path") && tables == [] && source == old(source)
        case Some(_) =>
          if world.parsed.Err? then r == Err("Error: " + world.parsed.msg) && tables == [] && source == old(source)
          else r == Ok(()) && tables == [world.parsed.value] && source == src
      ensures (src.PostgreSQLSource? || src.SQLite3Source?) ==>
        tables == (if clear then [] else old(tables))
        && if world.connected.Err? then r == Err(world.connected.msg) && engine == old(engine) && source == old(source)
           else r == Ok(()) && engine == world.connected.value && source == src
      ensures src.OtherSource? ==> r == Ok(()) && tables == (if clear then [] else old(tables)) && engine == old(engine) && source == src
    {
      sent := None;
      if clear {
        tables := [];
        history := history + [Clear];
        assert history[..|history| - 1] == old(history);
      }
      match src {
        case FileSource(path, content) =>
          tables := [];
          if world.stem.None? {
            return Err("Could not extract table name from path"), None;
          }
          if world.parsed.Err? {
            return Err("Error: " + world.parsed.msg), None;
          }
          tables := tables + [world.parsed.value];
        case PostgreSQLSource(_, q) =>
          if world.connected.Err? {
            return Err(world.connected.msg), None;
          }
          engine := world.connected.value;
          sent := PrepareAndSendQuery(q);
        case SQLite3Source(_, q) =>
          if world.connected.Err? {
            return Err(world.connected.msg), None;
          }
          engine := world.connected.value;
          sent := PrepareAndSendQuery(q);
        case OtherSource =>
      }
      source := src;
      return Ok(()), sent;
    }

    /** get_columns: global indices, counted from the first column of the
        first table, sent to the table whose range holds them. */
    method GetColumns(ixs: seq<nat>) returns (cs: Tables.Columns)
      ensures cs == EnvColumns(tables, ixs, |tables|)
    {
      cs := Tables.NoColumns;
      var base: nat := 0;
      var k := 0;
      while k < |tables|
        invariant 0 <= k <= |tables|
        invariant base == Base(tables, k)
        invariant cs == EnvColumns(tables, ixs, k)
      {
        var ncols := |tables[k].cols|;
        var local := LocalIxs(ixs, base, ncols);
        var picked := Tables.GetColumns(tables[k], local);
        cs := Tables.TakeAndExtend(cs, picked);
        base := base + ncols;
        k := k + 1;
      }
    }

    /** execute_func: the function runs on the columns it names; its table
        is appended and the call recorded. */
    method ExecuteFunc(reg: FuncRegistry, call: FunctionCall) returns (r: Result<Tables.Table>)
      modifies this
      ensures r == RunCall(reg, old(tables), call)
      ensures r.Ok? ==> tables == old(tables) + [r.value] && history == old(history) + [Function(call, r.value.names)]
      ensures r.Err? ==> tables == old(tables) && history == old(history)
      ensures source == old(source) && engine == old(engine) && lastUpdate == old(lastUpdate)
    {
      if call.name !in reg.names {
        return Err("Function " + call.name + " not in registry");
      }
      if call.name !in reg.loaded {
        return Err("Error retrieving function");
      }
      var f := reg.loaded[call.name];
      var columns := GetColumns(call.source);
      r := f(columns, call.args);
      if r.Ok? {
        tables := tables + [r.value];
        history := history + [Function(call, r.value.names)];
      }
    }

    /** execute_saved_funcs: remove one table per saved call from the end,
        then run the saved calls again, stopping at the first error; on
        success, the tables the calls produced. */
    method ExecuteSavedFuncs(reg: FuncRegistry) returns (r: Outcome<Result<seq<Tables.Table>>>)
      modifies this
      ensures var spec := SavedFuncs(RunWith(reg), EnvState(old(tables), old(history)), true);
        && (r.Panic? <==> spec.Panic?)
        && (spec.Returned? ==>
              && tables == spec.value.st.tables && history == spec.value.st.history
              && (spec.value.failure.Some? ==> r == Returned(Err(spec.value.failure.value)))
              && (spec.value.failure.None? ==>
                    |tables| >= |SavedCalls(old(history))|
                    && r == Returned(Ok(tables[|tables| - |SavedCalls(old(history))|..]))))
      ensures source == old(source) && engine == old(engine) && lastUpdate == old(lastUpdate)
    {
      var fns := SavedCalls(history);
      var n := |fns|;
      var removed := RemoveLast(n);
      if !removed {
        return Panic;
      }
      ghost var base := EnvState(tables, history);
      var failure := ReplayCalls(reg, fns);
      if failure.Some? {
        return Returned(Err(failure.value));
      }
      ReplayAppends(RunWith(reg), base, fns, true);
      return Returned(Ok(tables[|tables| - n..]));
    }

    /** The removal loop of execute_saved_funcs: n tables go from the end,
        one at a time; there is a panic when the tables run out first. */
    method RemoveLast(n: nat) returns (ok: bool)
      modifies this
      ensures ok <==> n <= |old(tables)|
      ensures ok ==> tables == old(tables)[..|old(tables)| - n]
      ensures history == old(history) && source == old(source) && engine == old(engine) && lastUpdate == old(lastUpdate)
    {
      var i := 0;
      while i < n
        invariant 0 <= i <= n && i <= |old(tables)|
        invariant tables == old(tables)[..|old(tables)| - i]
        invariant history == old(history) && source == old(source) && engine == old(engine) && lastUpdate == old(lastUpdate)
      {
        if |tables| == 0 {
          return false;
        }
        tables := tables[..|tables| - 1];
        i := i + 1;
      }
      return true;
    }

    /** The replay loop of execute_saved_funcs: each call through
        execute_func, stopping at the first error. */
    method ReplayCalls(reg: FuncRegistry, fns: seq<FunctionCall>) returns (failure: Option<string>)
      modifies this
      ensures Replay(RunWith(reg), EnvState(old(tables), old(history)), fns, true) == Replayed(EnvState(tables, history), failure)
      ensures source == old(source) && engine == old(engine) && lastUpdate == old(lastUpdate)
    {
      ghost var base := EnvState(tables, history);
      var j := 0;
      while j < |fns|
        invariant 0 <= j <= |fns|
        invariant Replay(RunWith(reg), base, fns[..j], true) == Replayed(EnvState(tables, history), None)
        invariant source == old(source) && engine == old(engine) && lastUpdate == old(lastUpdate)
      {
        assert fns[..j + 1][..j] == fns[..j];
        var res := ExecuteFunc(reg, fns[j]);
        if res.Err? {
          ReplayStops(RunWith(reg), base, fns, j + 1);
          return Some(res.msg);
        }
        j := j + 1;
      }
      assert fns[..j] == fns;
      return None;
    }
  }

  /** After the first error a replay does nothing more. */
  lemma {:induction false} ReplayStops(run: Runner, st: EnvState, calls: seq<FunctionCall>, j: nat)
    requires j <= |calls| && Replay(run, st, calls[..j], true).failure.Some?
    ensures Replay(run, st, calls, true) == Replay(run, st, calls[..j], true)
  {
    if j < |calls| {
      assert calls[..|calls| - 1][..j] == calls[..j];
      ReplayStops(run, st, calls[..|calls| - 1], j);
    } else {
      assert calls[..j] == calls;
    }
  }
}
