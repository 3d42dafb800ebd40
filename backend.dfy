/** backend.py's `Storage`: the older statement code that storage.py's
    `MealStorage` builds on. Each of `select`, `insert`, `delete` and `update`
    builds its text and binds inline and hands them to `_execute`, which runs
    them on the database (here the in-memory engine). The texts are those of
    sql_storage.py with three differences: an empty column list is not
    replaced by `*`; `insert` passes `'\n'.join` of its SQL string, which puts
    a newline between every two characters; and `update` calls `self.execute`,
    which the class does not define. */
module Backend {
  import opened Values
  import opened Conditions
  import opened Statements
  import opened Engine

  /** The first line of a select: the columns as given. */
  function SelectLine(table: string, columns: seq<string>): string
  {
    "SELECT " + Join(", ", columns) + " FROM " + table + " WHERE 1 = 1"
  }

  /** What `select(table, columns, conds)` hands to `_execute`. */
  function SelectPrep(table: string, columns: seq<string>, conds: seq<Condition>): Prep
  {
    Prep(Join("\n", [SelectLine(table, columns)] + CondLines(conds)), Rvals(conds), ZipRows)
  }

  /** Python's `'\n'.join(s)` for a string `s`: its characters, one per line. */
  function Spread(s: string): string
  {
    Join("\n", seq(|s|, i requires 0 <= i < |s| => [s[i]]))
  }

  /** What `insert(table, dic)` hands to `_execute`, as written. */
  function InsertAsWrittenPrep(table: string, dic: Dict): Prep
  {
    var (columns, bind) := KeysValues(dic);
    Prep(Spread(InsertText(table, columns)), bind, LastRowId)
  }

  /** The result of an `_execute` whose value is dropped: nothing, or the
      exception it raised. */
  function Raised(r: Result<Cursor, Error>): (e: Option<Error>)
    ensures e.Some? <==> r.Err?
    ensures e.Some? ==> e.value == r.error
  {
    if r.Err? then Some(r.error) else None
  }

  // ---------------------------------------------------------------------------
  // Properties of the texts

  lemma SelectLineQ(table: string, columns: seq<string>)
    requires NoQ(table) && AllNoQ(columns)
    ensures CountQ(SelectLine(table, columns)) == 0
  {
    NameListQ(columns);
    SelectWordsQ();
    Q5("SELECT ", Join(", ", columns), " FROM ", table, " WHERE 1 = 1");
    CountQNone(table);
  }

  /** With columns, backend's select is sql_storage's, text, binds and result
      function; with none, its text has an empty select list where
      sql_storage's reads `*`. Either way the binds are sql_storage's: the
      `rval`s in condition order. */
  lemma SelectAgrees(table: string, columns: seq<string>, conds: seq<Condition>)
    ensures |columns| > 0 ==> SelectPrep(table, columns, conds) == PrepSelect(table, columns, conds)
    ensures |columns| == 0 ==>
              && SelectPrep(table, columns, conds).sql[..13] == "SELECT  FROM "
              && SelectPrep(table, columns, conds).sql != PrepSelect(table, columns, conds).sql
    ensures SelectPrep(table, columns, conds).bind == PrepSelect(table, columns, conds).bind
  {
    if |columns| == 0 {
      SelectWithoutColumns(table, conds);
    }
  }

  /** The select text holds one `?` per bind value, columns or not. */
  lemma SelectPlaceholdersAsWritten(table: string, columns: seq<string>, conds: seq<Condition>)
    requires NoQ(table) && AllNoQ(columns) && CondsNoQ(conds)
    ensures CountQ(SelectPrep(table, columns, conds).sql) == |SelectPrep(table, columns, conds).bind|
  {
    SelectLineQ(table, columns);
    StatementQ(SelectLine(table, columns), conds);
  }

  lemma SelectWithoutColumns(table: string, conds: seq<Condition>)
    ensures SelectPrep(table, [], conds).sql[..13] == "SELECT  FROM "
    ensures SelectPrep(table, [], conds).sql[7] == ' ' && PrepSelect(table, [], conds).sql[7] == '*'
  {
    var head, star := SelectLine(table, []), SelectHead(table, []);
    JoinHead("\n", head, CondLines(conds));
    JoinHead("\n", star, CondLines(conds));
    assert Join(", ", ["*"]) == "*";
    assert head[..13] == "SELECT  FROM ";
    assert star[..9] == "SELECT * ";
  }

  /** A spread text of two or more characters has a newline at position 1
      and keeps every character at an even position. */
  lemma {:induction false} SpreadShape(s: string)
    ensures |s| > 0 ==> |Spread(s)| == 2 * |s| - 1
    ensures forall i :: 0 <= i < |s| ==> 2 * i < |Spread(s)| && Spread(s)[2 * i] == s[i]
    ensures |s| >= 2 ==> Spread(s)[1] == '\n'
    decreases |s|
  {
    if |s| >= 2 {
      var parts := seq(|s|, i requires 0 <= i < |s| => [s[i]]);
      var rest := seq(|s| - 1, i requires 0 <= i < |s| - 1 => [s[1..][i]]);
      assert parts[1..] == rest;
      SpreadShape(s[1..]);
      assert Spread(s) == [s[0]] + "\n" + Spread(s[1..]);
      forall i | 0 <= i < |s|
        ensures 2 * i < |Spread(s)| && Spread(s)[2 * i] == s[i]
      {
        if i > 0 {
          assert Spread(s)[2 * i] == Spread(s[1..])[2 * (i - 1)];
          assert s[1..][i - 1] == s[i];
        }
      }
    } else if |s| == 1 {
      assert Spread(s) == [s[0]];
    }
  }

  /** As written, every insert is refused: the spread text is not an
      INSERT statement (its second character is a newline, not the `N` of
      `INSERT`), so the engine raises a syntax error and stores nothing. */
  lemma InsertAsWrittenRefused(db: Db, table: string, dic: Dict)
    ensures Run(db, InsertAsWrittenPrep(table, dic), Insert(table, dic))
         == (db, Err(SyntaxError(InsertAsWrittenPrep(table, dic).sql)))
  {
    var text := InsertText(table, Keys(dic));
    assert text[..12] == "INSERT INTO ";
    SpreadShape(text);
    assert Prepare(Insert(table, dic)).sql == text;
    assert Spread(text)[1] != text[1];
  }

  // ---------------------------------------------------------------------------
  // The storage object

  class Storage {
    /** What `_execute` runs statements on; the connection string is not
        modelled. */
    const engine: MemoryEngine

    constructor (engine: MemoryEngine)
      ensures this.engine == engine
    {
      this.engine := engine;
    }

    /** `select(table, columns, conds)`: the rows of sql_storage's select when
        there are columns; with none, a syntax error. Nothing changes. */
    method Select(table: string, columns: seq<string>, conds: seq<Condition>) returns (r: Result<Outcome, Error>)
      modifies engine
      ensures engine.sent == old(engine.sent) + [SelectPrep(table, columns, conds)]
      ensures engine.db == old(engine.db)
      ensures |columns| > 0 ==> r == Finish(Exec(old(engine.db), Statement.Select(table, columns, conds)).1, ZipRows)
      ensures |columns| == 0 ==> r == Err(SyntaxError(SelectPrep(table, columns, conds).sql))
    {
      SelectAgrees(table, columns, conds);
      r := engine.Execute(SelectPrep(table, columns, conds), Statement.Select(table, columns, conds));
      if |columns| > 0 {
        RunPrepared(old(engine.db), Statement.Select(table, columns, conds));
      }
    }

    /** `insert(table, dic)` as written: always a syntax error, nothing
        stored. */
    method InsertAsWritten(table: string, dic: Dict) returns (r: Result<Outcome, Error>)
      modifies engine
      ensures engine.sent == old(engine.sent) + [InsertAsWrittenPrep(table, dic)]
      ensures engine.db == old(engine.db)
      ensures r == Err(SyntaxError(InsertAsWrittenPrep(table, dic).sql))
    {
      InsertAsWrittenRefused(engine.db, table, dic);
      r := engine.Execute(InsertAsWrittenPrep(table, dic), Statement.Insert(table, dic));
    }

    /** `insert(table, dic)` with the text passed whole, as sql_storage.py
        does: the new row's rowid. */
    method Insert(table: string, dic: Dict) returns (r: Result<Outcome, Error>)
      modifies engine
      ensures engine.sent == old(engine.sent) + [PrepInsert(table, dic)]
      ensures engine.db == Exec(old(engine.db), Statement.Insert(table, dic)).0
      ensures r == Finish(Exec(old(engine.db), Statement.Insert(table, dic)).1, LastRowId)
    {
      r := engine.Execute(PrepInsert(table, dic), Statement.Insert(table, dic));
      RunPrepared(old(engine.db), Statement.Insert(table, dic));
    }

    /** `delete(table, conds)`: the rows matching every condition go; the
        method returns nothing, only the error it raises. */
    method Delete(table: string, conds: seq<Condition>) returns (err: Option<Error>)
      modifies engine
      ensures engine.sent == old(engine.sent) + [PrepDelete(table, conds)]
      ensures engine.db == Exec(old(engine.db), Statement.Delete(table, conds)).0
      ensures err == Raised(Exec(old(engine.db), Statement.Delete(table, conds)).1)
    {
      var r := engine.Execute(PrepDelete(table, conds), Statement.Delete(table, conds));
      RunPrepared(old(engine.db), Statement.Delete(table, conds));
      err := if r.Err? then Some(r.error) else None;
    }

    /** `update(table, dic, conds)` as written: the text and binds are built,
        then reading `self.execute` raises AttributeError before anything
        reaches the database. */
    method UpdateAsWritten(table: string, dic: Dict, conds: seq<Condition>) returns (r: Result<Outcome, Error>)
      ensures r == Err(AttributeError("execute"))
    {
      var _ := PrepUpdate(table, dic, conds);
      r := Err(AttributeError("execute"));
    }

    /** `update(table, dic, conds)` calling `_execute`: sql_storage's update,
        SET values bound before condition values. */
    method Update(table: string, dic: Dict, conds: seq<Condition>) returns (r: Result<Outcome, Error>)
      modifies engine
      ensures engine.sent == old(engine.sent) + [PrepUpdate(table, dic, conds)]
      ensures engine.db == Exec(old(engine.db), Statement.Update(table, dic, conds)).0
      ensures r == Finish(Exec(old(engine.db), Statement.Update(table, dic, conds)).1, NoResultFn)
    {
      r := engine.Execute(PrepUpdate(table, dic, conds), Statement.Update(table, dic, conds));
      RunPrepared(old(engine.db), Statement.Update(table, dic, conds));
    }
  }
}
