/** `SQLStorage` (sql_storage.py): builds each statement and hands exactly the
    prepared `(sql, bind, get_result)` to the engine, returning what the engine
    returns. */
module SqlStorage {
  import opened Values
  import opened Conditions
  import opened Statements
  import opened Engine

  class SQLStorage {
    const engine: MemoryEngine

    constructor (engine: MemoryEngine)
      ensures this.engine == engine
    {
      this.engine := engine;
    }

    /** `execute_ddl(ddl)`: forwarded unchanged. */
    method ExecuteDdl(ddl: seq<Ddl>) returns (err: Option<Error>)
      modifies engine
      ensures (engine.db, err) == ApplyAll(old(engine.db), ddl)
      ensures engine.sent == old(engine.sent)
    {
      err := engine.ExecuteDdl(ddl);
    }

    /** `select(table, columns, conds)`: the prepared select goes to the engine,
        and its rows come back; the database does not change. */
    method Select(table: string, columns: seq<string>, conds: seq<Condition>) returns (r: Result<Outcome, Error>)
      modifies engine
      ensures engine.sent == old(engine.sent) + [PrepSelect(table, columns, conds)]
      ensures (engine.db, r) == Run(old(engine.db), PrepSelect(table, columns, conds), Statement.Select(table, columns, conds))
      ensures engine.db == old(engine.db)
      ensures r == Finish(Exec(old(engine.db), Statement.Select(table, columns, conds)).1, ZipRows)
    {
      r := engine.Execute(PrepSelect(table, columns, conds), Statement.Select(table, columns, conds));
      RunPrepared(old(engine.db), Statement.Select(table, columns, conds));
    }

    /** `insert(table, dic)`: the prepared insert goes to the engine; the result
        is the new row's rowid. */
    method Insert(table: string, dic: Dict) returns (r: Result<Outcome, Error>)
      modifies engine
      ensures engine.sent == old(engine.sent) + [PrepInsert(table, dic)]
      ensures (engine.db, r) == Run(old(engine.db), PrepInsert(table, dic), Statement.Insert(table, dic))
      ensures engine.db == Exec(old(engine.db), Statement.Insert(table, dic)).0
      ensures r == Finish(Exec(old(engine.db), Statement.Insert(table, dic)).1, LastRowId)
    {
      r := engine.Execute(PrepInsert(table, dic), Statement.Insert(table, dic));
      RunPrepared(old(engine.db), Statement.Insert(table, dic));
    }

    /** `delete(table, conds)`. */
    method Delete(table: string, conds: seq<Condition>) returns (r: Result<Outcome, Error>)
      modifies engine
      ensures engine.sent == old(engine.sent) + [PrepDelete(table, conds)]
      ensures (engine.db, r) == Run(old(engine.db), PrepDelete(table, conds), Statement.Delete(table, conds))
      ensures engine.db == Exec(old(engine.db), Statement.Delete(table, conds)).0
      ensures r == Finish(Exec(old(engine.db), Statement.Delete(table, conds)).1, NoResultFn)
    {
      r := engine.Execute(PrepDelete(table, conds), Statement.Delete(table, conds));
      RunPrepared(old(engine.db), Statement.Delete(table, conds));
    }

    /** `update(table, dic, conds)`. */
    method Update(table: string, dic: Dict, conds: seq<Condition>) returns (r: Result<Outcome, Error>)
      modifies engine
      ensures engine.sent == old(engine.sent) + [PrepUpdate(table, dic, conds)]
      ensures (engine.db, r) == Run(old(engine.db), PrepUpdate(table, dic, conds), Statement.Update(table, dic, conds))
      ensures engine.db == Exec(old(engine.db), Statement.Update(table, dic, conds)).0
      ensures r == Finish(Exec(old(engine.db), Statement.Update(table, dic, conds)).1, NoResultFn)
    {
      r := engine.Execute(PrepUpdate(table, dic, conds), Statement.Update(table, dic, conds));
      RunPrepared(old(engine.db), Statement.Update(table, dic, conds));
    }
  }
}
