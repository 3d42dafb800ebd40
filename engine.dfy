/** An in-memory stand-in for the sqlite connection that `engine.execute` and
    `engine.execute_ddl` drive (sqlite3_engine.py). The engine does not parse
    SQL: it is handed the structured statement alongside the text and accepts
    the text only when it is exactly the builder's rendering of that statement.
    Tables hold rows in insertion order; the INTEGER PRIMARY KEY column is the
    rowid, assigned as one more than the largest rowid in use when the row does
    not supply one. */
module Engine {
  import opened Values
  import opened Conditions
  import opened Statements

  /** A column other than the rowid: its name, NOT NULL, and its DEFAULT
      (Null when the column declares none). */
  datatype Column = Column(name: string, notNull: bool, default: Value)

  type Row = map<string, Value>

  /** `key` names the INTEGER PRIMARY KEY column, which precedes `columns`. */
  datatype Table = Table(key: string, columns: seq<Column>, rows: seq<Row>)

  datatype Db = Db(tables: map<string, Table>)

  /** The statements `execute_ddl` runs, in structured form. */
  datatype Ddl =
    | CreateTable(name: string, key: string, columns: seq<Column>)
    | DropTable(name: string)
    | DeleteAll(name: string)

  // ---------------------------------------------------------------------------
  // Tables and rows

  function ColumnNames(cols: seq<Column>): (ns: seq<string>)
    ensures |ns| == |cols|
  {
    seq(|cols|, i requires 0 <= i < |cols| => cols[i].name)
  }

  /** Every column of a table, in declaration order, the rowid first. */
  function Names(t: Table): seq<string>
  {
    [t.key] + ColumnNames(t.columns)
  }

  function Get(r: Row, c: string): Value
  {
    if c in r then r[c] else Null
  }

  function KeyOf(t: Table, r: Row): int
  {
    var v := Get(r, t.key);
    if v.Int? then v.i else 0
  }

  /** Every row has an integer rowid and no two rows share one. */
  ghost predicate RowsOk(t: Table, rows: seq<Row>)
  {
    && (forall i :: 0 <= i < |rows| ==> Get(rows[i], t.key).Int?)
    && (forall i, j :: 0 <= i < j < |rows| ==> KeyOf(t, rows[i]) != KeyOf(t, rows[j]))
  }

  ghost predicate TableOk(t: Table)
  {
    RowsOk(t, t.rows)
  }

  /** The default of the first column named `c`, Null for the rowid. */
  function DefaultOf(cols: seq<Column>, c: string): Value
  {
    if |cols| == 0 then Null
    else if cols[0].name == c then cols[0].default
    else DefaultOf(cols[1..], c)
  }

  /** The first NOT NULL column that holds Null in `r`. */
  function NullColumn(cols: seq<Column>, r: Row): (c: Option<string>)
    ensures c.None? <==> forall i :: 0 <= i < |cols| && cols[i].notNull ==> !Get(r, cols[i].name).Null?
  {
    if |cols| == 0 then None
    else if cols[0].notNull && Get(r, cols[0].name).Null? then Some(cols[0].name)
    else NullColumn(cols[1..], r)
  }

  /** One more than the largest rowid in use, 1 for an empty table. */
  function NextKey(t: Table, rows: seq<Row>): (k: int)
    ensures k >= 1
    ensures forall i :: 0 <= i < |rows| ==> KeyOf(t, rows[i]) < k
  {
    if |rows| == 0 then 1
    else
      var rest := NextKey(t, rows[1..]);
      var here := KeyOf(t, rows[0]) + 1;
      if here > rest then here else rest
  }

  // ---------------------------------------------------------------------------
  // Comparisons

  predicate Numeric(v: Value)
  {
    v.Int? || v.Real?
  }

  function Num(v: Value): real
    requires Numeric(v)
  {
    if v.Int? then v.i as real else v.r
  }

  /** sqlite's `=` on two non-NULL values: numbers by value, text exactly. */
  predicate SameValue(a: Value, b: Value)
  {
    (Numeric(a) && Numeric(b) && Num(a) == Num(b)) || (a.Text? && b.Text? && a.s == b.s)
  }

  /** Text ordering of the BINARY collation: lexicographic by code point. */
  predicate TextLess(a: string, b: string)
  {
    if |a| == 0 then |b| > 0
    else |b| > 0 && (a[0] < b[0] || (a[0] == b[0] && TextLess(a[1..], b[1..])))
  }

  /** sqlite's `<` on two non-NULL values: numbers by value, every number
      before every text, text by code point. */
  predicate Less(a: Value, b: Value)
  {
    if Numeric(a) && Numeric(b) then Num(a) < Num(b)
    else if Numeric(a) then b.Text?
    else a.Text? && b.Text? && TextLess(a.s, b.s)
  }

  function Fold(c: char): char
  {
    if 'A' <= c <= 'Z' then (c as int + 32) as char else c
  }

  /** LIKE: `%` matches any run of characters, `_` any one character, other
      characters match up to ASCII case. */
  predicate LikeMatch(p: string, s: string)
    decreases |p| + |s|
  {
    if |p| == 0 then |s| == 0
    else if p[0] == '%' then LikeMatch(p[1..], s) || (|s| > 0 && LikeMatch(p, s[1..]))
    else |s| > 0 && (p[0] == '_' || Fold(p[0]) == Fold(s[0])) && LikeMatch(p[1..], s[1..])
  }

  /** `%` alone matches every text. */
  lemma {:induction false} LikePercent(s: string)
    ensures LikeMatch("%", s)
  {
    assert "%"[1..] == "";
    if |s| > 0 {
      LikePercent(s[1..]);
    }
  }

  /** A pattern without wildcards matches exactly the texts equal to it up to
      ASCII case. */
  lemma {:induction false} LikeLiteral(p: string, s: string)
    requires '%' !in p && '_' !in p
    ensures LikeMatch(p, s) <==> |p| == |s| && forall i :: 0 <= i < |p| ==> Fold(p[i]) == Fold(s[i])
    decreases |p|
  {
    if |p| > 0 && |s| > 0 {
      assert '%' !in p[1..] && '_' !in p[1..] by {
        forall i | 0 <= i < |p[1..]| ensures p[1..][i] == p[i + 1] { }
      }
      LikeLiteral(p[1..], s[1..]);
      if LikeMatch(p, s) {
        forall i | 0 <= i < |p| ensures Fold(p[i]) == Fold(s[i]) {
          if i > 0 { assert p[i] == p[1..][i - 1] && s[i] == s[1..][i - 1]; }
        }
      }
      if |p| == |s| && forall i :: 0 <= i < |p| ==> Fold(p[i]) == Fold(s[i]) {
        forall i | 0 <= i < |p[1..]| ensures Fold(p[1..][i]) == Fold(s[1..][i]) {
          assert p[1..][i] == p[i + 1] && s[1..][i] == s[i + 1];
        }
      }
    }
  }

  /** `AND lval op ?` with `rval` bound: true only when the comparison is true;
      a comparison with NULL is never true. */
  predicate Holds(r: Row, c: Condition)
  {
    var l := Get(r, c.lval);
    if c.op == "=" then SameValue(l, c.rval)
    else if c.op == "!=" then (Numeric(l) || l.Text?) && (Numeric(c.rval) || c.rval.Text?) && !SameValue(l, c.rval)
    else if c.op == "<" then Less(l, c.rval)
    else if c.op == ">" then Less(c.rval, l)
    else if c.op == "like" then l.Text? && c.rval.Text? && LikeMatch(c.rval.s, l.s)
    else false
  }

  predicate AllHold(r: Row, conds: seq<Condition>)
  {
    forall i :: 0 <= i < |conds| ==> Holds(r, conds[i])
  }

  /** The rows the WHERE clause selects, in table order. */
  function Matching(rows: seq<Row>, conds: seq<Condition>): seq<Row>
  {
    if |rows| == 0 then []
    else (if AllHold(rows[0], conds) then [rows[0]] else []) + Matching(rows[1..], conds)
  }

  /** The rows a DELETE with this WHERE clause keeps, in table order. */
  function Unmatched(rows: seq<Row>, conds: seq<Condition>): seq<Row>
  {
    if |rows| == 0 then []
    else (if AllHold(rows[0], conds) then [] else [rows[0]]) + Unmatched(rows[1..], conds)
  }

  // ---------------------------------------------------------------------------
  // Name resolution

  /** The select list with every `*` expanded to all columns; no columns at
      all renders as `*`. */
  function Expand(cols: seq<string>, names: seq<string>): seq<string>
  {
    if |cols| == 0 then []
    else (if cols[0] == "*" then names else [cols[0]]) + Expand(cols[1..], names)
  }

  function Projection(t: Table, cols: seq<string>): seq<string>
  {
    Expand(if |cols| == 0 then ["*"] else cols, Names(t))
  }

  function Fetch(r: Row, proj: seq<string>): (vals: seq<Value>)
    ensures |vals| == |proj|
  {
    seq(|proj|, i requires 0 <= i < |proj| => Get(r, proj[i]))
  }

  function FetchAll(rows: seq<Row>, proj: seq<string>): (vals: seq<seq<Value>>)
    ensures |vals| == |rows|
  {
    seq(|rows|, i requires 0 <= i < |rows| => Fetch(rows[i], proj))
  }

  /** The first name that is not a column. */
  function Unknown(cols: seq<string>, names: seq<string>): (u: Option<string>)
    ensures u.None? <==> forall i :: 0 <= i < |cols| ==> cols[i] in names
    ensures u.Some? ==> u.value in cols && u.value !in names
  {
    if |cols| == 0 then None
    else if cols[0] !in names then Some(cols[0])
    else Unknown(cols[1..], names)
  }

  function Lvals(conds: seq<Condition>): (ls: seq<string>)
    ensures |ls| == |conds|
  {
    seq(|conds|, i requires 0 <= i < |conds| => conds[i].lval)
  }

  /** The first operator that is not one of `=`, `!=`, `<`, `>`, `like`. */
  function BadOp(ops: seq<string>): (o: Option<string>)
    ensures o.None? <==> forall i :: 0 <= i < |ops| ==> ops[i] in HelperOps
  {
    if |ops| == 0 then None
    else if ops[0] !in HelperOps then Some(ops[0])
    else BadOp(ops[1..])
  }

  function Ops(conds: seq<Condition>): (os: seq<string>)
    ensures |os| == |conds|
  {
    seq(|conds|, i requires 0 <= i < |conds| => conds[i].op)
  }

  function CondsOf(s: Statement): seq<Condition>
  {
    match s
    case Select(_, _, c) => c
    case Insert(_, _) => []
    case Delete(_, c) => c
    case Update(_, _, c) => c
  }

  /** The text of an insert or an update with no column, spelled out. */
  function EmptyText(s: Statement): string
  {
    match s
    case Insert(t, _) => "INSERT INTO " + t + "() VALUES()"
    case Update(t, _, c) => "UPDATE " + t + " SET  WHERE 1 = 1" + Prefixed("\n", CondLines(c))
    case _ => ""
  }

  lemma EmptyTextPrepared(s: Statement)
    requires (s.Insert? || s.Update?) && |s.dic| == 0
    ensures EmptyText(s) == Prepare(s).sql
  {
    if s.Insert? {
      EmptyInsertText(s.table);
    } else {
      EmptyUpdateText(s.table, s.conds);
    }
  }

  lemma EmptyInsertText(t: string)
    ensures "INSERT INTO " + t + "() VALUES()" == PrepInsert(t, []).sql
  {
    assert Join(", ", []) == "" && Placeholders(0) == "";
    assert Keys([]) == [];
  }

  lemma EmptyUpdateText(t: string, c: seq<Condition>)
    ensures "UPDATE " + t + " SET  WHERE 1 = 1" + Prefixed("\n", CondLines(c)) == PrepUpdate(t, [], c).sql
  {
    assert SetItems([]) == [] && Join(", ", []) == "" && Keys([]) == [];
    assert UpdateHead(t, []) == "UPDATE " + t + " SET  WHERE 1 = 1";
    JoinHead("\n", UpdateHead(t, []), CondLines(c));
  }


  /** What preparing the statement reports, before anything is bound: a text
      sqlite cannot parse (an empty column list, an unknown operator), then an
      unknown table, then unknown columns in the order they appear. */
  function Problem(db: Db, s: Statement): (e: Option<Error>)
    ensures e.None? ==> s.table in db.tables
  {
    if (s.Insert? || s.Update?) && |s.dic| == 0 then Some(SyntaxError(EmptyText(s)))
    else if BadOp(Ops(CondsOf(s))).Some? then Some(UnknownOperator(BadOp(Ops(CondsOf(s))).value))
    else if s.table !in db.tables then Some(NoSuchTable(s.table))
    else
      var names := Names(db.tables[s.table]);
      var used := match s
        case Select(_, cols, _) => Projection(db.tables[s.table], cols)
        case Insert(_, d) => Keys(d)
        case Delete(_, _) => []
        case Update(_, d, _) => Keys(d);
      if Unknown(used, names).Some? then Some(NoSuchColumn(Unknown(used, names).value))
      else if Unknown(Lvals(CondsOf(s)), names).Some? then Some(NoSuchColumn(Unknown(Lvals(CondsOf(s)), names).value))
      else None
  }

  // ---------------------------------------------------------------------------
  // Binding

  /** How many values the statement binds: one per `?`. */
  function Slots(s: Statement): nat
  {
    match s
    case Select(_, _, c) => |c|
    case Insert(_, d) => |d|
    case Delete(_, c) => |c|
    case Update(_, d, c) => |d| + |c|
  }

  /** The values a statement binds, in placeholder order: what its prepared
      form binds, without building the text. */
  function Binds(s: Statement): seq<Value>
  {
    match s
    case Select(_, _, c) => Rvals(c)
    case Insert(_, d) => KeysValues(d).1
    case Delete(_, c) => Rvals(c)
    case Update(_, d, c) => KeysValues(d).1 + Rvals(c)
  }

  lemma BindsPrepared(s: Statement)
    ensures Prepare(s).bind == Binds(s)
  {
  }

  function WithRvals(conds: seq<Condition>, vals: seq<Value>): seq<Condition>
    requires |vals| == |conds|
  {
    seq(|conds|, i requires 0 <= i < |conds| => Condition(conds[i].op, conds[i].lval, vals[i]))
  }

  function WithValues(d: Dict, vals: seq<Value>): Dict
    requires |vals| == |d|
  {
    seq(|d|, i requires 0 <= i < |d| => (d[i].0, vals[i]))
  }

  /** The statement with the bound values in place of its own, in placeholder
      order. */
  function Rebind(s: Statement, vals: seq<Value>): Statement
    requires |vals| == Slots(s)
  {
    match s
    case Select(t, cols, c) => Select(t, cols, WithRvals(c, vals))
    case Insert(t, d) => Insert(t, WithValues(d, vals))
    case Delete(t, c) => Delete(t, WithRvals(c, vals))
    case Update(t, d, c) => Update(t, WithValues(d, vals[..|d|]), WithRvals(c, vals[|d|..]))
  }

  /** The position of the first value sqlite cannot bind (a nested list). */
  function Unsupported(vals: seq<Value>): (k: Option<nat>)
    ensures k.None? <==> forall i :: 0 <= i < |vals| ==> !vals[i].Nested?
    ensures k.Some? ==> k.value < |vals| && vals[k.value].Nested?
  {
    if |vals| == 0 then None
    else if vals[0].Nested? then Some(0)
    else match Unsupported(vals[1..])
      case None => None
      case Some(k) => Some(k + 1)
  }

  // ---------------------------------------------------------------------------
  // Running a statement

  /** The row an INSERT builds: the given values, the defaults elsewhere. */
  function NewRow(t: Table, dic: Dict): Row
  {
    map c | c in Names(t) :: if c in Keys(dic) then Lookup(dic, c).value else DefaultOf(t.columns, c)
  }

  predicate KeyUsed(t: Table, k: int)
  {
    exists i :: 0 <= i < |t.rows| && Get(t.rows[i], t.key) == Int(k)
  }

  /** The rowid of an inserted row: the one given, or the next free one. */
  function NewKey(t: Table, dic: Dict): int
  {
    var given := Get(NewRow(t, dic), t.key);
    if given.Int? then given.i else NextKey(t, t.rows)
  }

  function FullRow(t: Table, dic: Dict): Row
  {
    NewRow(t, dic)[t.key := Int(NewKey(t, dic))]
  }

  function StepInsert(db: Db, name: string, dic: Dict): (Db, Result<Cursor, Error>)
    requires name in db.tables
  {
    var t := db.tables[name];
    var given := Get(NewRow(t, dic), t.key);
    var full := FullRow(t, dic);
    if !(given.Null? || given.Int?) then (db, Err(DatatypeMismatch(t.key)))
    else if NullColumn(t.columns, full).Some? then (db, Err(NotNull(name, NullColumn(t.columns, full).value)))
    else if KeyUsed(t, NewKey(t, dic)) then (db, Err(UniqueViolation(name, t.key)))
    else (Db(db.tables[name := t.(rows := t.rows + [full])]), Ok(Cursor([], [], Some(NewKey(t, dic)))))
  }

  /** `SET c1 = v1, …` on one row. */
  function Assign(r: Row, dic: Dict): Row
    decreases |dic|
  {
    if |dic| == 0 then r else Assign(r[dic[0].0 := dic[0].1], dic[1..])
  }

  function Updated(rows: seq<Row>, dic: Dict, conds: seq<Condition>): (u: seq<Row>)
    ensures |u| == |rows|
  {
    seq(|rows|, i requires 0 <= i < |rows| => if AllHold(rows[i], conds) then Assign(rows[i], dic) else rows[i])
  }

  /** The first NOT NULL violation, row by row. */
  function NullInRows(cols: seq<Column>, rows: seq<Row>): (c: Option<string>)
    ensures c.None? <==> forall i :: 0 <= i < |rows| ==> NullColumn(cols, rows[i]).None?
  {
    if |rows| == 0 then None
    else if NullColumn(cols, rows[0]).Some? then NullColumn(cols, rows[0])
    else
      var r := NullInRows(cols, rows[1..]);
      assert forall i :: 1 <= i < |rows| ==> rows[i] == rows[1..][i - 1];
      r
  }

  function StepUpdate(db: Db, name: string, dic: Dict, conds: seq<Condition>): (Db, Result<Cursor, Error>)
    requires name in db.tables
  {
    var t := db.tables[name];
    var rows := Updated(t.rows, dic, conds);
    var t' := t.(rows := rows);
    if exists i :: 0 <= i < |rows| && !Get(rows[i], t.key).Int? then (db, Err(DatatypeMismatch(t.key)))
    else if NullInRows(t.columns, rows).Some? then (db, Err(NotNull(name, NullInRows(t.columns, rows).value)))
    else if exists i, j :: 0 <= i < j < |rows| && KeyOf(t', rows[i]) == KeyOf(t', rows[j]) then
      (db, Err(UniqueViolation(name, t.key)))
    else (Db(db.tables[name := t']), Ok(Cursor([], [], None)))
  }

  /** Running a resolved statement whose values are all bindable. */
  function Step(db: Db, s: Statement): (Db, Result<Cursor, Error>)
    requires s.table in db.tables
  {
    var t := db.tables[s.table];
    match s
    case Select(_, cols, conds) =>
      var proj := Projection(t, cols);
      (db, Ok(Cursor(proj, FetchAll(Matching(t.rows, conds), proj), None)))
    case Insert(name, dic) => StepInsert(db, name, dic)
    case Delete(name, conds) =>
      (Db(db.tables[name := t.(rows := Unmatched(t.rows, conds))]), Ok(Cursor([], [], None)))
    case Update(name, dic, conds) => StepUpdate(db, name, dic, conds)
  }

  /** A statement run with its own values bound. */
  function Exec(db: Db, s: Statement): (Db, Result<Cursor, Error>)
  {
    match Problem(db, s)
    case Some(e) => (db, Err(e))
    case None =>
      match Unsupported(Binds(s))
      case Some(k) => (db, Err(UnsupportedBind(k)))
      case None => Step(db, s)
  }

  /** A statement that fails leaves the database as it was. */
  lemma ExecFailKeeps(db: Db, s: Statement)
    ensures Exec(db, s).1.Err? ==> Exec(db, s).0 == db
  {
    if Problem(db, s).None? && Unsupported(Binds(s)).None? {
      match s
      case Insert(name, dic) =>
      case Update(name, dic, conds) =>
      case Select(_, _, _) =>
      case Delete(_, _) =>
    }
  }

  function Finish(r: Result<Cursor, Error>, g: GetResult): Result<Outcome, Error>
  {
    match r
    case Ok(c) => Ok(ApplyGetResult(g, c))
    case Err(e) => Err(e)
  }

  /** `cursor.execute(sql, bind)` followed by `get_result(cursor)`: the text
      must be the rendering of `shape`, the statement must resolve, there must
      be one value per placeholder, and then the values of `bind` are what the
      statement sees. A failed statement leaves the database as it was. */
  function Run(db: Db, p: Prep, shape: Statement): (Db, Result<Outcome, Error>)
  {
    if p.sql != Prepare(shape).sql then (db, Err(SyntaxError(p.sql)))
    else match Problem(db, shape)
      case Some(e) => (db, Err(e))
      case None =>
        if |p.bind| != Slots(shape) then (db, Err(BindingCount(Slots(shape), |p.bind|)))
        else
          var (db', r) := Exec(db, Rebind(shape, p.bind));
          (db', Finish(r, p.getResult))
  }

  // ---------------------------------------------------------------------------
  // DDL

  function Duplicate(names: seq<string>): (d: Option<string>)
    ensures d.None? <==> Distinct(names)
  {
    if |names| == 0 then None
    else if names[0] in names[1..] then Some(names[0])
    else
      var r := Duplicate(names[1..]);
      assert r.None? ==> Distinct(names) by {
        if r.None? {
          forall i, j | 0 <= i < j < |names| ensures names[i] != names[j] {
            if i > 0 { assert names[i] == names[1..][i - 1] && names[j] == names[1..][j - 1]; }
            else { assert names[j] == names[1..][j - 1]; }
          }
        }
      }
      assert r.Some? ==> !Distinct(names) by {
        if r.Some? && Distinct(names) {
          assert Distinct(names[1..]) by {
            forall i, j | 0 <= i < j < |names| - 1 ensures names[1..][i] != names[1..][j] {
              assert names[1..][i] == names[i + 1] && names[1..][j] == names[j + 1];
            }
          }
        }
      }
      r
  }

  function ApplyDdl(db: Db, d: Ddl): (r: Result<Db, Error>)
  {
    match d
    case CreateTable(name, key, cols) =>
      if name in db.tables then Err(TableExists(name))
      else if Duplicate([key] + ColumnNames(cols)).Some? then Err(DuplicateColumn(Duplicate([key] + ColumnNames(cols)).value))
      else Ok(Db(db.tables[name := Table(key, cols, [])]))
    case DropTable(name) =>
      if name !in db.tables then Err(NoSuchTable(name))
      else Ok(Db(db.tables - {name}))
    case DeleteAll(name) =>
      if name !in db.tables then Err(NoSuchTable(name))
      else Ok(Db(db.tables[name := db.tables[name].(rows := [])]))
  }

  /** The statements in order, stopping at the first that fails; the ones
      before it keep their effect. */
  function ApplyAll(db: Db, ddl: seq<Ddl>): (Db, Option<Error>)
    decreases |ddl|
  {
    if |ddl| == 0 then (db, None)
    else match ApplyDdl(db, ddl[0])
      case Err(e) => (db, Some(e))
      case Ok(db') => ApplyAll(db', ddl[1..])
  }

  // ---------------------------------------------------------------------------
  // Properties of binding and running

  /** A prepared statement binds one value per slot, and putting its own
      binds back into the statement gives the statement. */
  lemma RebindPrepared(s: Statement)
    ensures |Prepare(s).bind| == Slots(s)
    ensures Rebind(s, Prepare(s).bind) == s
  {
    match s
    case Select(t, cols, c) =>
      assert WithRvals(c, Rvals(c)) == c;
    case Insert(t, d) =>
      assert WithValues(d, KeysValues(d).1) == d;
    case Delete(t, c) =>
      assert WithRvals(c, Rvals(c)) == c;
    case Update(t, d, c) =>
      var b := KeysValues(d).1 + Rvals(c);
      assert b[..|d|] == KeysValues(d).1 && b[|d|..] == Rvals(c);
      assert WithValues(d, KeysValues(d).1) == d;
      assert WithRvals(c, Rvals(c)) == c;
  }

  /** Values put into the slots are exactly what the statement then binds,
      and they do not change its text. */
  lemma RebindBinds(db: Db, s: Statement, vals: seq<Value>)
    requires |vals| == Slots(s)
    ensures Prepare(Rebind(s, vals)).bind == vals
    ensures Binds(Rebind(s, vals)) == vals
    ensures Prepare(Rebind(s, vals)).sql == Prepare(s).sql
    ensures Problem(db, Rebind(s, vals)) == Problem(db, s)
  {
    RebindValues(s, vals);
    BindsPrepared(Rebind(s, vals));
    RebindText(db, s, vals);
  }

  lemma RebindValues(s: Statement, vals: seq<Value>)
    requires |vals| == Slots(s)
    ensures Binds(Rebind(s, vals)) == vals
  {
    match s
    case Select(t, cols, c) =>
      assert Rvals(WithRvals(c, vals)) == vals;
    case Insert(t, d) =>
      assert KeysValues(WithValues(d, vals)).1 == vals;
    case Delete(t, c) =>
      assert Rvals(WithRvals(c, vals)) == vals;
    case Update(t, d, c) =>
      var v1, v2 := vals[..|d|], vals[|d|..];
      assert KeysValues(WithValues(d, v1)).1 == v1;
      assert Rvals(WithRvals(c, v2)) == v2;
      assert v1 + v2 == vals;
  }

  lemma RebindText(db: Db, s: Statement, vals: seq<Value>)
    requires |vals| == Slots(s)
    ensures Prepare(Rebind(s, vals)).sql == Prepare(s).sql
    ensures Problem(db, Rebind(s, vals)) == Problem(db, s)
  {
    match s
    case Select(t, cols, c) => RebindConds(db, t, cols, c, vals);
    case Insert(t, d) => RebindDict(db, t, d, vals);
    case Delete(t, c) => RebindConds(db, t, [], c, vals);
    case Update(t, d, c) => RebindUpdate(db, t, d, c, vals);
  }

  lemma RebindConds(db: Db, t: string, cols: seq<string>, c: seq<Condition>, vals: seq<Value>)
    requires |vals| == |c|
    ensures Prepare(Select(t, cols, WithRvals(c, vals))).sql == Prepare(Select(t, cols, c)).sql
    ensures Prepare(Delete(t, WithRvals(c, vals))).sql == Prepare(Delete(t, c)).sql
    ensures Problem(db, Select(t, cols, WithRvals(c, vals))) == Problem(db, Select(t, cols, c))
    ensures Problem(db, Delete(t, WithRvals(c, vals))) == Problem(db, Delete(t, c))
  {
    TextIgnoresValues(t, cols, WithRvals(c, vals), c, [], []);
    assert Lvals(WithRvals(c, vals)) == Lvals(c) && Ops(WithRvals(c, vals)) == Ops(c);
  }

  lemma RebindDict(db: Db, t: string, d: Dict, vals: seq<Value>)
    requires |vals| == |d|
    ensures Prepare(Insert(t, WithValues(d, vals))).sql == Prepare(Insert(t, d)).sql
    ensures Problem(db, Insert(t, WithValues(d, vals))) == Problem(db, Insert(t, d))
  {
    assert Keys(WithValues(d, vals)) == Keys(d);
    TextIgnoresValues(t, [], [], [], WithValues(d, vals), d);
  }

  lemma RebindUpdate(db: Db, t: string, d: Dict, c: seq<Condition>, vals: seq<Value>)
    requires |vals| == |d| + |c|
    ensures Prepare(Update(t, WithValues(d, vals[..|d|]), WithRvals(c, vals[|d|..]))).sql == Prepare(Update(t, d, c)).sql
    ensures Problem(db, Update(t, WithValues(d, vals[..|d|]), WithRvals(c, vals[|d|..]))) == Problem(db, Update(t, d, c))
  {
    var v1, v2 := vals[..|d|], vals[|d|..];
    assert Keys(WithValues(d, v1)) == Keys(d);
    TextIgnoresValues(t, [], WithRvals(c, v2), c, WithValues(d, v1), d);
    assert Lvals(WithRvals(c, v2)) == Lvals(c) && Ops(WithRvals(c, v2)) == Ops(c);
    assert CondLines(WithRvals(c, v2)) == CondLines(c);
  }

  /** Running the builder's own statement is running the statement with its
      own values, with the prepared `get_result` applied. */
  lemma RunPrepared(db: Db, s: Statement)
    ensures Run(db, Prepare(s), s) == (Exec(db, s).0, Finish(Exec(db, s).1, Prepare(s).getResult))
  {
    RebindPrepared(s);
  }

  // ---------------------------------------------------------------------------
  // Properties of the WHERE clause

  /** A select returns exactly the rows that satisfy every condition, and a
      delete keeps exactly the others; between them they account for every row. */
  lemma {:induction false} MatchingSpec(rows: seq<Row>, conds: seq<Condition>)
    ensures forall r :: r in Matching(rows, conds) <==> r in rows && AllHold(r, conds)
    ensures forall r :: r in Unmatched(rows, conds) <==> r in rows && !AllHold(r, conds)
    ensures |Matching(rows, conds)| + |Unmatched(rows, conds)| == |rows|
  {
    if |rows| > 0 {
      MatchingSpec(rows[1..], conds);
      assert rows == [rows[0]] + rows[1..];
    }
  }

  lemma {:induction false} MatchingAppend(a: seq<Row>, b: seq<Row>, conds: seq<Condition>)
    ensures Matching(a + b, conds) == Matching(a, conds) + Matching(b, conds)
  {
    if |a| == 0 {
      assert a + b == b;
    } else {
      assert (a + b)[0] == a[0] && (a + b)[1..] == a[1..] + b;
      MatchingAppend(a[1..], b, conds);
    }
  }

  /** When no row satisfies the conditions, the select returns nothing. */
  lemma {:induction false} MatchingNone(rows: seq<Row>, conds: seq<Condition>)
    requires forall j :: 0 <= j < |rows| ==> !AllHold(rows[j], conds)
    ensures Matching(rows, conds) == []
  {
    if |rows| > 0 {
      assert forall j :: 0 <= j < |rows[1..]| ==> rows[1..][j] == rows[j + 1];
      MatchingNone(rows[1..], conds);
    }
  }

  /** Selecting with the conditions of a delete after it finds nothing. */
  lemma {:induction false} MatchingUnmatched(rows: seq<Row>, conds: seq<Condition>)
    ensures Matching(Unmatched(rows, conds), conds) == []
  {
    if |rows| > 0 {
      var head := if AllHold(rows[0], conds) then [] else [rows[0]];
      MatchingAppend(head, Unmatched(rows[1..], conds), conds);
      MatchingUnmatched(rows[1..], conds);
      MatchingNone(head, conds);
    }
  }

  /** When only the row at `i` satisfies the conditions, the select returns it alone. */
  lemma MatchingOnly(rows: seq<Row>, conds: seq<Condition>, i: nat)
    requires i < |rows| && AllHold(rows[i], conds)
    requires forall j :: 0 <= j < |rows| && j != i ==> !AllHold(rows[j], conds)
    ensures Matching(rows, conds) == [rows[i]]
  {
    assert rows == rows[..i] + [rows[i]] + rows[i + 1..];
    MatchingAppend(rows[..i] + [rows[i]], rows[i + 1..], conds);
    MatchingAppend(rows[..i], [rows[i]], conds);
    assert forall j :: 0 <= j < i ==> rows[..i][j] == rows[j];
    MatchingNone(rows[..i], conds);
    var after := rows[i + 1..];
    forall j | 0 <= j < |after| ensures !AllHold(after[j], conds) {
      assert after[j] == rows[i + 1 + j];
    }
    MatchingNone(after, conds);
  }

  /** On a well-formed table `eq(key, k)` holds of exactly the row whose rowid is `k`. */
  lemma EqKey(t: Table, k: int, r: Row)
    requires Get(r, t.key).Int?
    ensures AllHold(r, [Eq(t.key, Int(k))]) <==> KeyOf(t, r) == k
    ensures AllHold(r, [Neq(t.key, Int(k))]) <==> KeyOf(t, r) != k
  {
    assert [Eq(t.key, Int(k))][0] == Condition("=", t.key, Int(k));
    assert [Neq(t.key, Int(k))][0] == Condition("!=", t.key, Int(k));
  }

  /** The select by rowid of a row that is in the table returns that row alone. */
  lemma SelectByKey(t: Table, i: nat)
    requires TableOk(t) && i < |t.rows|
    ensures Matching(t.rows, [Eq(t.key, Int(KeyOf(t, t.rows[i])))]) == [t.rows[i]]
  {
    var k := KeyOf(t, t.rows[i]);
    forall j | 0 <= j < |t.rows| ensures AllHold(t.rows[j], [Eq(t.key, Int(k))]) <==> j == i {
      EqKey(t, k, t.rows[j]);
    }
    MatchingOnly(t.rows, [Eq(t.key, Int(k))], i);
  }

  /** On a table holding one row, `neq(key, its rowid)` selects nothing. */
  lemma SingleRowNeq(t: Table)
    requires TableOk(t) && |t.rows| == 1
    ensures Matching(t.rows, [Neq(t.key, Int(KeyOf(t, t.rows[0])))]) == []
  {
    EqKey(t, KeyOf(t, t.rows[0]), t.rows[0]);
    assert t.rows[1..] == [];
  }

  /** A delete keeps a table well formed. */
  lemma {:induction false} UnmatchedOk(t: Table, rows: seq<Row>, conds: seq<Condition>)
    requires RowsOk(t, rows)
    ensures RowsOk(t, Unmatched(rows, conds))
  {
    if |rows| > 0 {
      var rest := rows[1..];
      assert RowsOk(t, rest) by {
        forall i, j | 0 <= i < j < |rest| ensures KeyOf(t, rest[i]) != KeyOf(t, rest[j]) {
          assert rest[i] == rows[i + 1] && rest[j] == rows[j + 1];
        }
      }
      UnmatchedOk(t, rest, conds);
      var u := Unmatched(rest, conds);
      MatchingSpec(rest, conds);
      if !AllHold(rows[0], conds) {
        forall j | 0 <= j < |u| ensures KeyOf(t, rows[0]) != KeyOf(t, u[j]) {
          assert u[j] in rest;
          var m :| 0 <= m < |rest| && rest[m] == u[j];
          assert rows[m + 1] == u[j];
        }
        assert Unmatched(rows, conds) == [rows[0]] + u;
      }
    }
  }

  // ---------------------------------------------------------------------------
  // Insert, select and delete together

  lemma ExpandStar(names: seq<string>)
    ensures Expand(["*"], names) == names
  {
    assert Expand(["*"][1..], names) == [];
    assert names + [] == names;
  }

  /** Selecting by the rowid of a stored row gives that row alone, over the
      select's projection. */
  lemma SelectKey(db: Db, name: string, cols: seq<string>, i: nat)
    requires name in db.tables && TableOk(db.tables[name]) && i < |db.tables[name].rows|
    requires Unknown(Projection(db.tables[name], cols), Names(db.tables[name])).None?
    ensures var t := db.tables[name];
            var proj := Projection(t, cols);
            Exec(db, Select(name, cols, [Eq(t.key, Int(KeyOf(t, t.rows[i])))]))
            == (db, Ok(Cursor(proj, [Fetch(t.rows[i], proj)], None)))
  {
    var t := db.tables[name];
    var c := [Eq(t.key, Int(KeyOf(t, t.rows[i])))];
    assert Ops(c) == ["="];
    assert Lvals(c) == [t.key] && Names(t)[0] == t.key;
    assert Problem(db, Select(name, cols, c)) == None;
    assert Binds(Select(name, cols, c)) == [Int(KeyOf(t, t.rows[i]))];
    SelectByKey(t, i);
    assert FetchAll([t.rows[i]], Projection(t, cols)) == [Fetch(t.rows[i], Projection(t, cols))];
  }

  /** A successful insert appends one row, and nothing else changes: the row
      holds the given value of every column the dict names and the default of
      every other, under a rowid no other row has, which the cursor reports. */
  lemma InsertEffect(db: Db, name: string, dic: Dict)
    requires name in db.tables && TableOk(db.tables[name])
    requires Exec(db, Insert(name, dic)).1.Ok?
    ensures var t := db.tables[name];
            var row := FullRow(t, dic);
            && Exec(db, Insert(name, dic)) == (Db(db.tables[name := t.(rows := t.rows + [row])]), Ok(Cursor([], [], Some(KeyOf(t, row)))))
            && TableOk(t.(rows := t.rows + [row]))
            && (forall c :: c in Names(t) && c != t.key ==> Get(row, c) == if c in Keys(dic) then Lookup(dic, c).value else DefaultOf(t.columns, c))
  {
    var t := db.tables[name];
    var row := FullRow(t, dic);
    var k := NewKey(t, dic);
    assert Get(row, t.key) == Int(k);
    assert !KeyUsed(t, k);
    var rows := t.rows + [row];
    forall i, j | 0 <= i < j < |rows| ensures KeyOf(t, rows[i]) != KeyOf(t, rows[j]) {
      if j == |t.rows| {
        assert rows[i] == t.rows[i];
        assert Get(t.rows[i], t.key) != Int(k);
      } else {
        assert rows[i] == t.rows[i] && rows[j] == t.rows[j];
      }
    }
  }

  /** After an insert, selecting by the reported rowid returns the inserted
      row alone, with every column of the table. */
  lemma InsertThenSelect(db: Db, name: string, dic: Dict)
    requires name in db.tables && TableOk(db.tables[name])
    requires Exec(db, Insert(name, dic)).1.Ok?
    ensures var t := db.tables[name];
            var (db', r) := Exec(db, Insert(name, dic));
            var k := NewKey(t, dic);
            && r.value.lastRowId == Some(k)
            && Exec(db', Select(name, [], [Eq(t.key, Int(k))]))
               == (db', Ok(Cursor(Names(t), [Fetch(FullRow(t, dic), Names(t))], None)))
  {
    var t := db.tables[name];
    InsertEffect(db, name, dic);
    var row := FullRow(t, dic);
    var k := NewKey(t, dic);
    var t' := t.(rows := t.rows + [row]);
    var db' := Db(db.tables[name := t']);
    ExpandStar(Names(t));
    assert Names(t') == Names(t);
    assert Projection(t', []) == Names(t');
    assert t'.rows[|t.rows|] == row && KeyOf(t', row) == k;
    SelectKey(db', name, [], |t.rows|);
  }

  /** A successful insert appends the new row and reports its rowid; nothing
      else changes. */
  lemma InsertOk(db: Db, name: string, dic: Dict)
    requires Exec(db, Insert(name, dic)).1.Ok?
    ensures name in db.tables
    ensures var t := db.tables[name];
            Exec(db, Insert(name, dic))
            == (Db(db.tables[name := t.(rows := t.rows + [FullRow(t, dic)])]), Ok(Cursor([], [], Some(NewKey(t, dic)))))
  {
  }

  /** A column that is not declared has no default. */
  lemma {:induction false} DefaultOfAbsent(cols: seq<Column>, c: string)
    requires c !in ColumnNames(cols)
    ensures DefaultOf(cols, c) == Null
    decreases |cols|
  {
    if |cols| > 0 {
      assert ColumnNames(cols)[0] == cols[0].name;
      assert ColumnNames(cols[1..]) == ColumnNames(cols)[1..];
      DefaultOfAbsent(cols[1..], c);
    }
  }

  /** An insert succeeds when the dict is not empty, names columns of the table
      other than its rowid, binds neither a nested value nor NULL, and every
      NOT NULL column it leaves out has a default. */
  lemma InsertSucceeds(db: Db, name: string, dic: Dict)
    requires name in db.tables && |dic| > 0 && Distinct(Names(db.tables[name]))
    requires forall i :: 0 <= i < |dic| ==> dic[i].0 in ColumnNames(db.tables[name].columns)
    requires forall i :: 0 <= i < |dic| ==> !dic[i].1.Nested? && !dic[i].1.Null?
    requires var cols := db.tables[name].columns;
             forall i :: 0 <= i < |cols| && cols[i].notNull ==> cols[i].name in Keys(dic) || !DefaultOf(cols, cols[i].name).Null?
    ensures Exec(db, Insert(name, dic)).1.Ok?
  {
    var t := db.tables[name];
    InsertResolves(db, name, dic);
    InsertBindable(name, dic);
    InsertRowFilled(t, dic);
    var k := NewKey(t, dic);
    assert k == NextKey(t, t.rows);
    assert !KeyUsed(t, k) by {
      forall i | 0 <= i < |t.rows|
        ensures Get(t.rows[i], t.key) != Int(k)
      {
        assert KeyOf(t, t.rows[i]) < k;
      }
    }
  }

  lemma InsertResolves(db: Db, name: string, dic: Dict)
    requires name in db.tables && |dic| > 0
    requires forall i :: 0 <= i < |dic| ==> dic[i].0 in ColumnNames(db.tables[name].columns)
    ensures Problem(db, Insert(name, dic)) == None
  {
    var names := Names(db.tables[name]);
    assert forall i :: 0 <= i < |dic| ==> Keys(dic)[i] in names by {
      forall i | 0 <= i < |dic|
        ensures Keys(dic)[i] in names
      {
        assert names == [db.tables[name].key] + ColumnNames(db.tables[name].columns);
      }
    }
    assert Lvals([]) == [] && Ops([]) == [];
  }

  lemma InsertBindable(name: string, dic: Dict)
    requires forall i :: 0 <= i < |dic| ==> !dic[i].1.Nested?
    ensures Unsupported(Binds(Insert(name, dic))) == None
  {
    assert forall i :: 0 <= i < |dic| ==> Binds(Insert(name, dic))[i] == dic[i].1;
  }

  lemma InsertRowFilled(t: Table, dic: Dict)
    requires Distinct(Names(t))
    requires forall i :: 0 <= i < |dic| ==> dic[i].0 in ColumnNames(t.columns)
    requires forall i :: 0 <= i < |dic| ==> !dic[i].1.Null?
    requires forall i :: 0 <= i < |t.columns| && t.columns[i].notNull ==> t.columns[i].name in Keys(dic) || !DefaultOf(t.columns, t.columns[i].name).Null?
    ensures Get(NewRow(t, dic), t.key) == Null
    ensures NullColumn(t.columns, FullRow(t, dic)).None?
  {
    var names := Names(t);
    DistinctTail(names);
    assert names[1..] == ColumnNames(t.columns);
    assert t.key !in Keys(dic);
    DefaultOfAbsent(t.columns, t.key);
    var full := FullRow(t, dic);
    forall i | 0 <= i < |t.columns| && t.columns[i].notNull
      ensures !Get(full, t.columns[i].name).Null?
    {
      var c := t.columns[i].name;
      assert c == names[i + 1] && c != t.key;
      if c in Keys(dic) {
        var v := Lookup(dic, c).value;
        var j :| 0 <= j < |dic| && dic[j] == (c, v);
        assert !dic[j].1.Null?;
      }
    }
  }

  /** A select list without `*` is its own projection. */
  lemma {:induction false} ExpandPlain(cols: seq<string>, names: seq<string>)
    requires "*" !in cols
    ensures Expand(cols, names) == cols
    decreases |cols|
  {
    if |cols| > 0 {
      assert "*" !in cols[1..];
      ExpandPlain(cols[1..], names);
    }
  }

  /** After an insert, selecting named columns by the reported rowid returns
      the inserted row alone, with those columns. */
  lemma SelectInserted(db: Db, name: string, dic: Dict, cols: seq<string>)
    requires name in db.tables && TableOk(db.tables[name])
    requires Exec(db, Insert(name, dic)).1.Ok?
    requires |cols| > 0 && "*" !in cols
    requires forall i :: 0 <= i < |cols| ==> cols[i] in Names(db.tables[name])
    ensures var t := db.tables[name];
            var db' := Exec(db, Insert(name, dic)).0;
            Exec(db', Select(name, cols, [Eq(t.key, Int(NewKey(t, dic)))]))
            == (db', Ok(Cursor(cols, [Fetch(FullRow(t, dic), cols)], None)))
  {
    var t := db.tables[name];
    InsertEffect(db, name, dic);
    var row := FullRow(t, dic);
    var k := NewKey(t, dic);
    var t' := t.(rows := t.rows + [row]);
    var db' := Db(db.tables[name := t']);
    ExpandPlain(cols, Names(t));
    assert Names(t') == Names(t);
    assert Projection(t', cols) == cols;
    assert t'.rows[|t.rows|] == row && KeyOf(t', row) == k;
    SelectKey(db', name, cols, |t.rows|);
  }

  /** After an insert into an empty table, `neq(key, rowid)` selects nothing. */
  lemma InsertIntoEmptyNeq(db: Db, name: string, dic: Dict, cols: seq<string>)
    requires name in db.tables && TableOk(db.tables[name]) && db.tables[name].rows == []
    requires Exec(db, Insert(name, dic)).1.Ok?
    requires |cols| > 0 && "*" !in cols
    requires forall i :: 0 <= i < |cols| ==> cols[i] in Names(db.tables[name])
    ensures var t := db.tables[name];
            var db' := Exec(db, Insert(name, dic)).0;
            Exec(db', Select(name, cols, [Neq(t.key, Int(NewKey(t, dic)))])) == (db', Ok(Cursor(cols, [], None)))
  {
    var t := db.tables[name];
    InsertEffect(db, name, dic);
    InsertOk(db, name, dic);
    var row := FullRow(t, dic);
    assert t.rows + [row] == [row];
    SelectNeqSingle(Exec(db, Insert(name, dic)).0, name, cols, NewKey(t, dic));
  }

  /** On a table holding one row, selecting by `neq(key, its rowid)` gives no
      row. */
  lemma SelectNeqSingle(db: Db, name: string, cols: seq<string>, k: int)
    requires name in db.tables && TableOk(db.tables[name]) && |db.tables[name].rows| == 1
    requires KeyOf(db.tables[name], db.tables[name].rows[0]) == k
    requires |cols| > 0 && "*" !in cols
    requires forall i :: 0 <= i < |cols| ==> cols[i] in Names(db.tables[name])
    ensures Exec(db, Select(name, cols, [Neq(db.tables[name].key, Int(k))])) == (db, Ok(Cursor(cols, [], None)))
  {
    var t := db.tables[name];
    var sel := Select(name, cols, [Neq(t.key, Int(k))]);
    ExpandPlain(cols, Names(t));
    assert Projection(t, cols) == cols;
    assert Ops([Neq(t.key, Int(k))]) == ["!="];
    assert Lvals([Neq(t.key, Int(k))]) == [t.key];
    assert Problem(db, sel) == None;
    assert Binds(sel) == [Int(k)];
    SingleRowNeq(t);
  }

  /** A delete by rowid on an existing table always runs. */
  lemma DeleteByKeyOk(db: Db, name: string, k: int)
    requires name in db.tables
    ensures Exec(db, Delete(name, [Eq(db.tables[name].key, Int(k))])).1.Ok?
  {
    var t := db.tables[name];
    var c := [Eq(t.key, Int(k))];
    assert Ops(c) == ["="] && Lvals(c) == [t.key];
    assert Names(t)[0] == t.key;
    assert Problem(db, Delete(name, c)) == None;
    assert Binds(Delete(name, c)) == [Int(k)];
  }

  /** After a delete, the same conditions select nothing, and a table that was
      well formed stays so. */
  lemma DeleteThenSelect(db: Db, name: string, conds: seq<Condition>, cols: seq<string>)
    requires Exec(db, Delete(name, conds)).1.Ok?
    ensures var db' := Exec(db, Delete(name, conds)).0;
            && name in db'.tables
            && Problem(db', Select(name, cols, conds)) == Problem(db, Select(name, cols, conds))
            && (Exec(db', Select(name, cols, conds)).1.Ok? ==> Exec(db', Select(name, cols, conds)).1.value.fetched == [])
            && (TableOk(db.tables[name]) ==> TableOk(db'.tables[name]))
  {
    var t := db.tables[name];
    var t' := t.(rows := Unmatched(t.rows, conds));
    assert Names(t') == Names(t);
    MatchingUnmatched(t.rows, conds);
    if TableOk(t) {
      UnmatchedOk(t, t.rows, conds);
    }
  }

  /** `SET` writes each named column and leaves the others alone. */
  lemma {:induction false} AssignSpec(r: Row, dic: Dict)
    requires DistinctKeys(dic)
    ensures forall c :: c in Keys(dic) ==> Get(Assign(r, dic), c) == Lookup(dic, c).value
    ensures forall c :: c !in Keys(dic) ==> Get(Assign(r, dic), c) == Get(r, c)
    decreases |dic|
  {
    if |dic| > 0 {
      var rest := dic[1..];
      assert DistinctKeys(rest) by {
        forall i, j | 0 <= i < j < |rest| ensures rest[i].0 != rest[j].0 {
          assert rest[i] == dic[i + 1] && rest[j] == dic[j + 1];
        }
      }
      assert Keys(dic) == [dic[0].0] + Keys(rest);
      assert dic[0].0 !in Keys(rest) by {
        forall i | 0 <= i < |rest| ensures Keys(rest)[i] != dic[0].0 {
          assert rest[i] == dic[i + 1];
        }
      }
      AssignSpec(r[dic[0].0 := dic[0].1], rest);
    }
  }

  /** A successful update rewrites the selected rows and only those: in each,
      the SET columns take the dict's values and the other columns keep theirs;
      the table keeps its rows in order and stays well formed. */
  lemma UpdateEffect(db: Db, name: string, dic: Dict, conds: seq<Condition>)
    requires DistinctKeys(dic)
    requires Exec(db, Update(name, dic, conds)).1.Ok?
    ensures name in db.tables && name in Exec(db, Update(name, dic, conds)).0.tables
    ensures var t := db.tables[name];
            var t' := Exec(db, Update(name, dic, conds)).0.tables[name];
            && t'.key == t.key && t'.columns == t.columns && |t'.rows| == |t.rows| && TableOk(t')
            && forall i :: 0 <= i < |t.rows| ==>
                 if AllHold(t.rows[i], conds) then
                   && (forall c :: c in Keys(dic) ==> Get(t'.rows[i], c) == Lookup(dic, c).value)
                   && (forall c :: c !in Keys(dic) ==> Get(t'.rows[i], c) == Get(t.rows[i], c))
                 else t'.rows[i] == t.rows[i]
  {
    var t := db.tables[name];
    forall i | 0 <= i < |t.rows| {
      AssignSpec(t.rows[i], dic);
    }
  }

  // ---------------------------------------------------------------------------
  // The engine object

  class MemoryEngine {
    var db: Db
    /** Every prepared statement handed to `execute`, in order. */
    ghost var sent: seq<Prep>

    constructor (db0: Db)
      ensures db == db0 && sent == []
    {
      db := db0;
      sent := [];
    }

    /** `execute(sql, bind, func)`. */
    method Execute(p: Prep, shape: Statement) returns (r: Result<Outcome, Error>)
      modifies this
      ensures (db, r) == Run(old(db), p, shape)
      ensures sent == old(sent) + [p]
    {
      var (db', res) := Run(db, p, shape);
      db := db';
      r := res;
      sent := sent + [p];
    }

    /** `execute_ddl(ddl)`: each statement in turn; the first failure is
        raised and ends the loop. */
    method ExecuteDdl(ddl: seq<Ddl>) returns (err: Option<Error>)
      modifies this
      ensures (db, err) == ApplyAll(old(db), ddl)
      ensures sent == old(sent)
    {
      var i := 0;
      err := None;
      while i < |ddl|
        invariant 0 <= i <= |ddl|
        invariant ApplyAll(old(db), ddl) == ApplyAll(db, ddl[i..])
        invariant sent == old(sent)
      {
        assert ddl[i..][1..] == ddl[i + 1..];
        match ApplyDdl(db, ddl[i]) {
          case Err(e) =>
            err := Some(e);
            return;
          case Ok(db') =>
            db := db';
        }
        i := i + 1;
      }
    }
  }
}
