/** The parameterised statement builder of sql_storage.py: SQL text and bind
    values for SELECT, INSERT, DELETE and UPDATE, and the `get_result`
    functions that turn a cursor into the caller's result. */
module Statements {
  import opened Values
  import opened Conditions

  /** Which `get_result` function a prepared statement carries: the row-dict
      zip of a select, `lambda x: x.lastrowid` of an insert, or none (delete,
      update), in which case the engine returns the cursor's `lastrowid`. */
  datatype GetResult = ZipRows | LastRowId | NoResultFn

  /** `prep_stmt(sql, bind, get_result)`. */
  datatype Prep = Prep(sql: string, bind: seq<Value>, getResult: GetResult)

  /** What a cursor holds after a statement ran: the result columns, the
      fetched value tuples and `lastrowid`. */
  datatype Cursor = Cursor(description: seq<string>, fetched: seq<seq<Value>>, lastRowId: Option<int>)

  /** What `engine.execute` hands back to its caller. */
  datatype Outcome = RowSet(rows: seq<Dict>) | RowIdOf(id: Option<int>)

  /** The four statements the builder renders, in structured form. */
  datatype Statement =
    | Select(table: string, columns: seq<string>, conds: seq<Condition>)
    | Insert(table: string, dic: Dict)
    | Delete(table: string, conds: seq<Condition>)
    | Update(table: string, dic: Dict, conds: seq<Condition>)

  // ---------------------------------------------------------------------------
  // Text helpers

  /** Python's `sep.join(parts)`. */
  function Join(sep: string, parts: seq<string>): string
  {
    if |parts| == 0 then ""
    else if |parts| == 1 then parts[0]
    else parts[0] + sep + Join(sep, parts[1..])
  }

  /** `sep + part` for every part, concatenated: what follows the first line of
      a `sep.join`. */
  function Prefixed(sep: string, parts: seq<string>): string
  {
    if |parts| == 0 then "" else sep + parts[0] + Prefixed(sep, parts[1..])
  }

  /** The number of `?` characters in a text. */
  function CountQ(s: string): nat
  {
    multiset(s)['?']
  }

  function SumQ(parts: seq<string>): nat
  {
    if |parts| == 0 then 0 else CountQ(parts[0]) + SumQ(parts[1..])
  }

  ghost predicate NoQ(s: string)
  {
    '?' !in s
  }

  ghost predicate AllNoQ(parts: seq<string>)
  {
    forall i :: 0 <= i < |parts| ==> NoQ(parts[i])
  }

  // ---------------------------------------------------------------------------
  // _keysvalues and the pieces of every statement

  /** `_keysvalues(dic)`: the keys and the values of one pass over the dict. */
  function KeysValues(d: Dict): (kv: (seq<string>, seq<Value>))
    ensures |kv.0| == |d| && |kv.1| == |d|
    ensures forall i :: 0 <= i < |d| ==> kv.0[i] == d[i].0 && kv.1[i] == d[i].1
  {
    (Keys(d), seq(|d|, i requires 0 <= i < |d| => d[i].1))
  }

  /** `'AND {lval} {op} ?'` for one condition. */
  function CondLine(c: Condition): string
  {
    "AND " + c.lval + " " + c.op + " ?"
  }

  function CondLines(conds: seq<Condition>): (ls: seq<string>)
    ensures |ls| == |conds|
  {
    seq(|conds|, i requires 0 <= i < |conds| => CondLine(conds[i]))
  }

  /** `tuple(cond.rval for cond in conds)`. */
  function Rvals(conds: seq<Condition>): (b: seq<Value>)
    ensures |b| == |conds|
  {
    seq(|conds|, i requires 0 <= i < |conds| => conds[i].rval)
  }

  /** `', '.join('?' * n)`. */
  function Placeholders(n: nat): string
  {
    Join(", ", seq(n, _ => "?"))
  }

  function SelectHead(table: string, columns: seq<string>): string
  {
    "SELECT " + Join(", ", if |columns| == 0 then ["*"] else columns) + " FROM " + table + " WHERE 1 = 1"
  }

  function InsertText(table: string, columns: seq<string>): string
  {
    "INSERT INTO " + table + "(" + Join(", ", columns) + ") VALUES(" + Placeholders(|columns|) + ")"
  }

  function DeleteHead(table: string): string
  {
    "DELETE FROM " + table + " WHERE 1 = 1"
  }

  function SetItems(columns: seq<string>): (items: seq<string>)
    ensures |items| == |columns|
  {
    seq(|columns|, i requires 0 <= i < |columns| => columns[i] + " = ?")
  }

  function UpdateHead(table: string, columns: seq<string>): string
  {
    "UPDATE " + table + " SET " + Join(", ", SetItems(columns)) + " WHERE 1 = 1"
  }

  // ---------------------------------------------------------------------------
  // The four builders

  /** `_prep_select(table, columns, conds)`. */
  function PrepSelect(table: string, columns: seq<string>, conds: seq<Condition>): Prep
  {
    Prep(Join("\n", [SelectHead(table, columns)] + CondLines(conds)), Rvals(conds), ZipRows)
  }

  /** `_prep_insert(table, dic)`. */
  function PrepInsert(table: string, dic: Dict): Prep
  {
    var (columns, bind) := KeysValues(dic);
    Prep(Join("\n", [InsertText(table, columns)]), bind, LastRowId)
  }

  /** `_prep_delete(table, conds)`. */
  function PrepDelete(table: string, conds: seq<Condition>): Prep
  {
    Prep(Join("\n", [DeleteHead(table)] + CondLines(conds)), Rvals(conds), NoResultFn)
  }

  /** `_prep_update(table, dic, conds)`. */
  function PrepUpdate(table: string, dic: Dict, conds: seq<Condition>): Prep
  {
    var (columns, bind) := KeysValues(dic);
    Prep(Join("\n", [UpdateHead(table, columns)] + CondLines(conds)), bind + Rvals(conds), NoResultFn)
  }

  /** The builder that SQLStorage uses for each kind of statement. */
  function Prepare(s: Statement): Prep
  {
    match s
    case Select(t, cols, conds) => PrepSelect(t, cols, conds)
    case Insert(t, dic) => PrepInsert(t, dic)
    case Delete(t, conds) => PrepDelete(t, conds)
    case Update(t, dic, conds) => PrepUpdate(t, dic, conds)
  }

  // ---------------------------------------------------------------------------
  // get_result

  /** `dict(zip(cur_columns, val))`: zip stops at the shorter of the two. */
  function ZipRow(columns: seq<string>, vals: seq<Value>): Dict
  {
    var n := if |columns| <= |vals| then |columns| else |vals|;
    DictOf(seq(n, i requires 0 <= i < n => (columns[i], vals[i])))
  }

  /** Select's `get_result`: one dict per fetched row. */
  function ZipAll(c: Cursor): (rows: seq<Dict>)
    ensures |rows| == |c.fetched|
  {
    seq(|c.fetched|, i requires 0 <= i < |c.fetched| => ZipRow(c.description, c.fetched[i]))
  }

  /** The prepared statement's `get_result` applied to the cursor; with none,
      the engine returns `cursor.lastrowid` (sqlite3_engine.py:13-15). */
  function ApplyGetResult(g: GetResult, c: Cursor): Outcome
  {
    match g
    case ZipRows => RowSet(ZipAll(c))
    case LastRowId => RowIdOf(c.lastRowId)
    case NoResultFn => RowIdOf(c.lastRowId)
  }

  // ---------------------------------------------------------------------------
  // Properties of the builder

  /** A `sep.join` whose first part is `head` is `head` followed by `sep + part`
      for each further part. */
  lemma {:induction false} JoinHead(sep: string, head: string, rest: seq<string>)
    ensures Join(sep, [head] + rest) == head + Prefixed(sep, rest)
    decreases |rest|
  {
    if |rest| > 0 {
      assert ([head] + rest)[1..] == rest;
      JoinHead(sep, rest[0], rest[1..]);
      assert [rest[0]] + rest[1..] == rest;
    }
  }

  lemma CountQNone(s: string)
    requires NoQ(s)
    ensures CountQ(s) == 0
  {
  }

  /** Joining with a separator free of `?` adds no `?`. */
  lemma {:induction false} CountQJoin(sep: string, parts: seq<string>)
    requires NoQ(sep)
    ensures CountQ(Join(sep, parts)) == SumQ(parts)
  {
    if |parts| == 1 {
      assert SumQ(parts[1..]) == 0;
    } else if |parts| > 1 {
      CountQJoin(sep, parts[1..]);
      assert multiset(parts[0] + sep + Join(sep, parts[1..]))
          == multiset(parts[0]) + multiset(sep) + multiset(Join(sep, parts[1..]));
    }
  }

  lemma {:induction false} SumQNone(parts: seq<string>)
    requires AllNoQ(parts)
    ensures SumQ(parts) == 0
  {
    if |parts| > 0 {
      CountQNone(parts[0]);
      assert AllNoQ(parts[1..]) by {
        forall i | 0 <= i < |parts[1..]| ensures NoQ(parts[1..][i]) {
          assert parts[1..][i] == parts[i + 1];
        }
      }
      SumQNone(parts[1..]);
    }
  }

  lemma {:induction false} SumQAppend(a: seq<string>, b: seq<string>)
    ensures SumQ(a + b) == SumQ(a) + SumQ(b)
  {
    if |a| > 0 {
      assert (a + b)[1..] == a[1..] + b;
      SumQAppend(a[1..], b);
      calc {
        SumQ(a + b);
        CountQ((a + b)[0]) + SumQ((a + b)[1..]);
        { assert (a + b)[0] == a[0]; }
        CountQ(a[0]) + SumQ(a[1..] + b);
      }
    } else {
      assert a + b == b;
    }
  }

  /** Parts that each hold exactly one `?` hold one per part. */
  lemma {:induction false} SumQOnePer(parts: seq<string>)
    requires forall i :: 0 <= i < |parts| ==> CountQ(parts[i]) == 1
    ensures SumQ(parts) == |parts|
  {
    if |parts| > 0 {
      SumQOnePer(parts[1..]);
    }
  }

  ghost predicate CondsNoQ(conds: seq<Condition>)
  {
    forall i :: 0 <= i < |conds| ==> NoQ(conds[i].lval) && NoQ(conds[i].op)
  }

  lemma CondLinesQ(conds: seq<Condition>)
    requires CondsNoQ(conds)
    ensures SumQ(CondLines(conds)) == |conds|
  {
    var ls := CondLines(conds);
    forall i | 0 <= i < |conds| ensures CountQ(ls[i]) == 1 {
      var c := conds[i];
      assert ls[i] == "AND " + c.lval + " " + c.op + " ?";
      assert multiset(ls[i]) == multiset("AND ") + multiset(c.lval) + multiset(" ")
                              + multiset(c.op) + multiset(" ?");
    }
    SumQOnePer(ls);
  }

  lemma Q2(a: string, b: string)
    ensures CountQ(a + b) == CountQ(a) + CountQ(b)
  {
    assert multiset(a + b) == multiset(a) + multiset(b);
  }

  /** Text built as `a + b + c + d + e` around three fixed words `a`, `c`, `e`
      free of `?` counts only the `?` of `b` and `d`. */
  lemma Q5(a: string, b: string, c: string, d: string, e: string)
    requires NoQ(a) && NoQ(c) && NoQ(e)
    ensures CountQ(a + b + c + d + e) == CountQ(b) + CountQ(d)
  {
    Q2(a, b);
    Q2(a + b, c);
    Q2(a + b + c, d);
    Q2(a + b + c + d, e);
    CountQNone(a);
    CountQNone(c);
    CountQNone(e);
  }

  /** The fixed words of the four statements hold no `?`. */
  lemma SelectWordsQ()
    ensures NoQ("SELECT ") && NoQ(" FROM ") && NoQ(" WHERE 1 = 1")
  {
  }

  lemma DeleteWordsQ()
    ensures NoQ("DELETE FROM ") && NoQ(" WHERE 1 = 1") && NoQ("")
  {
  }

  lemma InsertWordsQ()
    ensures NoQ("INSERT INTO ") && NoQ("(") && NoQ(") VALUES(") && NoQ(")")
  {
  }

  lemma UpdateWordsQ()
    ensures NoQ("UPDATE ") && NoQ(" SET ") && NoQ(" WHERE 1 = 1")
  {
  }

  lemma SelectHeadQ(table: string, columns: seq<string>)
    requires NoQ(table) && AllNoQ(columns)
    ensures CountQ(SelectHead(table, columns)) == 0
  {
    var cols := if |columns| == 0 then ["*"] else columns;
    assert AllNoQ(cols);
    CountQJoin(", ", cols);
    SumQNone(cols);
    SelectWordsQ();
    Q5("SELECT ", Join(", ", cols), " FROM ", table, " WHERE 1 = 1");
    CountQNone(table);
  }

  lemma StatementQ(head: string, conds: seq<Condition>)
    requires CondsNoQ(conds)
    ensures CountQ(Join("\n", [head] + CondLines(conds))) == CountQ(head) + |conds|
  {
    CountQJoin("\n", [head] + CondLines(conds));
    SumQAppend([head], CondLines(conds));
    assert SumQ([head]) == CountQ(head);
    CondLinesQ(conds);
  }

  /** With `?`-free table, column and condition names, the select text holds
      exactly as many `?` placeholders as there are bind values. */
  lemma SelectPlaceholders(table: string, columns: seq<string>, conds: seq<Condition>)
    requires NoQ(table) && AllNoQ(columns) && CondsNoQ(conds)
    ensures CountQ(PrepSelect(table, columns, conds).sql) == |PrepSelect(table, columns, conds).bind|
  {
    SelectHeadQ(table, columns);
    StatementQ(SelectHead(table, columns), conds);
  }

  /** The same for delete. */
  lemma DeletePlaceholders(table: string, conds: seq<Condition>)
    requires NoQ(table) && CondsNoQ(conds)
    ensures CountQ(PrepDelete(table, conds).sql) == |PrepDelete(table, conds).bind|
  {
    DeleteHeadQ(table);
    StatementQ(DeleteHead(table), conds);
  }

  lemma DeleteHeadQ(table: string)
    requires NoQ(table)
    ensures CountQ(DeleteHead(table)) == 0
  {
    DeleteWordsQ();
    Q2("DELETE FROM ", table);
    Q2("DELETE FROM " + table, " WHERE 1 = 1");
    CountQNone("DELETE FROM ");
    CountQNone(table);
    CountQNone(" WHERE 1 = 1");
  }

  lemma PlaceholdersQ(n: nat)
    ensures CountQ(Placeholders(n)) == n
  {
    var parts := seq(n, _ => "?");
    CountQJoin(", ", parts);
    SumQOnePer(parts);
  }

  lemma InsertWrapQ(table: string, j: string, p: string)
    requires NoQ(table)
    ensures CountQ("INSERT INTO " + table + "(" + j + ") VALUES(" + p + ")") == CountQ(j) + CountQ(p)
  {
    InsertWordsQ();
    var a := "INSERT INTO " + table + "(" + j + ") VALUES(";
    Q5("INSERT INTO ", table, "(", j, ") VALUES(");
    CountQNone(table);
    Q2(a, p);
    Q2(a + p, ")");
    CountQNone(")");
  }

  /** A comma-separated list of `?`-free names holds no `?`. */
  lemma NameListQ(names: seq<string>)
    requires AllNoQ(names)
    ensures CountQ(Join(", ", names)) == 0
  {
    CountQJoin(", ", names);
    SumQNone(names);
  }

  lemma InsertTextQ(table: string, cols: seq<string>)
    requires NoQ(table) && AllNoQ(cols)
    ensures CountQ(InsertText(table, cols)) == |cols|
  {
    NameListQ(cols);
    PlaceholdersQ(|cols|);
    InsertWrapQ(table, Join(", ", cols), Placeholders(|cols|));
  }

  /** The same for insert: one `?` per column, as many as bind values. */
  lemma InsertPlaceholders(table: string, dic: Dict)
    requires NoQ(table) && AllNoQ(Keys(dic))
    ensures CountQ(PrepInsert(table, dic).sql) == |PrepInsert(table, dic).bind| == |dic|
  {
    InsertTextQ(table, Keys(dic));
  }

  lemma UpdateWrapQ(table: string, j: string)
    requires NoQ(table)
    ensures CountQ("UPDATE " + table + " SET " + j + " WHERE 1 = 1") == CountQ(j)
  {
    UpdateWordsQ();
    Q5("UPDATE ", table, " SET ", j, " WHERE 1 = 1");
    CountQNone(table);
  }

  lemma UpdateHeadQ(table: string, cols: seq<string>)
    requires NoQ(table) && AllNoQ(cols)
    ensures CountQ(UpdateHead(table, cols)) == |cols|
  {
    var items := SetItems(cols);
    forall i | 0 <= i < |items| ensures CountQ(items[i]) == 1 {
      Q2(cols[i], " = ?");
      CountQNone(cols[i]);
    }
    CountQJoin(", ", items);
    SumQOnePer(items);
    UpdateWrapQ(table, Join(", ", items));
  }

  /** The same for update: one `?` per SET item and one per condition. */
  lemma UpdatePlaceholders(table: string, dic: Dict, conds: seq<Condition>)
    requires NoQ(table) && AllNoQ(Keys(dic)) && CondsNoQ(conds)
    ensures CountQ(PrepUpdate(table, dic, conds).sql) == |PrepUpdate(table, dic, conds).bind|
  {
    var cols := Keys(dic);
    UpdateHeadQ(table, cols);
    StatementQ(UpdateHead(table, cols), conds);
    assert |PrepUpdate(table, dic, conds).bind| == |dic| + |conds|;
  }

  /** Select and delete text: the base line, then one `\nAND lval op ?` per
      condition in condition order; binds are the `rval`s in condition order. */
  lemma SelectDeleteShape(table: string, columns: seq<string>, conds: seq<Condition>)
    ensures PrepSelect(table, columns, conds).sql == SelectHead(table, columns) + Prefixed("\n", CondLines(conds))
    ensures PrepDelete(table, conds).sql == DeleteHead(table) + Prefixed("\n", CondLines(conds))
    ensures PrepSelect(table, columns, conds).bind == PrepDelete(table, conds).bind
    ensures forall i :: 0 <= i < |conds| ==> PrepSelect(table, columns, conds).bind[i] == conds[i].rval
  {
    JoinHead("\n", SelectHead(table, columns), CondLines(conds));
    JoinHead("\n", DeleteHead(table), CondLines(conds));
  }

  /** Update binds: every SET value in dict order, then every condition value
      in condition order; the SET list is `c = ?` joined by `, `. */
  lemma UpdateShape(table: string, dic: Dict, conds: seq<Condition>)
    ensures PrepUpdate(table, dic, conds).sql
         == "UPDATE " + table + " SET " + Join(", ", SetItems(Keys(dic))) + " WHERE 1 = 1" + Prefixed("\n", CondLines(conds))
    ensures |PrepUpdate(table, dic, conds).bind| == |dic| + |conds|
    ensures forall i :: 0 <= i < |dic| ==> PrepUpdate(table, dic, conds).bind[i] == dic[i].1
    ensures forall i :: 0 <= i < |conds| ==> PrepUpdate(table, dic, conds).bind[|dic| + i] == conds[i].rval
  {
    JoinHead("\n", UpdateHead(table, Keys(dic)), CondLines(conds));
  }

  /** Insert takes its columns and binds from one pass over the dict: equal
      lengths, aligned positions. */
  lemma InsertShape(table: string, dic: Dict)
    ensures PrepInsert(table, dic).sql == InsertText(table, Keys(dic))
    ensures |PrepInsert(table, dic).bind| == |dic|
    ensures forall i :: 0 <= i < |dic| ==> PrepInsert(table, dic).bind[i] == dic[i].1
  {
  }

  /** The key names and the values of `_keysvalues` zip back to the dict. */
  lemma KeysValuesZip(d: Dict)
    ensures var kv := KeysValues(d); seq(|d|, i requires 0 <= i < |d| => (kv.0[i], kv.1[i])) == d
  {
  }

  ghost predicate SameShape(c1: seq<Condition>, c2: seq<Condition>)
  {
    |c1| == |c2| && forall i :: 0 <= i < |c1| ==> c1[i].lval == c2[i].lval && c1[i].op == c2[i].op
  }

  /** Condition values never enter the text: select, delete and update text
      depend only on the table, the columns, the `lval`s and the `op`s. */
  lemma {:induction false} TextIgnoresValues(table: string, columns: seq<string>, c1: seq<Condition>, c2: seq<Condition>, d1: Dict, d2: Dict)
    requires SameShape(c1, c2) && Keys(d1) == Keys(d2)
    ensures PrepSelect(table, columns, c1).sql == PrepSelect(table, columns, c2).sql
    ensures PrepDelete(table, c1).sql == PrepDelete(table, c2).sql
    ensures PrepUpdate(table, d1, c1).sql == PrepUpdate(table, d2, c2).sql
    ensures PrepInsert(table, d1).sql == PrepInsert(table, d2).sql
  {
    assert CondLines(c1) == CondLines(c2);
  }

  /** With no columns, select reads `*` (tests/test_sql_storage.py:32-34). */
  lemma SelectStarExample()
    ensures PrepSelect("mytable", [], []).sql == "SELECT * FROM mytable WHERE 1 = 1"
    ensures PrepSelect("mytable", [], []).bind == []
  {
    assert Join(", ", ["*"]) == "*";
  }

  /** A select or an update with two conditions: the head line and one line
      per condition, newline-separated. */
  lemma TwoCondText(head: string, c1: Condition, c2: Condition)
    ensures Join("\n", [head] + CondLines([c1, c2])) == head + "\n" + CondLine(c1) + "\n" + CondLine(c2)
  {
    var ls := CondLines([c1, c2]);
    assert ls == [CondLine(c1), CondLine(c2)];
    JoinHead("\n", head, ls);
    assert ls[1..] == [CondLine(c2)];
    assert Prefixed("\n", ls[1..]) == "\n" + CondLine(c2);
  }

  lemma SelectExampleHead()
    ensures SelectHead("mytable", ["uno", "due"]) == "SELECT uno, due FROM mytable WHERE 1 = 1"
  {
    assert Join(", ", ["uno", "due"]) == "uno" + ", " + "due";
    assert "SELECT " + "uno, due" == "SELECT uno, due";
    assert "SELECT uno, due" + " FROM " == "SELECT uno, due FROM ";
    assert "SELECT uno, due FROM " + "mytable" == "SELECT uno, due FROM mytable";
    assert "SELECT uno, due FROM mytable" + " WHERE 1 = 1" == "SELECT uno, due FROM mytable WHERE 1 = 1";
  }

  lemma {:induction false} JoinThree(sep: string, a: string, b: string, c: string)
    ensures Join(sep, [a, b, c]) == a + sep + b + sep + c
  {
    assert [a, b, c][1..] == [b, c];
    assert [b, c][1..] == [c];
    assert Join(sep, [b, c]) == b + sep + c;
    assert Join(sep, [a, b, c]) == a + sep + (b + sep + c);
  }

  lemma SetItemsExample()
    ensures SetItems(["uno", "due", "tre"]) == ["uno = ?", "due = ?", "tre = ?"]
  {
    var items := SetItems(["uno", "due", "tre"]);
    assert items[0] == "uno" + " = ?" == "uno = ?";
    assert items[1] == "due" + " = ?" == "due = ?";
    assert items[2] == "tre" + " = ?" == "tre = ?";
  }

  lemma UpdateExampleSet(a: string, b: string, c: string)
    requires a == "uno = ?" && b == "due = ?" && c == "tre = ?"
    ensures a + ", " + b + ", " + c == "uno = ?, due = ?, tre = ?"
  {
    assert a + ", " == "uno = ?, ";
    assert a + ", " + b == "uno = ?, due = ?";
    assert a + ", " + b + ", " == "uno = ?, due = ?, ";
  }

  lemma UpdateExampleWrap(j: string)
    requires j == "uno = ?, due = ?, tre = ?"
    ensures "UPDATE " + "mytable" + " SET " + j + " WHERE 1 = 1" == "UPDATE mytable SET uno = ?, due = ?, tre = ? WHERE 1 = 1"
  {
    assert "UPDATE " + "mytable" == "UPDATE mytable";
    assert "UPDATE mytable" + " SET " == "UPDATE mytable SET ";
    UpdateExampleItems("UPDATE mytable SET ", j);
    UpdateExampleWhere("UPDATE mytable SET uno = ?, due = ?, tre = ?");
  }

  lemma UpdateExampleItems(p: string, j: string)
    requires p == "UPDATE mytable SET " && j == "uno = ?, due = ?, tre = ?"
    ensures p + j == "UPDATE mytable SET uno = ?, due = ?, tre = ?"
  {
  }

  lemma UpdateExampleWhere(m: string)
    requires m == "UPDATE mytable SET uno = ?, due = ?, tre = ?"
    ensures m + " WHERE 1 = 1" == "UPDATE mytable SET uno = ?, due = ?, tre = ? WHERE 1 = 1"
  {
  }

  lemma UpdateExampleHead()
    ensures UpdateHead("mytable", ["uno", "due", "tre"]) == "UPDATE mytable SET uno = ?, due = ?, tre = ? WHERE 1 = 1"
  {
    SetItemsExample();
    JoinThree(", ", "uno = ?", "due = ?", "tre = ?");
    UpdateExampleSet("uno = ?", "due = ?", "tre = ?");
    UpdateExampleWrap(Join(", ", SetItems(["uno", "due", "tre"])));
  }

  lemma CondLineExamples()
    ensures CondLine(Eq("id", Int(1))) == "AND id = ?"
    ensures CondLine(Neq("name", Text("test"))) == "AND name != ?"
    ensures CondLine(Like("name", Text("%test%"))) == "AND name like ?"
  {
    assert "AND " + "id" == "AND id";
    assert "AND id" + " " + "=" == "AND id =";
    assert "AND " + "name" == "AND name";
    assert "AND name" + " " + "!=" == "AND name !=";
    assert "AND name" + " " + "like" == "AND name like";
  }

  lemma SelectExampleJoin(h: string, l1: string, l2: string)
    requires h == "SELECT uno, due FROM mytable WHERE 1 = 1"
    requires l1 == "AND id = ?" && l2 == "AND name != ?"
    ensures h + "\n" + l1 + "\n" + l2 == "SELECT uno, due FROM mytable WHERE 1 = 1\nAND id = ?\nAND name != ?"
  {
    assert h + "\n" == "SELECT uno, due FROM mytable WHERE 1 = 1\n";
    assert h + "\n" + l1 == "SELECT uno, due FROM mytable WHERE 1 = 1\nAND id = ?";
    assert h + "\n" + l1 + "\n" == "SELECT uno, due FROM mytable WHERE 1 = 1\nAND id = ?\n";
  }

  lemma UpdateExampleJoin(h: string, l1: string, l2: string)
    requires h == "UPDATE mytable SET uno = ?, due = ?, tre = ? WHERE 1 = 1"
    requires l1 == "AND id = ?" && l2 == "AND name like ?"
    ensures h + "\n" + l1 + "\n" + l2 == "UPDATE mytable SET uno = ?, due = ?, tre = ? WHERE 1 = 1\nAND id = ?\nAND name like ?"
  {
    assert h + "\n" == "UPDATE mytable SET uno = ?, due = ?, tre = ? WHERE 1 = 1\n";
    assert h + "\n" + l1 == "UPDATE mytable SET uno = ?, due = ?, tre = ? WHERE 1 = 1\nAND id = ?";
    assert h + "\n" + l1 + "\n" == "UPDATE mytable SET uno = ?, due = ?, tre = ? WHERE 1 = 1\nAND id = ?\n";
  }

  /** tests/test_sql_storage.py:28-30. */
  lemma SelectExample()
    ensures PrepSelect("mytable", ["uno", "due"], [Eq("id", Int(1)), Neq("name", Text("test"))]).sql
         == "SELECT uno, due FROM mytable WHERE 1 = 1\nAND id = ?\nAND name != ?"
    ensures PrepSelect("mytable", ["uno", "due"], [Eq("id", Int(1)), Neq("name", Text("test"))]).bind
         == [Int(1), Text("test")]
  {
    var c1, c2 := Eq("id", Int(1)), Neq("name", Text("test"));
    TwoCondText(SelectHead("mytable", ["uno", "due"]), c1, c2);
    SelectExampleHead();
    CondLineExamples();
    SelectExampleJoin(SelectHead("mytable", ["uno", "due"]), CondLine(c1), CondLine(c2));
  }

  /** tests/test_sql_storage.py:19-22. */
  lemma UpdateExample()
    ensures PrepUpdate("mytable", [("uno", Int(1)), ("due", Int(2)), ("tre", Int(3))], [Eq("id", Int(1)), Like("name", Text("%test%"))]).sql
         == "UPDATE mytable SET uno = ?, due = ?, tre = ? WHERE 1 = 1\nAND id = ?\nAND name like ?"
    ensures PrepUpdate("mytable", [("uno", Int(1)), ("due", Int(2)), ("tre", Int(3))], [Eq("id", Int(1)), Like("name", Text("%test%"))]).bind
         == [Int(1), Int(2), Int(3), Int(1), Text("%test%")]
  {
    var dic := [("uno", Int(1)), ("due", Int(2)), ("tre", Int(3))];
    var c1, c2 := Eq("id", Int(1)), Like("name", Text("%test%"));
    var cols := ["uno", "due", "tre"];
    assert Keys(dic) == cols;
    var vals := KeysValues(dic).1;
    assert vals[0] == Int(1) && vals[1] == Int(2) && vals[2] == Int(3);
    assert vals == [Int(1), Int(2), Int(3)];
    var rv := Rvals([c1, c2]);
    assert rv == [Int(1), Text("%test%")] by {
      assert rv[0] == Int(1) && rv[1] == Text("%test%");
    }
    assert vals + rv == [Int(1), Int(2), Int(3), Int(1), Text("%test%")];
    var head := UpdateHead("mytable", cols);
    TwoCondText(head, c1, c2);
    UpdateExampleHead();
    CondLineExamples();
    UpdateExampleJoin(head, CondLine(c1), CondLine(c2));
  }

  /** Select's `get_result`: with distinct description names and full rows,
      the i-th column name maps to the i-th value, in column order. */
  lemma ZipRowExact(columns: seq<string>, vals: seq<Value>)
    requires |columns| == |vals|
    requires forall i, j :: 0 <= i < j < |columns| ==> columns[i] != columns[j]
    ensures Keys(ZipRow(columns, vals)) == columns
    ensures forall i :: 0 <= i < |columns| ==> ZipRow(columns, vals)[i] == (columns[i], vals[i])
  {
    var pairs := seq(|columns|, i requires 0 <= i < |columns| => (columns[i], vals[i]));
    assert DistinctKeys(pairs);
    DictOfDistinct(pairs);
  }
}
