/** The schema-driven helpers of main.py: a table name derived from a schema
    class, the field list of a statement, the SELECT and INSERT texts built
    from it, two namedtuple record templates, and `add_object`, which inserts
    every value of a record but its first and returns the record with the new
    rowid as its `id`. Schemas are reduced to their class name and their
    declared fields in order; the database `add_object` opens is the engine's
    database, passed in and returned. */
module MainSchemas {
  import opened Values
  import opened Statements
  import opened Engine
  import opened Utils
  import Backend

  /** A marshmallow schema class: its name and its declared fields. */
  datatype Schema = Schema(className: string, fields: seq<string>)

  const IngredientSchema: Schema :=
    Schema("IngredientSchema", ["id", "name", "calories", "sugar", "veg_protein", "protein", "carbo"])
  const MealSchema: Schema := Schema("MealSchema", ["id", "name", "date"])
  const MealIngredientSchema: Schema := Schema("MealIngredientSchema", ["id", "meal_id", "ingredient_id", "quantity"])

  /** The tables `create_db` creates (main.py:113-148). */
  const CreatedTables: set<string> := {"ingredient", "meal", "meal_ingredients"}

  // ---------------------------------------------------------------------------
  // _table_name

  /** `s.replace(pat, '')`: every occurrence of `pat` removed, scanning from
      the left and never overlapping. */
  function RemoveAll(s: string, pat: string): (r: string)
    requires |pat| > 0
    ensures |r| <= |s|
    decreases |s|
  {
    if |s| < |pat| then s
    else if s[..|pat|] == pat then RemoveAll(s[|pat|..], pat)
    else [s[0]] + RemoveAll(s[1..], pat)
  }

  ghost predicate OccursAt(s: string, pat: string, i: int)
  {
    0 <= i && i + |pat| <= |s| && s[i..i + |pat|] == pat
  }

  /** A text in which `pat` does not occur is left as it is. */
  lemma {:induction false} RemoveAbsent(s: string, pat: string)
    requires |pat| > 0
    requires forall i :: 0 <= i <= |s| - |pat| ==> !OccursAt(s, pat, i)
    ensures RemoveAll(s, pat) == s
    decreases |s|
  {
    if |s| >= |pat| {
      assert !OccursAt(s, pat, 0);
      forall i | 0 <= i <= |s[1..]| - |pat|
        ensures !OccursAt(s[1..], pat, i)
      {
        assert !OccursAt(s, pat, i + 1);
        assert s[1..][i..i + |pat|] == s[i + 1..i + 1 + |pat|];
      }
      RemoveAbsent(s[1..], pat);
      assert s == [s[0]] + s[1..];
    }
  }

  /** A trailing `pat` goes when nothing before it starts with its first
      character. */
  lemma {:induction false} RemoveTrailing(x: string, pat: string)
    requires |pat| > 0 && pat[0] !in x
    ensures RemoveAll(x + pat, pat) == x
    decreases |x|
  {
    if |x| == 0 {
      assert x + pat == pat;
      assert pat[|pat|..] == [];
    } else {
      var s := x + pat;
      assert s[0] == x[0] != pat[0];
      assert s[..|pat|] != pat by {
        assert s[..|pat|][0] == x[0];
      }
      assert s[1..] == x[1..] + pat;
      RemoveTrailing(x[1..], pat);
      assert x == [x[0]] + x[1..];
    }
  }

  function LowerChar(c: char): char
  {
    if 'A' <= c <= 'Z' then (c as int - 'A' as int + 'a' as int) as char else c
  }

  /** `str.lower()` on ASCII letters. */
  function Lower(s: string): (r: string)
    ensures |r| == |s|
  {
    seq(|s|, i requires 0 <= i < |s| => LowerChar(s[i]))
  }

  /** A lowered text has no capital letters and lowering it again changes
      nothing. */
  lemma LowerSettled(s: string)
    ensures forall i :: 0 <= i < |s| ==> !('A' <= Lower(s)[i] <= 'Z')
    ensures Lower(Lower(s)) == Lower(s)
  {
  }

  /** `_table_name(name, cls)` */
  function TableName(name: Option<string>, cls: Schema): string
  {
    if name.Some? then name.value else Lower(RemoveAll(cls.className, "Schema"))
  }

  /** An explicit name wins; otherwise a class named `X` + "Schema", with no
      capital S in `X`, gives `X` lowered. */
  lemma TableNameParts(name: Option<string>, x: string, fields: seq<string>)
    requires 'S' !in x
    ensures name.Some? ==> TableName(name, Schema(x + "Schema", fields)) == name.value
    ensures name.None? ==> TableName(name, Schema(x + "Schema", fields)) == Lower(x)
  {
    RemoveTrailing(x, "Schema");
  }

  /** The three class names without "Schema", lowered. */
  lemma LowerClassNames()
    ensures Lower("Ingredient") == "ingredient"
    ensures Lower("Meal") == "meal"
    ensures Lower("MealIngredient") == "mealingredient"
  {
    var x, y := "MealIngredient", "mealingredient";
    forall i | 0 <= i < |x|
      ensures Lower(x)[i] == y[i]
    {
      if i != 0 && i != 4 {
        assert !('A' <= x[i] <= 'Z');
      }
    }
    assert x[..4] == "Meal" && y[..4] == "meal" && x[4..] == "Ingredient" && y[4..] == "ingredient";
    assert Lower("Meal") == Lower(x)[..4];
    assert Lower("Ingredient") == Lower(x)[4..];
  }

  /** The default name of IngredientSchema. */
  lemma IngredientTableName()
    ensures TableName(None, IngredientSchema) == "ingredient"
  {
    LowerClassNames();
    DefaultTableName("Ingredient", IngredientSchema);
  }

  /** The default name of MealSchema. */
  lemma MealTableName()
    ensures TableName(None, MealSchema) == "meal"
  {
    LowerClassNames();
    DefaultTableName("Meal", MealSchema);
  }

  /** The default name of MealIngredientSchema, which is not the
      `meal_ingredients` table `create_db` creates. */
  lemma MealIngredientTableName()
    ensures TableName(None, MealIngredientSchema) == "mealingredient"
    ensures TableName(None, MealIngredientSchema) !in CreatedTables
  {
    LowerClassNames();
    DefaultTableName("MealIngredient", MealIngredientSchema);
  }

  lemma DefaultTableName(x: string, cls: Schema)
    requires cls.className == x + "Schema" && 'S' !in x
    ensures TableName(None, cls) == Lower(x)
  {
    TableNameParts(None, x, cls.fields);
  }

  // ---------------------------------------------------------------------------
  // prepare_stmt, select_sql, insert_sql

  /** `stmt_components(fields, table_name)` */
  datatype StmtComponents = StmtComponents(fields: seq<string>, tableName: string)

  /** The `ignore` default, `['id']`. */
  function IgnoreOr(ignore: Option<seq<string>>): seq<string>
  {
    if ignore.Some? then ignore.value else ["id"]
  }

  /** `prepare_stmt(cls, table_name, ignore)` */
  function PrepareStmt(cls: Schema, tableName: Option<string>, ignore: Option<seq<string>>): StmtComponents
  {
    var ign := IgnoreOr(ignore);
    StmtComponents(Extract(cls.fields, f => f !in ign), TableName(tableName, cls))
  }

  /** The prepared fields are the declared ones that are not ignored, in
      declared order. */
  lemma PrepareFields(cls: Schema, tableName: Option<string>, ignore: Option<seq<string>>)
    ensures Subsequence(PrepareStmt(cls, tableName, ignore).fields, cls.fields)
    ensures forall f :: f in PrepareStmt(cls, tableName, ignore).fields <==> f in cls.fields && f !in IgnoreOr(ignore)
  {
    var ign := IgnoreOr(ignore);
    ExtractSubsequence(cls.fields, f => f !in ign);
    forall f
      ensures f in PrepareStmt(cls, tableName, ignore).fields <==> f in cls.fields && f !in ign
    {
      ExtractMembers(cls.fields, f => f !in ign, f);
    }
  }

  /** With the default `ignore`, a schema whose first field is its only `id`
      prepares every field but the first; with `ignore=[]`, every field. */
  lemma PrepareDefault(cls: Schema, tableName: Option<string>)
    requires |cls.fields| > 0 && cls.fields[0] == "id" && "id" !in cls.fields[1..]
    ensures PrepareStmt(cls, tableName, None).fields == cls.fields[1..]
    ensures PrepareStmt(cls, tableName, Some([])).fields == cls.fields
  {
    var ign: seq<string> := ["id"];
    ExtractAllOrNone(cls.fields[1..], f => f !in ign);
    ExtractAllOrNone(cls.fields, f => f !in []);
  }

  /** The three schemas meet `PrepareDefault`'s condition. */
  lemma SchemasLeadWithId()
    ensures forall cls :: cls in {IngredientSchema, MealSchema, MealIngredientSchema} ==>
              |cls.fields| > 0 && cls.fields[0] == "id" && "id" !in cls.fields[1..]
  {
    assert IngredientSchema.fields[1..] == ["name", "calories", "sugar", "veg_protein", "protein", "carbo"];
    assert MealSchema.fields[1..] == ["name", "date"];
    assert MealIngredientSchema.fields[1..] == ["meal_id", "ingredient_id", "quantity"];
  }

  /** `select_sql(cls, table_name, ignore)` */
  function SelectSql(cls: Schema, tableName: Option<string>, ignore: Option<seq<string>>): string
  {
    var prep := PrepareStmt(cls, tableName, ignore);
    Backend.SelectLine(prep.tableName, prep.fields)
  }

  /** `insert_sql(cls, table_name, ignore)`: `', '.join('?' * n)` is `n`
      question marks separated by `, `, as in sql_storage.py. */
  function InsertSql(cls: Schema, tableName: Option<string>, ignore: Option<seq<string>>): string
  {
    var prep := PrepareStmt(cls, tableName, ignore);
    InsertText(prep.tableName, prep.fields)
  }

  /** With at least one field, main.py's select text is the first line of
      sql_storage.py's; neither holds a placeholder. */
  lemma SelectSqlAgrees(cls: Schema, tableName: Option<string>, ignore: Option<seq<string>>)
    requires NoQ(TableName(tableName, cls)) && AllNoQ(cls.fields)
    ensures var prep := PrepareStmt(cls, tableName, ignore);
            |prep.fields| > 0 ==> SelectSql(cls, tableName, ignore) == SelectHead(prep.tableName, prep.fields)
    ensures CountQ(SelectSql(cls, tableName, ignore)) == 0
  {
    var prep := PrepareStmt(cls, tableName, ignore);
    PreparedNoQ(cls, tableName, ignore);
    Backend.SelectLineQ(prep.tableName, prep.fields);
  }

  /** The insert text holds one `?` per prepared field. */
  lemma InsertSqlPlaceholders(cls: Schema, tableName: Option<string>, ignore: Option<seq<string>>)
    requires NoQ(TableName(tableName, cls)) && AllNoQ(cls.fields)
    ensures CountQ(InsertSql(cls, tableName, ignore)) == |PrepareStmt(cls, tableName, ignore).fields|
  {
    var prep := PrepareStmt(cls, tableName, ignore);
    PreparedNoQ(cls, tableName, ignore);
    InsertTextQ(prep.tableName, prep.fields);
  }

  lemma PreparedNoQ(cls: Schema, tableName: Option<string>, ignore: Option<seq<string>>)
    requires AllNoQ(cls.fields)
    ensures AllNoQ(PrepareStmt(cls, tableName, ignore).fields)
  {
    var fs := PrepareStmt(cls, tableName, ignore).fields;
    PrepareFields(cls, tableName, ignore);
    forall i | 0 <= i < |fs|
      ensures NoQ(fs[i])
    {
      assert fs[i] in cls.fields;
      var j :| 0 <= j < |cls.fields| && cls.fields[j] == fs[i];
    }
  }

  // ---------------------------------------------------------------------------
  // Record templates

  /** A namedtuple: its field names and its values, position by position. */
  datatype Tuple = Tuple(fields: seq<string>, values: seq<Value>)

  /** The keywords that are not fields of `t`, in `kwds` order. */
  function Unexpected(t: Tuple, kwds: Dict): seq<string>
  {
    Extract(Keys(kwds), k => k !in t.fields)
  }

  /** The value at field `i` after `_replace`: the keyword's, when the field
      is named, else the tuple's own. */
  function ValueAfter(t: Tuple, kwds: Dict, i: nat): Value
    requires i < |t.fields| == |t.values|
  {
    match Lookup(kwds, t.fields[i]) case Some(v) => v case None => t.values[i]
  }

  /** `t._replace(**kwds)`: each field named in `kwds` takes the given value;
      names that are not fields raise ValueError, listed in `kwds` order. */
  function Replace(t: Tuple, kwds: Dict): (r: Result<Tuple, Error>)
    requires |t.fields| == |t.values|
  {
    if |Unexpected(t, kwds)| > 0 then Err(ValueError(Unexpected(t, kwds)))
    else Ok(Tuple(t.fields, seq(|t.fields|, i requires 0 <= i < |t.fields| => ValueAfter(t, kwds, i))))
  }

  /** The unexpected names are the keywords that are not fields. */
  lemma UnexpectedSpec(t: Tuple, kwds: Dict)
    ensures forall k :: k in Unexpected(t, kwds) <==> k in Keys(kwds) && k !in t.fields
    ensures |Unexpected(t, kwds)| == 0 <==> forall k :: k in Keys(kwds) ==> k in t.fields
  {
    var p := (k: string) => k !in t.fields;
    forall k
      ensures k in Unexpected(t, kwds) <==> k in Keys(kwds) && k !in t.fields
    {
      ExtractMembers(Keys(kwds), p, k);
    }
    if |Unexpected(t, kwds)| > 0 {
      assert Unexpected(t, kwds)[0] in Unexpected(t, kwds);
    }
  }

  /** `_replace` fails exactly when some keyword is not a field, naming those
      keywords; otherwise the fields stay, a named field takes the keyword's
      value and every other field keeps its own. */
  lemma ReplaceSpec(t: Tuple, kwds: Dict)
    requires |t.fields| == |t.values|
    ensures Replace(t, kwds).Ok? <==> forall k :: k in Keys(kwds) ==> k in t.fields
    ensures Replace(t, kwds).Err? ==>
              Replace(t, kwds).error.ValueError?
              && forall k :: k in Replace(t, kwds).error.unexpected <==> k in Keys(kwds) && k !in t.fields
    ensures Replace(t, kwds).Ok? ==>
              var u := Replace(t, kwds).value;
              && u.fields == t.fields && |u.values| == |t.values|
              && forall i :: 0 <= i < |t.fields| ==>
                   u.values[i] == if t.fields[i] in Keys(kwds) then Lookup(kwds, t.fields[i]).value else t.values[i]
  {
    UnexpectedSpec(t, kwds);
  }

  /** Replacing nothing gives the tuple back. */
  lemma ReplaceNothing(t: Tuple)
    requires |t.fields| == |t.values|
    ensures Replace(t, []) == Ok(t)
  {
    UnexpectedSpec(t, []);
    var u := Replace(t, []).value;
    assert u.values == t.values by {
      forall i | 0 <= i < |t.fields|
        ensures u.values[i] == t.values[i]
      {
        assert ValueAfter(t, [], i) == t.values[i];
      }
    }
  }

  /** Replacing twice with the same keywords is replacing once. */
  lemma ReplaceTwice(t: Tuple, kwds: Dict)
    requires |t.fields| == |t.values| && Replace(t, kwds).Ok?
    ensures Replace(Replace(t, kwds).value, kwds) == Replace(t, kwds)
  {
    var u := Replace(t, kwds).value;
    UnexpectedSpec(t, kwds);
    UnexpectedSpec(u, kwds);
    var w := Replace(u, kwds).value;
    assert w.values == u.values by {
      forall i | 0 <= i < |t.fields|
        ensures w.values[i] == u.values[i]
      {
        assert w.values[i] == ValueAfter(u, kwds, i);
        assert u.values[i] == ValueAfter(t, kwds, i);
      }
    }
  }

  /** The template `ingredient` starts from: id None, the name, five zero
      figures. */
  function IngredientBase(name: Value): (t: Tuple)
    ensures |t.fields| == |t.values|
  {
    Tuple(IngredientSchema.fields, [Null, name, Int(0), Int(0), Int(0), Int(0), Int(0)])
  }

  /** `ingredient(name, **kwds)`. Python's call rules keep `name` out of
      `kwds`. */
  function IngredientTemplate(name: Value, kwds: Dict): Result<Tuple, Error>
  {
    Replace(IngredientBase(name), kwds)
  }

  /** The template fails exactly on a keyword that is not a field, with
      ValueError. */
  lemma IngredientTemplateFails(name: Value, kwds: Dict)
    ensures var r := IngredientTemplate(name, kwds);
            && (r.Ok? <==> forall k :: k in Keys(kwds) ==> k in IngredientSchema.fields)
            && (r.Err? ==> r.error.ValueError?)
  {
    ReplaceSpec(IngredientBase(name), kwds);
  }

  /** A template that succeeds has the schema's fields; the name as given;
      `id` None and the figures 0 unless a keyword names them. */
  lemma IngredientTemplateValues(name: Value, kwds: Dict)
    requires "name" !in Keys(kwds) && IngredientTemplate(name, kwds).Ok?
    ensures var t := IngredientTemplate(name, kwds).value;
            && t.fields == IngredientSchema.fields
            && t.values[1] == name
            && t.values[0] == (if "id" in Keys(kwds) then Lookup(kwds, "id").value else Null)
            && forall i :: 2 <= i < 7 ==>
                 t.values[i] == if IngredientSchema.fields[i] in Keys(kwds) then Lookup(kwds, IngredientSchema.fields[i]).value else Int(0)
  {
    ReplaceSpec(IngredientBase(name), kwds);
  }

  /** `meal_ingredient(name, meal_id, ingr_id, quantity)` */
  function MealIngredientTemplate(name: Value, mealId: Value, ingrId: Value, quantity: Value): (t: Tuple)
    ensures t.fields == MealIngredientSchema.fields && |t.values| == 4 && t.values[0] == Null
  {
    Tuple(MealIngredientSchema.fields, [Null, mealId, ingrId, quantity])
  }

  /** `name` is not used: the record carries the three other arguments, in
      field order. */
  lemma MealIngredientTemplateSpec(name: Value, other: Value, mealId: Value, ingrId: Value, quantity: Value)
    ensures MealIngredientTemplate(name, mealId, ingrId, quantity) == MealIngredientTemplate(other, mealId, ingrId, quantity)
    ensures MealIngredientTemplate(name, mealId, ingrId, quantity).values[1..] == [mealId, ingrId, quantity]
  {
  }

  // ---------------------------------------------------------------------------
  // add_object

  /** The dict of column names to values that `add_object`'s statement
      stores: each prepared field with the value at the same position of
      `obj[1:]`. */
  function Pairs(fields: seq<string>, vals: seq<Value>): (d: Dict)
    requires |fields| == |vals|
    ensures Keys(d) == fields
  {
    seq(|fields|, i requires 0 <= i < |fields| => (fields[i], vals[i]))
  }

  /** `obj[1:]`: every value but the first. */
  function Tail(vals: seq<Value>): (r: seq<Value>)
    ensures |vals| > 0 ==> r == vals[1..]
    ensures |vals| == 0 ==> r == []
  {
    if |vals| == 0 then [] else vals[1..]
  }

  /** What `add_object` hands to the cursor: the insert text of the schema
      into `insert_sql`'s table and `obj[1:]`, read back through `lastrowid`. */
  function AddObjectPrep(obj: Tuple, cls: Schema, tableName: Option<string>): Prep
  {
    Prep(InsertSql(cls, tableName, None), Tail(obj.values), LastRowId)
  }

  /** The INSERT the text stands for, its values still to be bound. */
  function AddObjectShape(cls: Schema, tableName: Option<string>): Statement
  {
    var prep := PrepareStmt(cls, tableName, None);
    Insert(prep.tableName, Pairs(prep.fields, seq(|prep.fields|, _ => Null)))
  }

  /** The body of `add_object` when `insert_sql` is given `tableName`: run the
      insert, then `obj._replace(id=rowid)`. */
  function AddObjectInto(db: Db, obj: Tuple, cls: Schema, tableName: Option<string>): (Db, Result<Tuple, Error>)
    requires |obj.fields| == |obj.values|
  {
    var (db', r) := Run(db, AddObjectPrep(obj, cls, tableName), AddObjectShape(cls, tableName));
    match r
    case Err(e) => (db', Err(e))
    case Ok(o) =>
      var id := if o.RowIdOf? && o.id.Some? then Int(o.id.value) else Null;
      (db', Replace(obj, [("id", id)]))
  }

  /** `add_object(obj, Schema)`, which calls `insert_sql(Schema)` and so
      writes to the schema's default table. */
  function AddObject(db: Db, obj: Tuple, cls: Schema): (Db, Result<Tuple, Error>)
    requires |obj.fields| == |obj.values|
  {
    AddObjectInto(db, obj, cls, None)
  }

  /** For a record of the schema's own fields, `obj[1:]` lines up with the
      prepared fields: `add_object` is the insert of each field but `id` with
      the record's value for it, and on success the record comes back with
      only `id` changed, to the new rowid. */
  lemma AddObjectInserts(db: Db, obj: Tuple, cls: Schema, tableName: Option<string>)
    requires |obj.fields| == |obj.values| && obj.fields == cls.fields
    requires |cls.fields| > 0 && cls.fields[0] == "id" && "id" !in cls.fields[1..]
    ensures var s := Insert(TableName(tableName, cls), Pairs(cls.fields[1..], obj.values[1..]));
            var (db', r) := AddObjectInto(db, obj, cls, tableName);
            && db' == Exec(db, s).0
            && (r.Ok? <==> Exec(db, s).1.Ok?)
            && (r.Err? ==> r.error == Exec(db, s).1.error)
            && (r.Ok? ==> r.value == Tuple(obj.fields, obj.values[0 := if Exec(db, s).1.value.lastRowId.Some?
                                                                        then Int(Exec(db, s).1.value.lastRowId.value) else Null]))
  {
    var s := Insert(TableName(tableName, cls), Pairs(cls.fields[1..], obj.values[1..]));
    AddObjectRuns(db, obj, cls, tableName);
    var (db', r) := Exec(db, s);
    if r.Ok? {
      var id := if r.value.lastRowId.Some? then Int(r.value.lastRowId.value) else Null;
      ReplaceId(obj, id);
    }
  }

  /** Running the prepared text is executing the bound insert and reading its
      rowid. */
  lemma AddObjectRuns(db: Db, obj: Tuple, cls: Schema, tableName: Option<string>)
    requires |obj.fields| == |obj.values| && obj.fields == cls.fields
    requires |cls.fields| > 0 && cls.fields[0] == "id" && "id" !in cls.fields[1..]
    ensures var s := Insert(TableName(tableName, cls), Pairs(cls.fields[1..], obj.values[1..]));
            Run(db, AddObjectPrep(obj, cls, tableName), AddObjectShape(cls, tableName)) == (Exec(db, s).0, Finish(Exec(db, s).1, LastRowId))
  {
    PrepareDefault(cls, tableName);
    var fs := cls.fields[1..];
    var vals := obj.values[1..];
    var s := Insert(TableName(tableName, cls), Pairs(fs, vals));
    var shape := AddObjectShape(cls, tableName);
    var p := AddObjectPrep(obj, cls, tableName);
    assert p.sql == Prepare(shape).sql;
    SameKeysSameProblem(db, TableName(tableName, cls), shape.dic, s.dic);
    if Problem(db, s).None? {
      assert |p.bind| == Slots(shape);
      assert Rebind(shape, p.bind) == s by {
        RebindPairs(fs, vals);
      }
    }
  }

  /** Whether an insert resolves depends on the table and the column names
      only. */
  lemma SameKeysSameProblem(db: Db, table: string, d1: Dict, d2: Dict)
    requires Keys(d1) == Keys(d2)
    ensures Problem(db, Insert(table, d1)) == Problem(db, Insert(table, d2))
  {
    assert |d1| == |Keys(d1)| == |Keys(d2)| == |d2|;
    assert Prepare(Insert(table, d1)).sql == Prepare(Insert(table, d2)).sql;
  }

  lemma RebindPairs(fields: seq<string>, vals: seq<Value>)
    requires |fields| == |vals|
    ensures WithValues(Pairs(fields, seq(|fields|, _ => Null)), vals) == Pairs(fields, vals)
  {
  }

  /** Replacing `id` in a record that has it as its only first field. */
  lemma ReplaceId(obj: Tuple, id: Value)
    requires |obj.fields| == |obj.values| && |obj.fields| > 0 && obj.fields[0] == "id" && "id" !in obj.fields[1..]
    ensures Replace(obj, [("id", id)]) == Ok(Tuple(obj.fields, obj.values[0 := id]))
  {
    var kw: Dict := [("id", id)];
    assert Keys(kw) == ["id"];
    UnexpectedSpec(obj, kw);
    assert |Unexpected(obj, kw)| == 0 by {
      assert obj.fields[0] in obj.fields;
    }
    var u := Replace(obj, kw).value;
    assert u.values == obj.values[0 := id] by {
      forall i | 0 <= i < |obj.fields|
        ensures u.values[i] == obj.values[0 := id][i]
      {
        assert u.values[i] == ValueAfter(obj, kw, i);
        if i > 0 {
          assert obj.fields[i] == obj.fields[1..][i - 1];
          assert obj.fields[i] != "id";
        }
      }
    }
  }

  /** A MealIngredient record goes to the `mealingredient` table, which
      `create_db` does not create: the insert fails whatever the record. */
  lemma AddMealIngredientObjectFails(db: Db, obj: Tuple)
    requires |obj.fields| == |obj.values|
    requires "mealingredient" !in db.tables
    ensures AddObject(db, obj, MealIngredientSchema) == (db, Err(NoSuchTable("mealingredient")))
  {
    MealIngredientTableName();
    SchemasLeadWithId();
    PrepareDefault(MealIngredientSchema, None);
    var shape := AddObjectShape(MealIngredientSchema, None);
    assert |shape.dic| == 3;
    assert Problem(db, shape) == Some(NoSuchTable("mealingredient"));
  }

  /** `add_meal_ingredient` as evidently intended: the record goes to the
      `meal_ingredients` table `create_db` makes, by passing that name on to
      `insert_sql`. */
  function AddMealIngredientObject(db: Db, obj: Tuple): (Db, Result<Tuple, Error>)
    requires |obj.fields| == |obj.values|
  {
    AddObjectInto(db, obj, MealIngredientSchema, Some("meal_ingredients"))
  }

  /** The corrected `add_meal_ingredient` writes to a created table. When the
      table has the three columns, the insert resolves, and the outcome is
      that of inserting `meal_id`, `ingredient_id` and `quantity` with the
      record's values, the record coming back with the new rowid as its id. */
  lemma AddMealIngredientObjectInserts(db: Db, obj: Tuple)
    requires |obj.fields| == |obj.values| && obj.fields == MealIngredientSchema.fields
    ensures TableName(Some("meal_ingredients"), MealIngredientSchema) in CreatedTables
    ensures var s := Insert("meal_ingredients", Pairs(["meal_id", "ingredient_id", "quantity"], obj.values[1..]));
            var (db', r) := AddMealIngredientObject(db, obj);
            && ("meal_ingredients" in db.tables
                && Unknown(["meal_id", "ingredient_id", "quantity"], Names(db.tables["meal_ingredients"])).None?
                ==> Problem(db, s).None?)
            && db' == Exec(db, s).0
            && (r.Ok? <==> Exec(db, s).1.Ok?)
            && (r.Err? ==> r.error == Exec(db, s).1.error)
            && (r.Ok? ==> r.value == Tuple(obj.fields, obj.values[0 := if Exec(db, s).1.value.lastRowId.Some?
                                                                        then Int(Exec(db, s).1.value.lastRowId.value) else Null]))
  {
    SchemasLeadWithId();
    var fs: seq<string> := ["meal_id", "ingredient_id", "quantity"];
    assert MealIngredientSchema.fields[1..] == fs;
    AddObjectInserts(db, obj, MealIngredientSchema, Some("meal_ingredients"));
    var s := Insert("meal_ingredients", Pairs(fs, obj.values[1..]));
    assert Keys(s.dic) == fs;
  }
}
