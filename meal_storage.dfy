/** `MealStorage` (meal_storage.py): the three tables of the application, the
    statements that create, empty and drop them, and the add/get/delete
    operations on Ingredient, Meal and MealIngredient records, all over a
    `SQLStorage`. Adding a record writes its dump (without `id`) and stores the
    new rowid in the record's `id`; getting records loads every selected row
    into a new record object. */
module MealStorage {
  import opened Values
  import opened Conditions
  import opened Statements
  import opened Engine
  import opened SqlStorage
  import opened Utils
  import opened DateText
  import opened Model

  // ---------------------------------------------------------------------------
  // Schema (meal_storage.py:37-67)

  /** `ingredients`: a nullable name, then six FLOAT DEFAULT 0 NOT NULL columns;
      sqlite stores the integer default of a FLOAT column as 0.0. */
  const IngredientsSchema: seq<Column> := [
    Column("name", false, Null),
    Column("calories", true, Real(0.0)),
    Column("fats", true, Real(0.0)),
    Column("sugar", true, Real(0.0)),
    Column("veg_protein", true, Real(0.0)),
    Column("protein", true, Real(0.0)),
    Column("carbo", true, Real(0.0))]

  /** `meals`: a NOT NULL date and a nullable name. */
  const MealsSchema: seq<Column> := [
    Column("date", true, Null),
    Column("name", false, Null)]

  /** `meal_ingredients`: three NOT NULL columns without defaults; the foreign
      keys are declared but sqlite does not enforce them by default. */
  const MealIngredientsSchema: seq<Column> := [
    Column("ingredient_id", true, Null),
    Column("meal_id", true, Null),
    Column("quantity", true, Null)]

  /** The tables this storage owns. */
  const Owned: set<string> := {"ingredients", "meals", "meal_ingredients"}

  /** `init()` */
  const InitDdl: seq<Ddl> := [
    CreateTable("ingredients", "id", IngredientsSchema),
    CreateTable("meals", "id", MealsSchema),
    CreateTable("meal_ingredients", "id", MealIngredientsSchema)]

  /** `clear()` */
  const ClearDdl: seq<Ddl> := [DeleteAll("meal_ingredients"), DeleteAll("ingredients"), DeleteAll("meals")]

  /** `delete()` */
  const DropDdl: seq<Ddl> := [DropTable("meal_ingredients"), DropTable("ingredients"), DropTable("meals")]

  /** The three tables as `init()` creates them, empty. */
  function Created(db: Db): Db
  {
    Db(db.tables["ingredients" := Table("id", IngredientsSchema, [])]
                 ["meals" := Table("id", MealsSchema, [])]
                 ["meal_ingredients" := Table("id", MealIngredientsSchema, [])])
  }

  /** `delete()` runs each statement on its own and ignores its failure. */
  function DropEach(db: Db, ddl: seq<Ddl>): Db
    decreases |ddl|
  {
    if |ddl| == 0 then db else DropEach(ApplyAll(db, [ddl[0]]).0, ddl[1..])
  }

  // ---------------------------------------------------------------------------
  // What the operations compute

  /** `insert(table, row)`: the new database and the reported rowid. */
  function InsertRow(db: Db, table: string, row: Dict): (Db, Result<Option<int>, Error>)
  {
    var (db', r) := Exec(db, Insert(table, row));
    (db', match r case Ok(c) => Ok(c.lastRowId) case Err(e) => Err(e))
  }

  /** `select(table, columns, conds)`: one dict per selected row. */
  function SelectRows(db: Db, table: string, columns: seq<string>, conds: seq<Condition>): Result<seq<Dict>, Error>
  {
    match Exec(db, Select(table, columns, conds)).1
    case Ok(c) => Ok(ZipAll(c))
    case Err(e) => Err(e)
  }

  /** `get_ingredients(*conds)` */
  function IngredientsOf(db: Db, conds: seq<Condition>): Result<seq<IngredientData>, Error>
  {
    match SelectRows(db, "ingredients", IngredientColumns, conds)
    case Ok(rows) => Ok(Refine(rows, LoadIngredient))
    case Err(e) => Err(e)
  }

  /** `get_meals(*conds)` */
  function MealsOf(db: Db, conds: seq<Condition>): Result<seq<MealData>, Error>
  {
    match SelectRows(db, "meals", MealColumns, conds)
    case Ok(rows) => Ok(Refine(rows, LoadMeal))
    case Err(e) => Err(e)
  }

  /** `get_meal_ingredients(*conds)` */
  function MealIngredientsOf(db: Db, conds: seq<Condition>): Result<seq<MealIngredientData>, Error>
  {
    match SelectRows(db, "meal_ingredients", MealIngredientColumns, conds)
    case Ok(rows) => Ok(Refine(rows, LoadMealIngredient))
    case Err(e) => Err(e)
  }

  /** The rows of a table, none when it does not exist. */
  ghost function Count(db: Db, name: string): nat
  {
    if name in db.tables then |db.tables[name].rows| else 0
  }

  /** `d1` is `d0` with rows appended to some of its tables. */
  ghost predicate Extends(d0: Db, d1: Db)
  {
    && d0.tables.Keys == d1.tables.Keys
    && forall n :: n in d0.tables ==>
         && d1.tables[n].key == d0.tables[n].key
         && d1.tables[n].columns == d0.tables[n].columns
         && |d0.tables[n].rows| <= |d1.tables[n].rows|
         && d1.tables[n].rows[..|d0.tables[n].rows|] == d0.tables[n].rows
  }

  // ---------------------------------------------------------------------------
  // Properties of the schema statements

  /** `init()` succeeds exactly when none of the three tables exists, and then
      adds them empty; on an existing one it stops with TableExists. */
  lemma InitCreates(db: Db)
    ensures ApplyAll(db, InitDdl).1.None? <==> Owned !! db.tables.Keys
    ensures Owned !! db.tables.Keys ==> ApplyAll(db, InitDdl).0 == Created(db)
    ensures "ingredients" in db.tables ==> ApplyAll(db, InitDdl) == (db, Some(TableExists("ingredients")))
  {
    var d1 := Db(db.tables["ingredients" := Table("id", IngredientsSchema, [])]);
    var d2 := Db(d1.tables["meals" := Table("id", MealsSchema, [])]);
    var d3 := Db(d2.tables["meal_ingredients" := Table("id", MealIngredientsSchema, [])]);
    SchemaColumnsDistinct();
    CreateStep(db, InitDdl[0]);
    CreateStep(d1, InitDdl[1]);
    CreateStep(d2, InitDdl[2]);
    assert InitDdl[1..] == [InitDdl[1], InitDdl[2]];
    assert InitDdl[1..][1..] == [InitDdl[2]];
    assert InitDdl[1..][1..][1..] == [];
    if "ingredients" !in db.tables {
      assert ApplyAll(db, InitDdl) == ApplyAll(d1, InitDdl[1..]);
      if "meals" !in db.tables {
        assert ApplyAll(d1, InitDdl[1..]) == ApplyAll(d2, InitDdl[1..][1..]);
        if "meal_ingredients" !in db.tables {
          assert ApplyAll(d2, InitDdl[1..][1..]) == (d3, None);
        }
      }
    }
  }

  /** A table whose column names are distinct is created exactly when its
      name is free. */
  lemma CreateStep(db: Db, d: Ddl)
    requires d.CreateTable? && Duplicate([d.key] + ColumnNames(d.columns)).None?
    ensures ApplyDdl(db, d)
            == if d.name in db.tables then Err(TableExists(d.name))
               else Ok(Db(db.tables[d.name := Table(d.key, d.columns, [])]))
  {
  }

  lemma SchemaColumnsDistinct()
    ensures Duplicate(["id"] + ColumnNames(IngredientsSchema)).None?
    ensures Duplicate(["id"] + ColumnNames(MealsSchema)).None?
    ensures Duplicate(["id"] + ColumnNames(MealIngredientsSchema)).None?
  {
    IngredientsShape();
    MealsShape();
    MealIngredientsShape();
  }

  /** `clear()` succeeds exactly when the three tables exist, and then empties
      them and nothing else. */
  lemma ClearEmpties(db: Db)
    ensures ApplyAll(db, ClearDdl).1.None? <==> Owned <= db.tables.Keys
    ensures Owned <= db.tables.Keys ==>
      var d := ApplyAll(db, ClearDdl).0;
      && d.tables.Keys == db.tables.Keys
      && (forall n :: n in Owned ==> d.tables[n] == db.tables[n].(rows := []))
      && (forall n :: n in db.tables && n !in Owned ==> d.tables[n] == db.tables[n])
  {
    assert ClearDdl[1..] == [ClearDdl[1], ClearDdl[2]];
    assert ClearDdl[1..][1..] == [ClearDdl[2]];
    assert ClearDdl[1..][1..][1..] == [];
  }

  lemma DropOne(db: Db, name: string)
    ensures DropEach(db, [DropTable(name)]).tables == db.tables - {name}
  {
    assert [DropTable(name)][1..] == [];
    var d := ApplyAll(db, [DropTable(name)]).0;
    assert DropEach(db, [DropTable(name)]) == DropEach(d, []);
    if name in db.tables {
      assert ApplyDdl(db, DropTable(name)) == Ok(Db(db.tables - {name}));
      assert d == ApplyAll(Db(db.tables - {name}), []).0;
    } else {
      assert d == db;
      assert db.tables - {name} == db.tables;
    }
  }

  /** `delete()` removes whichever of the three tables exist and keeps every
      other table, whatever state it starts from. */
  lemma DeleteDrops(db: Db)
    ensures DropEach(db, DropDdl).tables == db.tables - Owned
  {
    var d1 := ApplyAll(db, [DropTable("meal_ingredients")]).0;
    var d2 := ApplyAll(d1, [DropTable("ingredients")]).0;
    DropOne(db, "meal_ingredients");
    DropOne(d1, "ingredients");
    DropOne(d2, "meals");
    assert DropDdl[1..] == [DropTable("ingredients"), DropTable("meals")];
    assert DropDdl[1..][1..] == [DropTable("meals")];
    assert DropDdl[1..][1..][1..] == [];
    assert DropEach(d2, DropDdl[1..][1..]) == DropEach(d2, [DropTable("meals")]);
  }

  /** `delete()` then `init()` always succeeds (the setup of every test). */
  lemma DeleteThenInit(db: Db)
    ensures ApplyAll(DropEach(db, DropDdl), InitDdl).1.None?
    ensures ApplyAll(DropEach(db, DropDdl), InitDdl).0 == Created(Db(db.tables - Owned))
  {
    DeleteDrops(db);
    InitCreates(DropEach(db, DropDdl));
  }

  // ---------------------------------------------------------------------------
  // Adding a record and getting it back

  /** A table as `init()` created it, holding well-formed rows. */
  ghost predicate Ready(db: Db, name: string, schema: seq<Column>)
  {
    && name in db.tables
    && db.tables[name].key == "id"
    && db.tables[name].columns == schema
    && TableOk(db.tables[name])
  }

  /** A float field read back from a column with a default. */
  function Filled(o: Option<real>, default: real): Option<real>
  {
    Some(if o.Some? then o.value else default)
  }

  /** A value a dump may hold that sqlite can store. */
  predicate Scalar(v: Value)
  {
    v.Int? || v.Real? || v.Text?
  }

  /** After an insert, the select `get_*` issues for the reported rowid gives
      the inserted row alone, as one dict over the selected columns. */
  lemma InsertedRow(db: Db, name: string, dic: Dict, cols: seq<string>)
    requires name in db.tables && db.tables[name].key == "id" && TableOk(db.tables[name])
    requires Exec(db, Insert(name, dic)).1.Ok?
    requires |cols| > 0 && "*" !in cols && Distinct(cols)
    requires forall i :: 0 <= i < |cols| ==> cols[i] in Names(db.tables[name])
    ensures var t := db.tables[name];
            var (db', r) := InsertRow(db, name, dic);
            && r == Ok(Some(NewKey(t, dic)))
            && Get(FullRow(t, dic), "id") == Int(NewKey(t, dic))
            && exists z :: SelectRows(db', name, cols, [Eq("id", Int(NewKey(t, dic)))]) == Ok([z])
                 && forall c :: c in cols ==> Lookup(z, c) == Some(Get(FullRow(t, dic), c))
  {
    var t := db.tables[name];
    InsertOk(db, name, dic);
    SelectInserted(db, name, dic, cols);
    var k := NewKey(t, dic);
    var db' := Exec(db, Insert(name, dic)).0;
    var vals := Fetch(FullRow(t, dic), cols);
    var z := ZipRow(cols, vals);
    assert InsertRow(db, name, dic) == (db', Ok(Some(k)));
    assert SelectRows(db', name, cols, [Eq("id", Int(k))]) == Ok([z]) by {
      assert Exec(db', Select(name, cols, [Eq("id", Int(k))])).1 == Ok(Cursor(cols, [vals], None));
      assert ZipAll(Cursor(cols, [vals], None)) == [z];
    }
    FetchedLookup(FullRow(t, dic), cols);
  }

  /** A fetched row zipped with distinct column names reads back each
      column's value. */
  lemma FetchedLookup(r: Row, cols: seq<string>)
    requires Distinct(cols)
    ensures forall c :: c in cols ==> Lookup(ZipRow(cols, Fetch(r, cols)), c) == Some(Get(r, c))
  {
    var z := ZipRow(cols, Fetch(r, cols));
    ZipRowExact(cols, Fetch(r, cols));
    assert DistinctKeys(z);
    forall c | c in cols
      ensures Lookup(z, c) == Some(Get(r, c))
    {
      var i :| 0 <= i < |cols| && cols[i] == c;
      LookupAt(z, i);
    }
  }

  /** A dumped field that is not ignored is stored as its value, an absent one
      as the column default. */
  lemma DumpedField(t: Table, fields: seq<string>, vals: seq<Option<Value>>, ignore: seq<string>, i: nat)
    requires |fields| == |vals| && Distinct(fields) && i < |fields|
    requires fields[i] !in ignore && fields[i] != t.key && fields[i] in Names(t)
    ensures Get(FullRow(t, Pick(fields, vals, ignore)), fields[i])
            == if vals[i].Some? then vals[i].value else DefaultOf(t.columns, fields[i])
  {
    PickLookup(fields, vals, ignore, i);
  }

  /** A dump that ignores `id` goes into the table: no rowid, only declared
      columns, only storable values. */
  lemma DumpFits(t: Table, fields: seq<string>, vals: seq<Option<Value>>, ignore: seq<string>)
    requires |fields| == |vals| && Distinct(fields) && "id" in ignore
    requires forall k :: k in fields && k !in ignore ==> k in ColumnNames(t.columns)
    requires forall j :: 0 <= j < |fields| && fields[j] !in ignore && vals[j].Some? ==> Scalar(vals[j].value)
    ensures var d := Pick(fields, vals, ignore);
            && (forall i :: 0 <= i < |d| ==> d[i].0 in ColumnNames(t.columns))
            && (forall i :: 0 <= i < |d| ==> !d[i].1.Nested? && !d[i].1.Null?)
  {
    var d := Pick(fields, vals, ignore);
    PickValues(fields, vals, ignore);
    forall i | 0 <= i < |d|
      ensures d[i].0 in ColumnNames(t.columns) && !d[i].1.Nested? && !d[i].1.Null?
    {
      assert EntryOf(fields, vals, ignore, d[i]);
      var j :| 0 <= j < |fields| && fields[j] !in ignore && d[i].0 == fields[j] && vals[j] == Some(d[i].1);
    }
  }

  /** A dump that ignores `id` is stored when it names a column and supplies
      every NOT NULL column that has no default. */
  lemma DumpInserts(db: Db, name: string, fields: seq<string>, vals: seq<Option<Value>>, ignore: seq<string>)
    requires name in db.tables && Distinct(Names(db.tables[name]))
    requires |fields| == |vals| && Distinct(fields) && "id" in ignore
    requires forall k :: k in fields && k !in ignore ==> k in ColumnNames(db.tables[name].columns)
    requires forall j :: 0 <= j < |fields| && fields[j] !in ignore && vals[j].Some? ==> Scalar(vals[j].value)
    requires Pick(fields, vals, ignore) != []
    requires var cols := db.tables[name].columns;
             forall i :: 0 <= i < |cols| && cols[i].notNull && DefaultOf(cols, cols[i].name).Null? ==>
               exists j :: 0 <= j < |fields| && fields[j] !in ignore && fields[j] == cols[i].name && vals[j].Some?
    ensures Exec(db, Insert(name, Pick(fields, vals, ignore))).1.Ok?
  {
    var t := db.tables[name];
    var d := Pick(fields, vals, ignore);
    DumpFits(t, fields, vals, ignore);
    forall i | 0 <= i < |t.columns| && t.columns[i].notNull && DefaultOf(t.columns, t.columns[i].name).Null?
      ensures t.columns[i].name in Keys(d)
    {
      var j :| 0 <= j < |fields| && fields[j] !in ignore && fields[j] == t.columns[i].name && vals[j].Some?;
      PickLookup(fields, vals, ignore, j);
    }
    InsertSucceeds(db, name, d);
  }

  /** Which fields besides `id` an Ingredient has. */
  predicate HasFigures(a: IngredientData)
  {
    a.name.Some? || a.calories.Some? || a.sugar.Some? || a.vegProtein.Some? || a.protein.Some? || a.carbo.Some?
  }

  /** A float column read back: the value, or the default 0.0. */
  function FloatOf(o: Option<real>): Value
  {
    Real(if o.Some? then o.value else 0.0)
  }

  /** A nullable text column read back. */
  function TextOrNull(o: Option<string>): Value
  {
    if o.Some? then Text(o.value) else Null
  }

  lemma IngredientDumpEmpty(a: IngredientData)
    ensures DumpIngredient(a, ["id"]) == [] <==> !HasFigures(a)
  {
    var fs, vs := IngredientFields, IngredientValues(a);
    PickEmptyAfterFirst(fs, vs, ["id"]);
    assert fs[1..] == ["name", "calories", "sugar", "veg_protein", "protein", "carbo"];
    assert vs[1..] == [TextVal(a.name), RealVal(a.calories), RealVal(a.sugar),
                       RealVal(a.vegProtein), RealVal(a.protein), RealVal(a.carbo)];
    assert (forall v :: v in vs[1..] ==> v.None?) <==> !HasFigures(a) by {
      if HasFigures(a) {
        var v := if a.name.Some? then TextVal(a.name) else if a.calories.Some? then RealVal(a.calories)
                 else if a.sugar.Some? then RealVal(a.sugar) else if a.vegProtein.Some? then RealVal(a.vegProtein)
                 else if a.protein.Some? then RealVal(a.protein) else RealVal(a.carbo);
        assert v in vs[1..] && v.Some?;
      }
    }
  }

  /** Every NOT NULL column of `ingredients` defaults to 0.0. */
  lemma IngredientDefaults()
    ensures forall i :: 0 <= i < |IngredientsSchema| && IngredientsSchema[i].notNull ==>
              DefaultOf(IngredientsSchema, IngredientsSchema[i].name) == Real(0.0)
    ensures DefaultOf(IngredientsSchema, "name") == Null
    ensures DefaultOf(IngredientsSchema, "calories") == Real(0.0) && DefaultOf(IngredientsSchema, "sugar") == Real(0.0)
    ensures DefaultOf(IngredientsSchema, "veg_protein") == Real(0.0) && DefaultOf(IngredientsSchema, "protein") == Real(0.0)
    ensures DefaultOf(IngredientsSchema, "carbo") == Real(0.0)
  {
    var cs := IngredientsSchema;
    assert cs[1..][1..][1..][1..][1..][1..] == [cs[6]];
    assert DefaultOf(cs, "calories") == Real(0.0);
    assert DefaultOf(cs, "fats") == Real(0.0);
    assert DefaultOf(cs, "sugar") == Real(0.0);
    assert DefaultOf(cs, "veg_protein") == Real(0.0);
    assert DefaultOf(cs, "protein") == Real(0.0);
    assert DefaultOf(cs, "carbo") == Real(0.0);
  }

  /** A dump with no column is refused before anything is stored. */
  lemma EmptyInsertFails(db: Db, name: string)
    ensures Exec(db, Insert(name, [])) == (db, Err(SyntaxError(Prepare(Insert(name, [])).sql)))
  {
    EmptyTextPrepared(Insert(name, []));
  }

  /** A dump that leaves out a NOT NULL column without a default is refused. */
  lemma DumpMissingFails(db: Db, name: string, fields: seq<string>, vals: seq<Option<Value>>, ignore: seq<string>, j: nat)
    requires name in db.tables
    requires |fields| == |vals| && Distinct(fields) && j < |fields|
    requires vals[j].None? || fields[j] in ignore
    requires var t := db.tables[name];
             fields[j] != t.key && fields[j] in Names(t) &&
             exists i :: 0 <= i < |t.columns| && t.columns[i].notNull && t.columns[i].name == fields[j] && DefaultOf(t.columns, fields[j]).Null?
    ensures Exec(db, Insert(name, Pick(fields, vals, ignore))).1.Err?
  {
    var t := db.tables[name];
    var d := Pick(fields, vals, ignore);
    PickLookup(fields, vals, ignore, j);
    assert Get(FullRow(t, d), fields[j]) == Null;
  }

  /** The declared fields of an Ingredient fit the `ingredients` table. */
  lemma IngredientsShape()
    ensures Distinct(IngredientFields)
    ensures Distinct(["id"] + ColumnNames(IngredientsSchema))
    ensures forall k :: k in IngredientFields && k != "id" ==> k in ColumnNames(IngredientsSchema)
  {
    assert ColumnNames(IngredientsSchema) == ["name", "calories", "fats", "sugar", "veg_protein", "protein", "carbo"];
  }

  lemma IngredientScalars(a: IngredientData)
    ensures forall j :: 0 <= j < |IngredientFields| && IngredientValues(a)[j].Some? ==> Scalar(IngredientValues(a)[j].value)
  {
  }

  /** An Ingredient with some field besides `id` can be added. */
  lemma IngredientInsertOk(db: Db, a: IngredientData)
    requires Ready(db, "ingredients", IngredientsSchema) && HasFigures(a)
    ensures Exec(db, Insert("ingredients", DumpIngredient(a, ["id"]))).1.Ok?
  {
    IngredientsShape();
    IngredientScalars(a);
    IngredientDumpEmpty(a);
    IngredientDefaults();
    DumpInserts(db, "ingredients", IngredientFields, IngredientValues(a), ["id"]);
  }

  /** One figure of an Ingredient's row: the value, or the default 0.0. */
  lemma IngredientFigure(t: Table, a: IngredientData, i: nat)
    requires t.key == "id" && t.columns == IngredientsSchema && 2 <= i < 7
    ensures Get(FullRow(t, DumpIngredient(a, ["id"])), IngredientFields[i])
            == if IngredientValues(a)[i].Some? then IngredientValues(a)[i].value else Real(0.0)
  {
    var fs, vs := IngredientFields, IngredientValues(a);
    assert DumpIngredient(a, ["id"]) == Pick(fs, vs, ["id"]);
    FigureColumn(t, i);
    DumpedField(t, fs, vs, ["id"], i);
  }

  /** The figure fields are stored columns whose default is 0.0. */
  lemma FigureColumn(t: Table, i: nat)
    requires t.key == "id" && t.columns == IngredientsSchema && 2 <= i < 7
    ensures Distinct(IngredientFields) && IngredientFields[i] !in ["id"]
    ensures IngredientFields[i] != t.key && IngredientFields[i] in Names(t)
    ensures DefaultOf(t.columns, IngredientFields[i]) == Real(0.0)
  {
    var fs := IngredientFields;
    IngredientsShape();
    assert fs[i] in fs;
    IngredientDefaults();
    if i == 2 {
      assert fs[i] == "calories";
    } else if i == 3 {
      assert fs[i] == "sugar";
    } else if i == 4 {
      assert fs[i] == "veg_protein";
    } else if i == 5 {
      assert fs[i] == "protein";
    } else {
      assert fs[i] == "carbo";
    }
  }

  lemma IngredientName(t: Table, a: IngredientData)
    requires t.key == "id" && t.columns == IngredientsSchema
    ensures Get(FullRow(t, DumpIngredient(a, ["id"])), "name") == TextOrNull(a.name)
  {
    var fs, vs := IngredientFields, IngredientValues(a);
    assert DumpIngredient(a, ["id"]) == Pick(fs, vs, ["id"]);
    NameColumn(t);
    DumpedField(t, fs, vs, ["id"], 1);
  }

  /** `name` is a stored column with no default. */
  lemma NameColumn(t: Table)
    requires t.key == "id" && t.columns == IngredientsSchema
    ensures Distinct(IngredientFields) && IngredientFields[1] == "name" && "name" !in ["id"]
    ensures "name" != t.key && "name" in Names(t)
    ensures DefaultOf(t.columns, "name") == Null
  {
    IngredientsShape();
    assert IngredientFields[1] in IngredientFields;
    IngredientDefaults();
  }

  /** The row an Ingredient's dump becomes: its name or NULL, and each figure
      or the default 0.0. */
  lemma IngredientRow(t: Table, a: IngredientData)
    requires t.key == "id" && t.columns == IngredientsSchema
    ensures var row := FullRow(t, DumpIngredient(a, ["id"]));
            && Get(row, "name") == TextOrNull(a.name)
            && Get(row, "calories") == FloatOf(a.calories)
            && Get(row, "sugar") == FloatOf(a.sugar)
            && Get(row, "veg_protein") == FloatOf(a.vegProtein)
            && Get(row, "protein") == FloatOf(a.protein)
            && Get(row, "carbo") == FloatOf(a.carbo)
  {
    IngredientName(t, a);
    IngredientFigure(t, a, 2);
    IngredientFigure(t, a, 3);
    IngredientFigure(t, a, 4);
    IngredientFigure(t, a, 5);
    IngredientFigure(t, a, 6);
  }

  /** Loading the dict of a stored Ingredient row. */
  lemma LoadedIngredient(z: Dict, row: Row, k: int, a: IngredientData)
    requires forall c :: c in IngredientColumns ==> Lookup(z, c) == Some(Get(row, c))
    requires Get(row, "id") == Int(k) && Get(row, "name") == TextOrNull(a.name)
    requires Get(row, "calories") == FloatOf(a.calories) && Get(row, "sugar") == FloatOf(a.sugar)
    requires Get(row, "veg_protein") == FloatOf(a.vegProtein) && Get(row, "protein") == FloatOf(a.protein)
    requires Get(row, "carbo") == FloatOf(a.carbo)
    ensures LoadIngredient(z) == IngredientData(Some(k), a.name, Filled(a.calories, 0.0), Filled(a.sugar, 0.0),
                                                Filled(a.vegProtein, 0.0), Filled(a.protein, 0.0), Filled(a.carbo, 0.0))
  {
  }

  /** The columns `get_ingredients` selects. */
  lemma IngredientColumnsKnown(t: Table)
    requires t.key == "id" && t.columns == IngredientsSchema
    ensures |IngredientColumns| > 0 && "*" !in IngredientColumns && Distinct(IngredientColumns)
    ensures forall i :: 0 <= i < |IngredientColumns| ==> IngredientColumns[i] in Names(t)
  {
    IngredientsShape();
  }

  /** Getting an inserted Ingredient row by its new rowid. */
  lemma GetStoredIngredient(db: Db, d: Dict, a: IngredientData)
    requires Ready(db, "ingredients", IngredientsSchema)
    requires Exec(db, Insert("ingredients", d)).1.Ok?
    requires var row := FullRow(db.tables["ingredients"], d);
             && Get(row, "name") == TextOrNull(a.name)
             && Get(row, "calories") == FloatOf(a.calories)
             && Get(row, "sugar") == FloatOf(a.sugar)
             && Get(row, "veg_protein") == FloatOf(a.vegProtein)
             && Get(row, "protein") == FloatOf(a.protein)
             && Get(row, "carbo") == FloatOf(a.carbo)
    ensures var k := NewKey(db.tables["ingredients"], d);
            var (db', r) := InsertRow(db, "ingredients", d);
            && r == Ok(Some(k))
            && IngredientsOf(db', [Eq("id", Int(k))])
               == Ok([IngredientData(Some(k), a.name, Filled(a.calories, 0.0), Filled(a.sugar, 0.0),
                                     Filled(a.vegProtein, 0.0), Filled(a.protein, 0.0), Filled(a.carbo, 0.0))])
  {
    var t := db.tables["ingredients"];
    var cols := IngredientColumns;
    IngredientColumnsKnown(t);
    InsertedRow(db, "ingredients", d, cols);
    var k := NewKey(t, d);
    var row := FullRow(t, d);
    var db' := InsertRow(db, "ingredients", d).0;
    var z :| SelectRows(db', "ingredients", cols, [Eq("id", Int(k))]) == Ok([z])
             && forall c :: c in cols ==> Lookup(z, c) == Some(Get(row, c));
    LoadedIngredient(z, row, k, a);
    SelectedIngredient(db', [Eq("id", Int(k))], z);
  }

  lemma SelectedIngredient(db: Db, conds: seq<Condition>, z: Dict)
    requires SelectRows(db, "ingredients", IngredientColumns, conds) == Ok([z])
    ensures IngredientsOf(db, conds) == Ok([LoadIngredient(z)])
  {
    assert Refine([z], LoadIngredient) == [LoadIngredient(z)];
  }

  /** `add_ingredient` then `get_ingredient(id)` with the stored rowid gives the
      record back under that id, an absent figure as the column default 0.0.
      The insert fails only for a record with no field but `id`, whose
      statement names no column. */
  lemma AddThenGetIngredient(db: Db, a: IngredientData)
    requires Ready(db, "ingredients", IngredientsSchema)
    ensures var (db', r) := InsertRow(db, "ingredients", DumpIngredient(a, ["id"]));
            && (r.Ok? <==> HasFigures(a))
            && (r.Ok? ==>
                  && r.value.Some?
                  && IngredientsOf(db', [Eq("id", Int(r.value.value))])
                     == Ok([IngredientData(r.value, a.name, Filled(a.calories, 0.0), Filled(a.sugar, 0.0),
                                           Filled(a.vegProtein, 0.0), Filled(a.protein, 0.0), Filled(a.carbo, 0.0))]))
  {
    IngredientDumpEmpty(a);
    if !HasFigures(a) {
      EmptyInsertFails(db, "ingredients");
    } else {
      IngredientInsertOk(db, a);
      IngredientRow(db.tables["ingredients"], a);
      GetStoredIngredient(db, DumpIngredient(a, ["id"]), a);
    }
  }

  /** The fields a Meal's dump leaves out. */
  const MealIgnored: seq<string> := ["id", "meal_ingredients"]

  /** The fields a MealIngredient's dump leaves out. */
  const MealIngredientIgnored: seq<string> := ["id", "ingredient"]

  /** The date a Meal is stored with: its own, or the time of the dump. */
  function DateOr(a: MealData, now: Stamp): Stamp
  {
    if a.date.Some? then a.date.value else now
  }

  /** The declared fields of a Meal fit the `meals` table. */
  lemma MealsShape()
    ensures Distinct(MealFields) && Distinct(["id"] + ColumnNames(MealsSchema))
    ensures forall k :: k in MealFields && k !in MealIgnored ==> k in ColumnNames(MealsSchema)
    ensures |MealColumns| > 0 && "*" !in MealColumns && Distinct(MealColumns)
    ensures MealsSchema[0].name == "date" && MealsSchema[0].notNull && DefaultOf(MealsSchema, "date") == Null
    ensures DefaultOf(MealsSchema, "name") == Null
  {
    assert ColumnNames(MealsSchema) == ["date", "name"];
  }

  lemma MealScalars(a: MealData, now: Stamp)
    ensures forall j :: 0 <= j < |MealFields| && MealFields[j] !in MealIgnored && MealValues(a, now)[j].Some? ==>
              Scalar(MealValues(a, now)[j].value)
  {
  }

  /** A Meal can always be added: its dump always carries the date. */
  lemma MealInsertOk(db: Db, a: MealData, now: Stamp)
    requires Ready(db, "meals", MealsSchema)
    ensures Exec(db, Insert("meals", DumpMeal(a, MealIgnored, now))).1.Ok?
  {
    var fs, vs := MealFields, MealValues(a, now);
    MealsShape();
    MealScalars(a, now);
    PickLookup(fs, vs, MealIgnored, 2);
    assert Lookup(Pick(fs, vs, MealIgnored), "date").Some?;
    var cols := MealsSchema;
    assert forall i :: 0 <= i < |cols| && cols[i].notNull ==> cols[i].name == "date";
    assert fs[2] !in MealIgnored && fs[2] == "date" && vs[2].Some?;
    DumpInserts(db, "meals", fs, vs, MealIgnored);
  }

  /** The row a Meal's dump becomes: its name or NULL, and its date as text. */
  lemma MealRow(t: Table, a: MealData, now: Stamp)
    requires t.key == "id" && t.columns == MealsSchema
    ensures var row := FullRow(t, DumpMeal(a, MealIgnored, now));
            && Get(row, "name") == TextOrNull(a.name)
            && Get(row, "date") == Text(Format(DateOr(a, now)))
  {
    var fs, vs := MealFields, MealValues(a, now);
    assert DumpMeal(a, MealIgnored, now) == Pick(fs, vs, MealIgnored);
    assert Names(t) == ["id", "date", "name"];
    MealsShape();
    DumpedField(t, fs, vs, MealIgnored, 1);
    DumpedField(t, fs, vs, MealIgnored, 2);
  }

  /** Loading the dict of a stored Meal row reads the date back. */
  lemma LoadedMeal(z: Dict, row: Row, k: int, a: MealData, date: Stamp)
    requires forall c :: c in MealColumns ==> Lookup(z, c) == Some(Get(row, c))
    requires Get(row, "id") == Int(k) && Get(row, "name") == TextOrNull(a.name)
    requires Get(row, "date") == Text(Format(date)) && date.year >= 1000
    ensures LoadMeal(z) == MealData(Some(k), a.name, Some(date), None)
  {
    ParseFormat(date);
  }

  lemma SelectedMeal(db: Db, conds: seq<Condition>, z: Dict)
    requires SelectRows(db, "meals", MealColumns, conds) == Ok([z])
    ensures MealsOf(db, conds) == Ok([LoadMeal(z)])
  {
    assert Refine([z], LoadMeal) == [LoadMeal(z)];
  }

  /** The columns `get_meals` selects. */
  lemma MealColumnsKnown(t: Table)
    requires t.key == "id" && t.columns == MealsSchema
    ensures |MealColumns| > 0 && "*" !in MealColumns && Distinct(MealColumns)
    ensures forall i :: 0 <= i < |MealColumns| ==> MealColumns[i] in Names(t)
  {
    MealsShape();
    assert ColumnNames(MealsSchema) == ["date", "name"];
  }

  lemma GetStoredMeal(db: Db, d: Dict, a: MealData, date: Stamp)
    requires Ready(db, "meals", MealsSchema)
    requires Exec(db, Insert("meals", d)).1.Ok?
    requires date.year >= 1000
    requires var row := FullRow(db.tables["meals"], d);
             Get(row, "name") == TextOrNull(a.name) && Get(row, "date") == Text(Format(date))
    ensures var k := NewKey(db.tables["meals"], d);
            var (db', r) := InsertRow(db, "meals", d);
            && r == Ok(Some(k))
            && MealsOf(db', [Eq("id", Int(k))]) == Ok([MealData(Some(k), a.name, Some(date), None)])
  {
    var t := db.tables["meals"];
    var cols := MealColumns;
    MealColumnsKnown(t);
    InsertedRow(db, "meals", d, cols);
    var k := NewKey(t, d);
    var row := FullRow(t, d);
    var db' := InsertRow(db, "meals", d).0;
    var z :| SelectRows(db', "meals", cols, [Eq("id", Int(k))]) == Ok([z])
             && forall c :: c in cols ==> Lookup(z, c) == Some(Get(row, c));
    LoadedMeal(z, row, k, a, date);
    SelectedMeal(db', [Eq("id", Int(k))], z);
  }

  /** `add_meal`'s insert then `get_meal(id)` with the stored rowid gives the
      Meal back under that id, with its date (or the time of the dump) read
      back from its text, for four-digit years; the nested list is not read
      back. The insert never fails, since the dump always has the date. */
  lemma AddThenGetMeal(db: Db, a: MealData, now: Stamp)
    requires Ready(db, "meals", MealsSchema)
    requires DateOr(a, now).year >= 1000
    ensures var (db', r) := InsertRow(db, "meals", DumpMeal(a, MealIgnored, now));
            && r.Ok? && r.value.Some?
            && MealsOf(db', [Eq("id", Int(r.value.value))]) == Ok([MealData(r.value, a.name, Some(DateOr(a, now)), None)])
  {
    MealInsertOk(db, a, now);
    MealRow(db.tables["meals"], a, now);
    GetStoredMeal(db, DumpMeal(a, MealIgnored, now), a, DateOr(a, now));
  }

  /** A MealIngredient carries every NOT NULL column of its table. */
  predicate Complete(a: MealIngredientData)
  {
    a.mealId.Some? && a.ingredientId.Some? && a.quantity.Some?
  }

  /** The declared fields of a MealIngredient fit the `meal_ingredients`
      table, whose columns all are NOT NULL without a default. */
  lemma MealIngredientsShape()
    ensures Distinct(MealIngredientFields) && Distinct(["id"] + ColumnNames(MealIngredientsSchema))
    ensures forall k :: k in MealIngredientFields && k !in MealIngredientIgnored ==> k in ColumnNames(MealIngredientsSchema)
    ensures |MealIngredientColumns| > 0 && "*" !in MealIngredientColumns && Distinct(MealIngredientColumns)
    ensures forall i :: 0 <= i < |MealIngredientsSchema| ==> MealIngredientsSchema[i].notNull
    ensures DefaultOf(MealIngredientsSchema, "meal_id") == Null && DefaultOf(MealIngredientsSchema, "ingredient_id") == Null
    ensures DefaultOf(MealIngredientsSchema, "quantity") == Null
  {
    assert ColumnNames(MealIngredientsSchema) == ["ingredient_id", "meal_id", "quantity"];
  }

  lemma MealIngredientScalars(a: MealIngredientData)
    ensures forall j :: 0 <= j < |MealIngredientFields| && MealIngredientValues(a)[j].Some? ==>
              Scalar(MealIngredientValues(a)[j].value)
  {
  }

  /** A complete MealIngredient can be added. */
  lemma MealIngredientInsertOk(db: Db, a: MealIngredientData)
    requires Ready(db, "meal_ingredients", MealIngredientsSchema) && Complete(a)
    ensures Exec(db, Insert("meal_ingredients", DumpMealIngredient(a, MealIngredientIgnored))).1.Ok?
  {
    var fs, vs := MealIngredientFields, MealIngredientValues(a);
    MealIngredientsShape();
    MealIngredientScalars(a);
    PickLookup(fs, vs, MealIngredientIgnored, 1);
    assert Lookup(Pick(fs, vs, MealIngredientIgnored), "meal_id").Some?;
    var cols := MealIngredientsSchema;
    assert ColumnNames(cols) == ["ingredient_id", "meal_id", "quantity"];
    forall i | 0 <= i < |cols| && cols[i].notNull && DefaultOf(cols, cols[i].name).Null?
      ensures exists j :: 0 <= j < |fs| && fs[j] !in MealIngredientIgnored && fs[j] == cols[i].name && vs[j].Some?
    {
      if i == 0 {
        assert fs[2] == cols[i].name;
      } else if i == 1 {
        assert fs[1] == cols[i].name;
      } else {
        assert fs[3] == cols[i].name;
      }
    }
    DumpInserts(db, "meal_ingredients", fs, vs, MealIngredientIgnored);
  }

  /** A MealIngredient without its meal, its ingredient or its quantity is
      refused by the NOT NULL constraint. */
  lemma MealIngredientIncomplete(db: Db, a: MealIngredientData)
    requires Ready(db, "meal_ingredients", MealIngredientsSchema) && !Complete(a)
    ensures Exec(db, Insert("meal_ingredients", DumpMealIngredient(a, MealIngredientIgnored))).1.Err?
    ensures Exec(db, Insert("meal_ingredients", DumpMealIngredient(a, MealIngredientIgnored))) == (db, Exec(db, Insert("meal_ingredients", DumpMealIngredient(a, MealIngredientIgnored))).1)
  {
    var t := db.tables["meal_ingredients"];
    var fs, vs := MealIngredientFields, MealIngredientValues(a);
    MealIngredientsShape();
    assert Names(t) == ["id", "ingredient_id", "meal_id", "quantity"];
    assert DumpMealIngredient(a, MealIngredientIgnored) == Pick(fs, vs, MealIngredientIgnored);
    var cols := MealIngredientsSchema;
    if a.mealId.None? {
      assert cols[1].name == fs[1];
      DumpMissingFails(db, "meal_ingredients", fs, vs, MealIngredientIgnored, 1);
    } else if a.ingredientId.None? {
      assert cols[0].name == fs[2];
      DumpMissingFails(db, "meal_ingredients", fs, vs, MealIngredientIgnored, 2);
    } else {
      assert cols[2].name == fs[3];
      DumpMissingFails(db, "meal_ingredients", fs, vs, MealIngredientIgnored, 3);
    }
    ExecFailKeeps(db, Insert("meal_ingredients", DumpMealIngredient(a, MealIngredientIgnored)));
  }

  /** The row a complete MealIngredient's dump becomes. */
  lemma MealIngredientRow(t: Table, a: MealIngredientData)
    requires t.key == "id" && t.columns == MealIngredientsSchema && Complete(a)
    ensures var row := FullRow(t, DumpMealIngredient(a, MealIngredientIgnored));
            && Get(row, "meal_id") == Int(a.mealId.value)
            && Get(row, "ingredient_id") == Int(a.ingredientId.value)
            && Get(row, "quantity") == Real(a.quantity.value)
  {
    var fs, vs := MealIngredientFields, MealIngredientValues(a);
    assert DumpMealIngredient(a, MealIngredientIgnored) == Pick(fs, vs, MealIngredientIgnored);
    assert Names(t) == ["id", "ingredient_id", "meal_id", "quantity"];
    MealIngredientsShape();
    DumpedField(t, fs, vs, MealIngredientIgnored, 1);
    DumpedField(t, fs, vs, MealIngredientIgnored, 2);
    DumpedField(t, fs, vs, MealIngredientIgnored, 3);
  }

  lemma LoadedMealIngredient(z: Dict, row: Row, k: int, a: MealIngredientData)
    requires Complete(a)
    requires forall c :: c in MealIngredientColumns ==> Lookup(z, c) == Some(Get(row, c))
    requires Get(row, "id") == Int(k) && Get(row, "meal_id") == Int(a.mealId.value)
    requires Get(row, "ingredient_id") == Int(a.ingredientId.value) && Get(row, "quantity") == Real(a.quantity.value)
    ensures LoadMealIngredient(z) == MealIngredientData(Some(k), a.mealId, a.ingredientId, a.quantity)
  {
  }

  lemma SelectedMealIngredient(db: Db, conds: seq<Condition>, z: Dict)
    requires SelectRows(db, "meal_ingredients", MealIngredientColumns, conds) == Ok([z])
    ensures MealIngredientsOf(db, conds) == Ok([LoadMealIngredient(z)])
  {
    assert Refine([z], LoadMealIngredient) == [LoadMealIngredient(z)];
  }

  /** The columns `get_meal_ingredients` selects. */
  lemma MealIngredientColumnsKnown(t: Table)
    requires t.key == "id" && t.columns == MealIngredientsSchema
    ensures |MealIngredientColumns| > 0 && "*" !in MealIngredientColumns && Distinct(MealIngredientColumns)
    ensures forall i :: 0 <= i < |MealIngredientColumns| ==> MealIngredientColumns[i] in Names(t)
  {
    MealIngredientsShape();
    assert ColumnNames(MealIngredientsSchema) == ["ingredient_id", "meal_id", "quantity"];
  }

  lemma GetStoredMealIngredient(db: Db, d: Dict, a: MealIngredientData)
    requires Ready(db, "meal_ingredients", MealIngredientsSchema) && Complete(a)
    requires Exec(db, Insert("meal_ingredients", d)).1.Ok?
    requires var row := FullRow(db.tables["meal_ingredients"], d);
             && Get(row, "meal_id") == Int(a.mealId.value)
             && Get(row, "ingredient_id") == Int(a.ingredientId.value)
             && Get(row, "quantity") == Real(a.quantity.value)
    ensures var k := NewKey(db.tables["meal_ingredients"], d);
            var (db', r) := InsertRow(db, "meal_ingredients", d);
            && r == Ok(Some(k))
            && MealIngredientsOf(db', [Eq("id", Int(k))]) == Ok([MealIngredientData(Some(k), a.mealId, a.ingredientId, a.quantity)])
  {
    var t := db.tables["meal_ingredients"];
    var cols := MealIngredientColumns;
    MealIngredientColumnsKnown(t);
    InsertedRow(db, "meal_ingredients", d, cols);
    var k := NewKey(t, d);
    var row := FullRow(t, d);
    var db' := InsertRow(db, "meal_ingredients", d).0;
    var z :| SelectRows(db', "meal_ingredients", cols, [Eq("id", Int(k))]) == Ok([z])
             && forall c :: c in cols ==> Lookup(z, c) == Some(Get(row, c));
    LoadedMealIngredient(z, row, k, a);
    SelectedMealIngredient(db', [Eq("id", Int(k))], z);
  }

  /** `add_meal_ingredient`'s insert succeeds exactly when the record names
      its meal, its ingredient and its quantity, and then
      `get_meal_ingredients(eq('id', id))` gives it back under the stored
      rowid; a refused insert leaves the database unchanged. */
  lemma AddThenGetMealIngredient(db: Db, a: MealIngredientData)
    requires Ready(db, "meal_ingredients", MealIngredientsSchema)
    ensures var (db', r) := InsertRow(db, "meal_ingredients", DumpMealIngredient(a, MealIngredientIgnored));
            && (r.Ok? <==> Complete(a))
            && (r.Err? ==> db' == db)
            && (r.Ok? ==>
                  && r.value.Some?
                  && MealIngredientsOf(db', [Eq("id", Int(r.value.value))])
                     == Ok([MealIngredientData(r.value, a.mealId, a.ingredientId, a.quantity)]))
  {
    if Complete(a) {
      MealIngredientInsertOk(db, a);
      MealIngredientRow(db.tables["meal_ingredients"], a);
      GetStoredMealIngredient(db, DumpMealIngredient(a, MealIngredientIgnored), a);
    } else {
      MealIngredientIncomplete(db, a);
    }
  }

  // ---------------------------------------------------------------------------
  // Adding several records at once, on the records' data

  /** The data of a set of ingredient records, by object. */
  function IngredientState(s: set<Ingredient>): (m: map<Ingredient, IngredientData>)
    reads s
    ensures m.Keys == s
  {
    map g | g in s :: g.Data()
  }

  /** The ingredient records that have no id yet. */
  function Unsaved(ings: map<Ingredient, IngredientData>): (u: set<Ingredient>)
    ensures u <= ings.Keys
    ensures forall g :: g in ings ==> (g in u <==> ings[g].id.None?)
  {
    set g | g in ings && ings[g].id.None?
  }

  lemma ExtendsTrans(d0: Db, d1: Db, d2: Db)
    requires Extends(d0, d1) && Extends(d1, d2)
    ensures Extends(d0, d2)
  {
    forall n | n in d0.tables
      ensures d2.tables[n].rows[..|d0.tables[n].rows|] == d0.tables[n].rows
    {
      var r0, r1, r2 := d0.tables[n].rows, d1.tables[n].rows, d2.tables[n].rows;
      assert r2[..|r0|] == r2[..|r1|][..|r0|];
    }
  }

  /** A failed insert changes nothing; a successful one appends the new row to
      its table, keeps that table well formed and leaves every other table
      alone. */
  lemma InsertRowGrows(db: Db, name: string, d: Dict)
    requires name in db.tables && TableOk(db.tables[name])
    ensures var (db', r) := InsertRow(db, name, d);
            && (r.Err? ==> db' == db)
            && (r.Ok? ==>
                  && db'.tables.Keys == db.tables.Keys
                  && db'.tables[name] == db.tables[name].(rows := db.tables[name].rows + [FullRow(db.tables[name], d)])
                  && TableOk(db'.tables[name])
                  && (forall n :: n in db.tables && n != name ==> db'.tables[n] == db.tables[n])
                  && Extends(db, db') && Count(db', name) == Count(db, name) + 1)
  {
    if Exec(db, Insert(name, d)).1.Ok? {
      InsertEffect(db, name, d);
      var t := db.tables[name];
      assert (t.rows + [FullRow(t, d)])[..|t.rows|] == t.rows;
    }
  }

  /** `add_ingredient` on a record's data: the new database, and the record
      with the new rowid as its id, or the failure. */
  function AddOne(db: Db, a: IngredientData): (Db, Result<IngredientData, Error>)
  {
    var (db', r) := InsertRow(db, "ingredients", DumpIngredient(a, ["id"]));
    (db', match r case Ok(k) => Ok(a.(id := k)) case Err(e) => Err(e))
  }

  /** AddOne in terms of the insert's outcome as `insert` hands it back. */
  lemma AddOneFinish(db: Db, a: IngredientData, db1: Db, res: Result<Outcome, Error>)
    requires db1 == Exec(db, Insert("ingredients", DumpIngredient(a, ["id"]))).0
    requires res == Finish(Exec(db, Insert("ingredients", DumpIngredient(a, ["id"]))).1, LastRowId)
    ensures AddOne(db, a).0 == db1
    ensures res.Err? ==> AddOne(db, a).1 == Err(res.error)
    ensures res.Ok? ==> res.value.RowIdOf? && AddOne(db, a).1 == Ok(a.(id := res.value.id))
  {
  }

  /** `add_ingredients(xs)` on the records' data `ings`: each record that has
      no id when its turn comes is added, and the first failure ends the run.
      The result is the new database, the records' new data, the records
      added, in order, and the failure. A record listed twice has its id by
      its second turn, so it is added once. */
  function AddEach(db: Db, ings: map<Ingredient, IngredientData>, xs: seq<Ingredient>)
    : (r: (Db, map<Ingredient, IngredientData>, seq<Ingredient>, Option<Error>))
    requires forall x :: x in xs ==> x in ings
    ensures r.1.Keys == ings.Keys
    decreases |xs|, 1
  {
    if |xs| == 0 then (db, ings, [], None)
    else if ings[xs[0]].id.Some? then AddEach(db, ings, xs[1..])
    else AddFirst(db, ings, xs)
  }

  /** The turn of a record without an id: it is added, then the rest follow. */
  function AddFirst(db: Db, ings: map<Ingredient, IngredientData>, xs: seq<Ingredient>)
    : (r: (Db, map<Ingredient, IngredientData>, seq<Ingredient>, Option<Error>))
    requires |xs| > 0 && forall x :: x in xs ==> x in ings
    ensures r.1.Keys == ings.Keys
    decreases |xs|, 0
  {
    match AddOne(db, ings[xs[0]])
    case (db1, Err(e)) => (db1, ings, [], Some(e))
    case (db1, Ok(a1)) => Prepend([xs[0]], AddEach(db1, ings[xs[0] := a1], xs[1..]))
  }

  /** The run on `xs` with `prefix` already added before it. */
  function Prepend(prefix: seq<Ingredient>, res: (Db, map<Ingredient, IngredientData>, seq<Ingredient>, Option<Error>))
    : (Db, map<Ingredient, IngredientData>, seq<Ingredient>, Option<Error>)
  {
    (res.0, res.1, prefix + res.2, res.3)
  }

  /** One record of `s` changes and the others keep their data. */
  lemma OneChanged(s: set<Ingredient>, before: map<Ingredient, IngredientData>, x: Ingredient)
    requires before.Keys == s && x in s
    requires forall g :: g in s && g != x ==> g.Data() == before[g]
    ensures IngredientState(s) == before[x := x.Data()]
  {
  }

  lemma PrependTwice(a: seq<Ingredient>, b: seq<Ingredient>, res: (Db, map<Ingredient, IngredientData>, seq<Ingredient>, Option<Error>))
    ensures Prepend(a, Prepend(b, res)) == Prepend(a + b, res)
  {
    assert a + (b + res.2) == (a + b) + res.2;
  }

  /** One turn of `add_ingredients`' loop keeps its invariant: the run so far
      followed by the rest of the run is the whole run. */
  lemma TurnStep(d0: Db, m0: map<Ingredient, IngredientData>, xs: seq<Ingredient>, i: nat,
                 added: seq<Ingredient>, db0: Db, ms: map<Ingredient, IngredientData>,
                 step: seq<Ingredient>, db1: Db, ms1: map<Ingredient, IngredientData>)
    requires i < |xs| && (forall x :: x in xs ==> x in m0 && x in ms && x in ms1)
    requires AddEach(d0, m0, xs) == Prepend(added, AddEach(db0, ms, xs[i..]))
    requires AddEach(db0, ms, xs[i..]) == Prepend(step, AddEach(db1, ms1, xs[i + 1..]))
    ensures AddEach(d0, m0, xs) == Prepend(added + step, AddEach(db1, ms1, xs[i + 1..]))
  {
    PrependTwice(added, step, AddEach(db1, ms1, xs[i + 1..]));
  }

  lemma AddEachSkip(db: Db, ings: map<Ingredient, IngredientData>, xs: seq<Ingredient>)
    requires forall x :: x in xs ==> x in ings
    requires |xs| > 0 && ings[xs[0]].id.Some?
    ensures AddEach(db, ings, xs) == AddEach(db, ings, xs[1..])
  {
  }

  lemma AddEachAdded(db: Db, ings: map<Ingredient, IngredientData>, xs: seq<Ingredient>, db1: Db, a1: IngredientData)
    requires forall x :: x in xs ==> x in ings
    requires |xs| > 0 && ings[xs[0]].id.None?
    requires AddOne(db, ings[xs[0]]) == (db1, Ok(a1))
    ensures AddEach(db, ings, xs) == Prepend([xs[0]], AddEach(db1, ings[xs[0] := a1], xs[1..]))
  {
  }

  lemma AddEachFailed(db: Db, ings: map<Ingredient, IngredientData>, xs: seq<Ingredient>, db1: Db, e: Error)
    requires forall x :: x in xs ==> x in ings
    requires |xs| > 0 && ings[xs[0]].id.None?
    requires AddOne(db, ings[xs[0]]) == (db1, Err(e))
    ensures AddEach(db, ings, xs) == (db1, ings, [], Some(e))
  {
  }

  /** What `add_ingredients` does: it succeeds exactly when every listed
      record without an id has a figure to store; the records it adds are
      distinct, were without an id and now have one, and there is one new
      `ingredients` row per added record; on success no listed record is left
      without an id; records not listed and the other tables are untouched. */
  ghost predicate AddEachPost(db: Db, ings: map<Ingredient, IngredientData>, xs: seq<Ingredient>,
                              res: (Db, map<Ingredient, IngredientData>, seq<Ingredient>, Option<Error>))
    requires forall x :: x in xs ==> x in ings
  {
    var (db', m, added, e) := res;
    && m.Keys == ings.Keys
    && Ready(db', "ingredients", IngredientsSchema)
    && Extends(db, db')
    && (forall n :: n in db.tables && n != "ingredients" ==> db'.tables[n] == db.tables[n])
    && Count(db', "ingredients") == Count(db, "ingredients") + |added|
    && |Unsaved(m)| + |added| == |Unsaved(ings)|
    && (forall i, j :: 0 <= i < j < |added| ==> added[i] != added[j])
    && (forall x :: x in added ==> x in xs && x in Unsaved(ings) && x !in Unsaved(m))
    && (forall g :: g in ings && g !in added ==> m[g] == ings[g])
    && (e.None? <==> forall x :: x in xs && x in Unsaved(ings) ==> HasFigures(ings[x]))
    && (e.None? ==> forall x :: x in xs ==> x !in Unsaved(m))
  }

  lemma {:induction false} AddEachSpec(db: Db, ings: map<Ingredient, IngredientData>, xs: seq<Ingredient>)
    requires forall x :: x in xs ==> x in ings
    requires Ready(db, "ingredients", IngredientsSchema)
    ensures AddEachPost(db, ings, xs, AddEach(db, ings, xs))
    decreases |xs|
  {
    if |xs| == 0 {
    } else if ings[xs[0]].id.Some? {
      AddEachSpec(db, ings, xs[1..]);
      SkipPost(db, ings, xs, AddEach(db, ings, xs[1..]));
    } else {
      var x0 := xs[0];
      var (db1, r) := AddOne(db, ings[x0]);
      AddOneGrows(db, ings[x0]);
      if r.Ok? {
        var ings1 := ings[x0 := r.value];
        AddEachSpec(db1, ings1, xs[1..]);
        AddedPost(db, ings, xs, db1, r.value.id, AddEach(db1, ings1, xs[1..]));
        assert AddEach(db, ings, xs) == Prepend([x0], AddEach(db1, ings1, xs[1..]));
      } else {
        FailedPost(db, ings, xs, db1, r.error);
        assert AddEach(db, ings, xs) == (db1, ings, [], Some(r.error));
      }
    }
  }

  /** `add_ingredient` on a record's data adds one `ingredients` row exactly
      when the record has a figure to store, and touches no other table; the
      record then has the new rowid as its id. */
  lemma AddOneGrows(db: Db, a: IngredientData)
    requires Ready(db, "ingredients", IngredientsSchema)
    ensures var (db1, r) := AddOne(db, a);
            && Ready(db1, "ingredients", IngredientsSchema) && Extends(db, db1)
            && (forall n :: n in db.tables && n != "ingredients" ==> db1.tables[n] == db.tables[n])
            && Count(db1, "ingredients") == Count(db, "ingredients") + (if r.Ok? then 1 else 0)
            && (r.Ok? <==> HasFigures(a))
            && (r.Ok? ==> r.value == a.(id := r.value.id) && r.value.id.Some?)
            && (r.Err? ==> db1 == db)
  {
    AddThenGetIngredient(db, a);
    InsertRowGrows(db, "ingredients", DumpIngredient(a, ["id"]));
  }

  /** A record without an id that has nothing to store ends the run. */
  lemma FailedPost(db: Db, ings: map<Ingredient, IngredientData>, xs: seq<Ingredient>, db1: Db, e: Error)
    requires forall x :: x in xs ==> x in ings
    requires |xs| > 0 && ings[xs[0]].id.None? && !HasFigures(ings[xs[0]]) && db1 == db
    requires Ready(db, "ingredients", IngredientsSchema)
    ensures AddEachPost(db, ings, xs, (db1, ings, [], Some(e)))
  {
    assert xs[0] in Unsaved(ings);
  }

  /** A record that already has an id is skipped. */
  lemma SkipPost(db: Db, ings: map<Ingredient, IngredientData>, xs: seq<Ingredient>,
                 res: (Db, map<Ingredient, IngredientData>, seq<Ingredient>, Option<Error>))
    requires forall x :: x in xs ==> x in ings
    requires |xs| > 0 && ings[xs[0]].id.Some?
    requires AddEachPost(db, ings, xs[1..], res)
    ensures AddEachPost(db, ings, xs, res)
  {
    assert forall x :: x in xs <==> x == xs[0] || x in xs[1..];
  }

  /** A record without an id is added, then the rest follow from the new
      state. */
  lemma AddedPost(db: Db, ings: map<Ingredient, IngredientData>, xs: seq<Ingredient>, db1: Db, k: Option<int>,
                  res: (Db, map<Ingredient, IngredientData>, seq<Ingredient>, Option<Error>))
    requires forall x :: x in xs ==> x in ings
    requires |xs| > 0 && ings[xs[0]].id.None? && k.Some? && HasFigures(ings[xs[0]])
    requires Ready(db, "ingredients", IngredientsSchema)
    requires Extends(db, db1) && Count(db1, "ingredients") == Count(db, "ingredients") + 1
    requires forall n :: n in db.tables && n != "ingredients" ==> db1.tables[n] == db.tables[n]
    requires AddEachPost(db1, ings[xs[0] := ings[xs[0]].(id := k)], xs[1..], res)
    ensures AddEachPost(db, ings, xs, (res.0, res.1, [xs[0]] + res.2, res.3))
  {
    var x0 := xs[0];
    var ings1 := ings[x0 := ings[x0].(id := k)];
    var (db2, m, added, e) := res;
    UnsavedSave(ings, x0, ings[x0].(id := k));
    ExtendsTrans(db, db1, db2);
    assert db1.tables.Keys == db.tables.Keys;
    assert forall x :: x in xs <==> x == x0 || x in xs[1..];
    ConsUnique(x0, added);
  }

  /** An element put in front of a sequence without repeats that does not
      hold it gives a sequence without repeats. */
  lemma ConsUnique<T>(x: T, s: seq<T>)
    requires x !in s && forall i, j :: 0 <= i < j < |s| ==> s[i] != s[j]
    ensures forall i, j :: 0 <= i < j < |[x] + s| ==> ([x] + s)[i] != ([x] + s)[j]
    ensures forall y :: y in [x] + s <==> y == x || y in s
  {
    forall i, j | 0 <= i < j < |[x] + s|
      ensures ([x] + s)[i] != ([x] + s)[j]
    {
      if i == 0 {
        assert ([x] + s)[j] == s[j - 1];
      } else {
        assert ([x] + s)[i] == s[i - 1] && ([x] + s)[j] == s[j - 1];
      }
    }
  }

  // ---------------------------------------------------------------------------
  // Adding a meal with its meal ingredients, on the records' data

  /** How a missing attribute is read. `AsWritten`: as meal_storage.py reads
      it, so a record built without the attribute raises AttributeError.
      `Lenient`: as the tests use the records, an absent `ingredient` meaning
      None and an absent `meal_ingredients` meaning no children. */
  datatype Access = AsWritten | Lenient

  /** The ingredient a meal ingredient's `ingredient` attribute links to. */
  function LinkOf(link: Option<Option<Ingredient>>): (s: set<Ingredient>)
    ensures |s| <= 1
  {
    if link.Some? && link.value.Some? then {link.value.value} else {}
  }

  /** The step result: database, ingredient records' data, the meal
      ingredient's data, and the failure. */
  type Step = (Db, map<Ingredient, IngredientData>, MealIngredientData, Option<Error>)

  /** `add_meal_ingredient`, lines 118-123: read `ingredient`; a linked
      ingredient without an id is added first, which is `add_ingredients` on
      it alone; its id is copied into `ingredient_id`. */
  function LinkStep(db: Db, ings: map<Ingredient, IngredientData>, a: MealIngredientData,
                    link: Option<Option<Ingredient>>, mode: Access): (r: Step)
    requires LinkOf(link) <= ings.Keys
    ensures r.1.Keys == ings.Keys
  {
    if link.None? then
      (db, ings, a, if mode == AsWritten then Some(AttributeError("ingredient")) else None)
    else if link.value.None? then (db, ings, a, None)
    else
      var g := link.value.value;
      var (db1, ings1, _, e) := AddEach(db, ings, [g]);
      (db1, ings1, if e.None? then a.(ingredientId := ings1[g].id) else a, e)
  }

  /** A link to a record: the step is that record's save, and the id it ends
      up with. */
  lemma LinkStepSome(db: Db, ings: map<Ingredient, IngredientData>, a: MealIngredientData,
                     link: Option<Option<Ingredient>>, mode: Access)
    requires LinkOf(link) <= ings.Keys
    requires link.Some? && link.value.Some?
    ensures var g := link.value.value;
            var (db1, ings1, _, e) := AddEach(db, ings, [g]);
            LinkStep(db, ings, a, link, mode) == (db1, ings1, if e.None? then a.(ingredientId := ings1[g].id) else a, e)
  {
  }

  /** `add_meal_ingredient(meal_ingredient)`: the link step, then the insert of
      the dump without `id` and `ingredient`, whose rowid becomes the record's
      id. */
  function AddMealIngredientStep(db: Db, ings: map<Ingredient, IngredientData>, a: MealIngredientData,
                                 link: Option<Option<Ingredient>>, mode: Access): (r: Step)
    requires LinkOf(link) <= ings.Keys
    ensures r.1.Keys == ings.Keys
  {
    var (db1, ings1, a1, e) := LinkStep(db, ings, a, link, mode);
    if e.Some? then (db1, ings1, a1, e)
    else
      var (db2, a2, e2) := InsertKid(db1, a1);
      (db2, ings1, a2, e2)
  }

  /** The insert of a meal ingredient's dump without `id` and `ingredient`;
      the record takes the new rowid as its id. */
  function InsertKid(db: Db, a: MealIngredientData): (Db, MealIngredientData, Option<Error>)
  {
    match InsertRow(db, "meal_ingredients", DumpMealIngredient(a, MealIngredientIgnored))
    case (db', Ok(k)) => (db', a.(id := k), None)
    case (db', Err(e)) => (db', a, Some(e))
  }

  /** The run result: database, ingredient records' data, meal ingredient
      records' data, and the failure. */
  type Run = (Db, map<Ingredient, IngredientData>, map<MealIngredient, MealIngredientData>, Option<Error>)

  /** Every child in `xs` carries data and a link to a tracked ingredient. */
  ghost predicate Tracked(ings: map<Ingredient, IngredientData>, kids: map<MealIngredient, MealIngredientData>,
                          links: map<MealIngredient, Option<Option<Ingredient>>>, xs: seq<MealIngredient>)
  {
    forall x :: x in xs ==> x in kids && x in links && LinkOf(links[x]) <= ings.Keys
  }

  /** `add_meal`'s loop, lines 97-99: each child in list order gets the meal's
      id as `meal_id` and is added; the first failure ends the loop. */
  function AddKids(db: Db, ings: map<Ingredient, IngredientData>, kids: map<MealIngredient, MealIngredientData>,
                   links: map<MealIngredient, Option<Option<Ingredient>>>, mealId: Option<int>,
                   xs: seq<MealIngredient>, mode: Access): (r: Run)
    requires Tracked(ings, kids, links, xs)
    ensures r.1.Keys == ings.Keys && r.2.Keys == kids.Keys
    decreases |xs|, 1
  {
    if |xs| == 0 then (db, ings, kids, None) else AddKid(db, ings, kids, links, mealId, xs, mode)
  }

  /** The turn of the first child: it is added, then the rest follow. */
  function AddKid(db: Db, ings: map<Ingredient, IngredientData>, kids: map<MealIngredient, MealIngredientData>,
                  links: map<MealIngredient, Option<Option<Ingredient>>>, mealId: Option<int>,
                  xs: seq<MealIngredient>, mode: Access): (r: Run)
    requires |xs| > 0 && Tracked(ings, kids, links, xs)
    ensures r.1.Keys == ings.Keys && r.2.Keys == kids.Keys
    decreases |xs|, 0
  {
    var x := xs[0];
    var (db1, ings1, a1, e) := AddMealIngredientStep(db, ings, kids[x].(mealId := mealId), links[x], mode);
    if e.Some? then (db1, ings1, kids[x := a1], e)
    else AddKids(db1, ings1, kids[x := a1], links, mealId, xs[1..], mode)
  }

  /** `add_meal(meal)`: the insert of the dump without `id` and
      `meal_ingredients` (dated `now` when the meal has no date), whose rowid
      becomes the meal's id, then the loop over `meal_ingredients`. The result
      also holds the meal's new id. */
  function AddMealStep(db: Db, a: MealData, now: Stamp, ings: map<Ingredient, IngredientData>,
                       kids: map<MealIngredient, MealIngredientData>,
                       links: map<MealIngredient, Option<Option<Ingredient>>>,
                       xs: Option<seq<MealIngredient>>, mode: Access): (r: (Run, Option<int>))
    requires xs.Some? ==> Tracked(ings, kids, links, xs.value)
    ensures r.0.1.Keys == ings.Keys && r.0.2.Keys == kids.Keys
  {
    var (db1, k, e) := InsertMealStep(db, a, now);
    (KidsStep(db1, k, e, ings, kids, links, xs, mode), k)
  }

  /** What follows the meal's insert: nothing after a failure, else the read
      of `meal_ingredients` and the loop over the children. */
  function KidsStep(db1: Db, k: Option<int>, e: Option<Error>, ings: map<Ingredient, IngredientData>,
                    kids: map<MealIngredient, MealIngredientData>,
                    links: map<MealIngredient, Option<Option<Ingredient>>>,
                    xs: Option<seq<MealIngredient>>, mode: Access): (r: Run)
    requires xs.Some? ==> Tracked(ings, kids, links, xs.value)
    ensures r.1.Keys == ings.Keys && r.2.Keys == kids.Keys
  {
    if e.Some? then (db1, ings, kids, e)
    else if xs.None? then (db1, ings, kids, if mode == AsWritten then Some(AttributeError("meal_ingredients")) else None)
    else AddKids(db1, ings, kids, links, k, xs.value, mode)
  }

  /** The insert of a meal's dump without `id` and `meal_ingredients`: the
      new database, the meal's id afterwards, and the failure. */
  function InsertMealStep(db: Db, a: MealData, now: Stamp): (Db, Option<int>, Option<Error>)
  {
    match InsertRow(db, "meals", DumpMeal(a, MealIgnored, now))
    case (db1, Err(e)) => (db1, a.id, Some(e))
    case (db1, Ok(k)) => (db1, k, None)
  }

  /** The three tables as `init()` created them. */
  ghost predicate AllReady(db: Db)
  {
    && Ready(db, "ingredients", IngredientsSchema)
    && Ready(db, "meals", MealsSchema)
    && Ready(db, "meal_ingredients", MealIngredientsSchema)
  }

  /** The linked ingredient, if any, already has an id. */
  predicate Saved(ings: map<Ingredient, IngredientData>, link: Option<Option<Ingredient>>)
    requires LinkOf(link) <= ings.Keys
  {
    forall g :: g in LinkOf(link) ==> ings[g].id.Some?
  }

  /** What `add_meal_ingredient` needs to succeed: the `ingredient` attribute
      can be read, the linked ingredient has an id or a figure to store, and
      the row gets its meal, its ingredient and its quantity. */
  predicate Admissible(ings: map<Ingredient, IngredientData>, a: MealIngredientData,
                       link: Option<Option<Ingredient>>, mode: Access)
    requires LinkOf(link) <= ings.Keys
  {
    && (link.Some? || mode == Lenient)
    && a.mealId.Some? && a.quantity.Some?
    && if link.Some? && link.value.Some? then ings[link.value.value].id.Some? || HasFigures(ings[link.value.value])
       else a.ingredientId.Some?
  }

  /** Giving an unsaved record an id takes it out of the unsaved ones. */
  lemma UnsavedSave(ings: map<Ingredient, IngredientData>, g: Ingredient, g1: IngredientData)
    requires g in ings && ings[g].id.None? && g1.id.Some?
    ensures Unsaved(ings) == Unsaved(ings[g := g1]) + {g} && g !in Unsaved(ings[g := g1])
    ensures |Unsaved(ings[g := g1])| + 1 == |Unsaved(ings)|
  {
    assert Unsaved(ings) == Unsaved(ings[g := g1]) + {g};
  }

  /** An insert keeps every table as `init()` created it. */
  lemma InsertKeepsReady(db: Db, name: string, d: Dict)
    requires AllReady(db) && name in Owned
    ensures var (db', r) := InsertRow(db, name, d);
            && AllReady(db') && Extends(db, db')
            && (forall n :: n in db.tables && n != name ==> db'.tables[n] == db.tables[n])
            && Count(db', name) == Count(db, name) + (if r.Ok? then 1 else 0)
            && (r.Err? ==> db' == db)
  {
    InsertRowGrows(db, name, d);
  }

  /** The link step: only `ingredient_id` of the meal ingredient can change,
      only the linked ingredient can be added, which takes one new
      `ingredients` row; it fails exactly when the attribute cannot be read or
      the linked ingredient is new and has nothing to store, and then changes
      nothing. An ingredient that already has an id is not stored again. */
  lemma LinkStepSpec(db: Db, ings: map<Ingredient, IngredientData>, a: MealIngredientData,
                     link: Option<Option<Ingredient>>, mode: Access)
    requires AllReady(db) && LinkOf(link) <= ings.Keys
    ensures var (db1, ings1, a1, e) := LinkStep(db, ings, a, link, mode);
            && AllReady(db1) && Extends(db, db1)
            && (forall n :: n in db.tables && n != "ingredients" ==> db1.tables[n] == db.tables[n])
            && Count(db1, "ingredients") + |Unsaved(ings1)| == Count(db, "ingredients") + |Unsaved(ings)|
            && (forall g :: g in ings && g !in LinkOf(link) ==> ings1[g] == ings[g])
            && a1 == a.(ingredientId := a1.ingredientId)
            && (e.None? <==> (link.Some? || mode == Lenient) && forall g :: g in LinkOf(link) ==> ings[g].id.Some? || HasFigures(ings[g]))
            && (e.None? && LinkOf(link) == {} ==> a1 == a)
            && (e.None? ==> forall g :: g in LinkOf(link) ==> ings1[g].id.Some? && a1.ingredientId == ings1[g].id)
            && (e.Some? || Saved(ings, link) ==> db1 == db && ings1 == ings)
  {
    if link.Some? && link.value.Some? {
      var g := link.value.value;
      assert LinkOf(link) == {g};
      if ings[g].id.None? {
        LinkStepFresh(db, ings, a, g, mode);
      } else {
        LinkStepSaved(db, ings, a, g, mode);
      }
    }
  }

  /** LinkStepSpec for an ingredient that has an id: nothing is added. */
  lemma LinkStepSaved(db: Db, ings: map<Ingredient, IngredientData>, a: MealIngredientData, g: Ingredient, mode: Access)
    requires AllReady(db) && g in ings && ings[g].id.Some?
    ensures LinkStep(db, ings, a, Some(Some(g)), mode) == (db, ings, a.(ingredientId := ings[g].id), None)
  {
    assert [g][1..] == [];
    AddEachSkip(db, ings, [g]);
  }

  /** LinkStepSpec for an ingredient without an id: it is added first. */
  lemma LinkStepFresh(db: Db, ings: map<Ingredient, IngredientData>, a: MealIngredientData, g: Ingredient, mode: Access)
    requires AllReady(db) && g in ings && ings[g].id.None?
    ensures var (db1, ings1, a1, e) := LinkStep(db, ings, a, Some(Some(g)), mode);
            && AllReady(db1) && Extends(db, db1)
            && (forall n :: n in db.tables && n != "ingredients" ==> db1.tables[n] == db.tables[n])
            && Count(db1, "ingredients") + |Unsaved(ings1)| == Count(db, "ingredients") + |Unsaved(ings)|
            && (forall h :: h in ings && h != g ==> ings1[h] == ings[h])
            && a1 == a.(ingredientId := a1.ingredientId)
            && (e.None? <==> HasFigures(ings[g]))
            && (e.None? ==> ings1[g].id.Some? && a1.ingredientId == ings1[g].id)
            && (e.Some? ==> db1 == db && ings1 == ings)
  {
    var (db1, r) := AddOne(db, ings[g]);
    AddOneSpec(db, ings[g]);
    if r.Ok? {
      LinkStepAdded(db, ings, a, g, mode, db1, r.value);
      UnsavedSave(ings, g, r.value);
    } else {
      LinkStepRefused(db, ings, a, g, mode, db1, r.error);
    }
  }

  /** `add_ingredient` on a record's data keeps every table as `init()`
      created it, and adds one `ingredients` row exactly when the record has
      a figure to store; the record then has the new rowid as its id. */
  lemma AddOneSpec(db: Db, a: IngredientData)
    requires AllReady(db)
    ensures var (db1, r) := AddOne(db, a);
            && AllReady(db1) && Extends(db, db1)
            && (forall n :: n in db.tables && n != "ingredients" ==> db1.tables[n] == db.tables[n])
            && Count(db1, "ingredients") == Count(db, "ingredients") + (if r.Ok? then 1 else 0)
            && (r.Ok? <==> HasFigures(a))
            && (r.Ok? ==> r.value == a.(id := r.value.id) && r.value.id.Some?)
            && (r.Err? ==> db1 == db)
  {
    AddThenGetIngredient(db, a);
    InsertKeepsReady(db, "ingredients", DumpIngredient(a, ["id"]));
  }

  /** The link step for an ingredient without an id is its insert: added, */
  lemma LinkStepAdded(db: Db, ings: map<Ingredient, IngredientData>, a: MealIngredientData, g: Ingredient,
                      mode: Access, db1: Db, a1: IngredientData)
    requires g in ings && ings[g].id.None? && AddOne(db, ings[g]) == (db1, Ok(a1))
    ensures LinkStep(db, ings, a, Some(Some(g)), mode) == (db1, ings[g := a1], a.(ingredientId := a1.id), None)
  {
    assert [g][1..] == [];
    AddEachAdded(db, ings, [g], db1, a1);
  }

  /** or refused. */
  lemma LinkStepRefused(db: Db, ings: map<Ingredient, IngredientData>, a: MealIngredientData, g: Ingredient,
                        mode: Access, db1: Db, e: Error)
    requires g in ings && ings[g].id.None? && AddOne(db, ings[g]) == (db1, Err(e))
    ensures LinkStep(db, ings, a, Some(Some(g)), mode) == (db1, ings, a, Some(e))
  {
    AddEachFailed(db, ings, [g], db1, e);
  }




  /** `add_meal_ingredient`: it succeeds exactly when the record is
      admissible; then one `meal_ingredients` row is added, the record has the
      new rowid as its id, and `get_meal_ingredients(eq('id', id))` gives it
      back; the ingredient rows and unsaved ingredients keep their total, and
      an ingredient that already had an id is not stored again. */
  lemma AddMealIngredientSpec(db: Db, ings: map<Ingredient, IngredientData>, a: MealIngredientData,
                              link: Option<Option<Ingredient>>, mode: Access)
    requires AllReady(db) && LinkOf(link) <= ings.Keys
    ensures var (db', ings', a', e) := AddMealIngredientStep(db, ings, a, link, mode);
            && AllReady(db') && Extends(db, db')
            && (forall n :: n in db.tables && n != "ingredients" && n != "meal_ingredients" ==> db'.tables[n] == db.tables[n])
            && Count(db', "ingredients") + |Unsaved(ings')| == Count(db, "ingredients") + |Unsaved(ings)|
            && (Saved(ings, link) ==> Count(db', "ingredients") == Count(db, "ingredients") && ings' == ings)
            && (forall g :: g in ings && g !in LinkOf(link) ==> ings'[g] == ings[g])
            && a'.mealId == a.mealId && a'.quantity == a.quantity
            && (e.None? <==> Admissible(ings, a, link, mode))
            && Count(db', "meal_ingredients") == Count(db, "meal_ingredients") + (if e.None? then 1 else 0)
            && (e.None? ==>
                  && a'.id.Some?
                  && (forall g :: g in LinkOf(link) ==> ings'[g].id.Some? && a'.ingredientId == ings'[g].id)
                  && (LinkOf(link) == {} ==> a'.ingredientId == a.ingredientId)
                  && MealIngredientsOf(db', [Eq("id", Int(a'.id.value))]) == Ok([a']))
  {
    LinkStepSpec(db, ings, a, link, mode);
    var (db1, ings1, a1, e) := LinkStep(db, ings, a, link, mode);
    if e.None? {
      InsertKidSpec(db1, a1);
      var (db2, a2, e2) := InsertKid(db1, a1);
      ExtendsTrans(db, db1, db2);
      if link.Some? && link.value.Some? {
        assert link.value.value in LinkOf(link);
      }
      assert AddMealIngredientStep(db, ings, a, link, mode) == (db2, ings1, a2, e2);
    } else {
      assert AddMealIngredientStep(db, ings, a, link, mode) == (db1, ings1, a1, e);
    }
  }

  /** The insert half of `add_meal_ingredient`: one new `meal_ingredients`
      row, which reads back as the record, exactly when the record is
      complete; nothing changes otherwise. */
  lemma InsertKidSpec(db: Db, a: MealIngredientData)
    requires AllReady(db)
    ensures var (db', a', e) := InsertKid(db, a);
            && AllReady(db') && Extends(db, db')
            && (forall n :: n in db.tables && n != "meal_ingredients" ==> db'.tables[n] == db.tables[n])
            && (e.None? <==> Complete(a))
            && Count(db', "meal_ingredients") == Count(db, "meal_ingredients") + (if e.None? then 1 else 0)
            && (e.Some? ==> db' == db && a' == a)
            && (e.None? ==>
                  && a' == a.(id := a'.id) && a'.id.Some?
                  && MealIngredientsOf(db', [Eq("id", Int(a'.id.value))]) == Ok([a']))
  {
    var d := DumpMealIngredient(a, MealIngredientIgnored);
    AddThenGetMealIngredient(db, a);
    InsertKeepsReady(db, "meal_ingredients", d);
  }

  /** The ingredients the children in `xs` link to. */
  function LinkedBy(links: map<MealIngredient, Option<Option<Ingredient>>>, xs: seq<MealIngredient>): (s: set<Ingredient>)
    ensures forall x :: x in xs && x in links ==> LinkOf(links[x]) <= s
  {
    set x, g | x in xs && x in links && g in LinkOf(links[x]) :: g
  }

  /** The ingredients linked by a list: the first child's, then the rest's. */
  lemma LinkedByCons(links: map<MealIngredient, Option<Option<Ingredient>>>, xs: seq<MealIngredient>)
    requires |xs| > 0 && xs[0] in links
    ensures LinkedBy(links, xs) == LinkOf(links[xs[0]]) + LinkedBy(links, xs[1..])
  {
    assert forall y :: y in xs <==> y == xs[0] || y in xs[1..];
  }

  /** Every child in `xs` is admissible once it has the meal's id. */
  ghost predicate AllFit(ings: map<Ingredient, IngredientData>, kids: map<MealIngredient, MealIngredientData>,
                         links: map<MealIngredient, Option<Option<Ingredient>>>, mealId: Option<int>,
                         xs: seq<MealIngredient>, mode: Access)
    requires Tracked(ings, kids, links, xs)
  {
    forall x :: x in xs ==> Admissible(ings, kids[x].(mealId := mealId), links[x], mode)
  }

  /** A child that was added stays admissible (it now has its ingredient's
      id), and so do the others, whose linked ingredients can only have
      gained an id. */
  lemma FitKept(ings: map<Ingredient, IngredientData>, kids: map<MealIngredient, MealIngredientData>,
                links: map<MealIngredient, Option<Option<Ingredient>>>, mealId: Option<int>,
                xs: seq<MealIngredient>, mode: Access, ings1: map<Ingredient, IngredientData>, a1: MealIngredientData)
    requires |xs| > 0 && Tracked(ings, kids, links, xs) && ings1.Keys == ings.Keys
    requires AllFit(ings, kids, links, mealId, xs, mode)
    requires forall g :: g in ings && g !in LinkOf(links[xs[0]]) ==> ings1[g] == ings[g]
    requires forall g :: g in LinkOf(links[xs[0]]) ==> ings1[g].id.Some? && a1.ingredientId == ings1[g].id
    requires LinkOf(links[xs[0]]) == {} ==> a1.ingredientId == kids[xs[0]].ingredientId
    requires a1.mealId == mealId && a1.quantity == kids[xs[0]].quantity
    ensures Tracked(ings1, kids[xs[0] := a1], links, xs[1..])
    ensures AllFit(ings1, kids[xs[0] := a1], links, mealId, xs[1..], mode)
  {
    var x := xs[0];
    var kids1 := kids[x := a1];
    forall y | y in xs[1..]
      ensures Admissible(ings1, kids1[y].(mealId := mealId), links[y], mode)
    {
      assert y in xs;
      var l := links[y];
      if l.Some? && l.value.Some? {
        assert l.value.value in LinkOf(l);
      }
    }
  }

  /** `add_meal`'s loop: the children are added in order; on success there is
      one new `meal_ingredients` row per child, every child has the meal's id
      and its own new id, and every linked ingredient has an id. The
      ingredient rows and unsaved ingredients keep their total; the `meals`
      table, children not listed and ingredients not linked are untouched.
      The loop succeeds when every child is admissible. */
  ghost predicate AddKidsPost(db: Db, ings: map<Ingredient, IngredientData>,
                              kids: map<MealIngredient, MealIngredientData>,
                              links: map<MealIngredient, Option<Option<Ingredient>>>, mealId: Option<int>,
                              xs: seq<MealIngredient>, mode: Access, res: Run)
    requires Tracked(ings, kids, links, xs)
  {
    KidsTablesPost(db, ings, xs, res) && KidsRecordsPost(ings, kids, links, mealId, xs, mode, res)
  }

  /** The tables part of `AddKidsPost`. */
  ghost predicate KidsTablesPost(db: Db, ings: map<Ingredient, IngredientData>, xs: seq<MealIngredient>, res: Run)
  {
    var (db', ings', kids', e) := res;
    && AllReady(db') && Extends(db, db')
    && (forall n :: n in db.tables && n != "ingredients" && n != "meal_ingredients" ==> db'.tables[n] == db.tables[n])
    && Count(db', "ingredients") + |Unsaved(ings')| == Count(db, "ingredients") + |Unsaved(ings)|
    && (e.None? ==> Count(db', "meal_ingredients") == Count(db, "meal_ingredients") + |xs|)
  }

  /** The records part of `AddKidsPost`. */
  ghost predicate KidsRecordsPost(ings: map<Ingredient, IngredientData>,
                                  kids: map<MealIngredient, MealIngredientData>,
                                  links: map<MealIngredient, Option<Option<Ingredient>>>, mealId: Option<int>,
                                  xs: seq<MealIngredient>, mode: Access, res: Run)
    requires Tracked(ings, kids, links, xs)
  {
    var (db', ings', kids', e) := res;
    && ings'.Keys == ings.Keys && kids'.Keys == kids.Keys
    && (forall g :: g in ings && g !in LinkedBy(links, xs) ==> ings'[g] == ings[g])
    && (forall x :: x in kids && x !in xs ==> kids'[x] == kids[x])
    && (e.None? ==> forall x :: x in xs ==> kids'[x].mealId == mealId && kids'[x].id.Some?)
    && (e.None? ==> forall g :: g in LinkedBy(links, xs) ==> ings'[g].id.Some?)
    && (mealId.Some? && AllFit(ings, kids, links, mealId, xs, mode) ==> e.None?)
  }

  lemma {:induction false} AddKidsSpec(db: Db, ings: map<Ingredient, IngredientData>,
                                       kids: map<MealIngredient, MealIngredientData>,
                                       links: map<MealIngredient, Option<Option<Ingredient>>>, mealId: Option<int>,
                                       xs: seq<MealIngredient>, mode: Access)
    requires AllReady(db) && Tracked(ings, kids, links, xs)
    ensures AddKidsPost(db, ings, kids, links, mealId, xs, mode, AddKids(db, ings, kids, links, mealId, xs, mode))
    decreases |xs|
  {
    if |xs| > 0 {
      var x := xs[0];
      var a := kids[x].(mealId := mealId);
      AddMealIngredientSpec(db, ings, a, links[x], mode);
      var (db1, ings1, a1, e) := AddMealIngredientStep(db, ings, a, links[x], mode);
      if e.None? {
        FitKept0(ings, kids, links, mealId, xs, ings1, a1);
        AddKidsSpec(db1, ings1, kids[x := a1], links, mealId, xs[1..], mode);
        KidAddedPost(db, ings, kids, links, mealId, xs, mode, db1, ings1, a1,
                     AddKids(db1, ings1, kids[x := a1], links, mealId, xs[1..], mode));
      } else {
        KidFailedPost(db, ings, kids, links, mealId, xs, mode, db1, ings1, a1, e);
      }
    }
  }

  lemma FitKept0(ings: map<Ingredient, IngredientData>, kids: map<MealIngredient, MealIngredientData>,
                 links: map<MealIngredient, Option<Option<Ingredient>>>, mealId: Option<int>,
                 xs: seq<MealIngredient>, ings1: map<Ingredient, IngredientData>, a1: MealIngredientData)
    requires |xs| > 0 && Tracked(ings, kids, links, xs) && ings1.Keys == ings.Keys
    ensures Tracked(ings1, kids[xs[0] := a1], links, xs[1..])
  {
  }

  /** The first child failed: the loop stops there. */
  lemma KidFailedPost(db: Db, ings: map<Ingredient, IngredientData>,
                      kids: map<MealIngredient, MealIngredientData>,
                      links: map<MealIngredient, Option<Option<Ingredient>>>, mealId: Option<int>,
                      xs: seq<MealIngredient>, mode: Access,
                      db1: Db, ings1: map<Ingredient, IngredientData>, a1: MealIngredientData, e: Option<Error>)
    requires |xs| > 0 && Tracked(ings, kids, links, xs) && AllReady(db) && e.Some?
    requires var a := kids[xs[0]].(mealId := mealId);
             && ings1.Keys == ings.Keys
             && AllReady(db1) && Extends(db, db1)
             && (forall n :: n in db.tables && n != "ingredients" && n != "meal_ingredients" ==> db1.tables[n] == db.tables[n])
             && Count(db1, "ingredients") + |Unsaved(ings1)| == Count(db, "ingredients") + |Unsaved(ings)|
             && (forall g :: g in ings && g !in LinkOf(links[xs[0]]) ==> ings1[g] == ings[g])
             && !Admissible(ings, a, links[xs[0]], mode)
    ensures AddKidsPost(db, ings, kids, links, mealId, xs, mode, (db1, ings1, kids[xs[0] := a1], e))
  {
    assert LinkOf(links[xs[0]]) <= LinkedBy(links, xs);
  }

  /** The first child was added: the rest follow from the new state. */
  lemma KidAddedPost(db: Db, ings: map<Ingredient, IngredientData>,
                     kids: map<MealIngredient, MealIngredientData>,
                     links: map<MealIngredient, Option<Option<Ingredient>>>, mealId: Option<int>,
                     xs: seq<MealIngredient>, mode: Access,
                     db1: Db, ings1: map<Ingredient, IngredientData>, a1: MealIngredientData, res: Run)
    requires |xs| > 0 && Tracked(ings, kids, links, xs) && AllReady(db)
    requires var x := xs[0];
             var a := kids[x].(mealId := mealId);
             && ings1.Keys == ings.Keys
             && AllReady(db1) && Extends(db, db1)
             && (forall n :: n in db.tables && n != "ingredients" && n != "meal_ingredients" ==> db1.tables[n] == db.tables[n])
             && Count(db1, "ingredients") + |Unsaved(ings1)| == Count(db, "ingredients") + |Unsaved(ings)|
             && (forall g :: g in ings && g !in LinkOf(links[x]) ==> ings1[g] == ings[g])
             && a1.mealId == mealId && a1.quantity == a.quantity
             && Admissible(ings, a, links[x], mode)
             && Count(db1, "meal_ingredients") == Count(db, "meal_ingredients") + 1
             && a1.id.Some?
             && (forall g :: g in LinkOf(links[x]) ==> ings1[g].id.Some? && a1.ingredientId == ings1[g].id)
             && (LinkOf(links[x]) == {} ==> a1.ingredientId == a.ingredientId)
    requires Tracked(ings1, kids[xs[0] := a1], links, xs[1..])
    requires AddKidsPost(db1, ings1, kids[xs[0] := a1], links, mealId, xs[1..], mode, res)
    ensures AddKidsPost(db, ings, kids, links, mealId, xs, mode, res)
  {
    var (db2, ings2, kids2, e2) := res;
    ExtendsTrans(db, db1, db2);
    assert KidsTablesPost(db, ings, xs, res);
    KidAddedRecords(ings, kids, links, mealId, xs, mode, ings1, a1, res);
  }

  lemma KidAddedRecords(ings: map<Ingredient, IngredientData>,
                        kids: map<MealIngredient, MealIngredientData>,
                        links: map<MealIngredient, Option<Option<Ingredient>>>, mealId: Option<int>,
                        xs: seq<MealIngredient>, mode: Access,
                        ings1: map<Ingredient, IngredientData>, a1: MealIngredientData, res: Run)
    requires |xs| > 0 && Tracked(ings, kids, links, xs)
    requires var x := xs[0];
             var a := kids[x].(mealId := mealId);
             && ings1.Keys == ings.Keys
             && (forall g :: g in ings && g !in LinkOf(links[x]) ==> ings1[g] == ings[g])
             && a1.mealId == mealId && a1.quantity == a.quantity
             && a1.id.Some?
             && (forall g :: g in LinkOf(links[x]) ==> ings1[g].id.Some? && a1.ingredientId == ings1[g].id)
             && (LinkOf(links[x]) == {} ==> a1.ingredientId == a.ingredientId)
    requires Tracked(ings1, kids[xs[0] := a1], links, xs[1..])
    requires KidsRecordsPost(ings1, kids[xs[0] := a1], links, mealId, xs[1..], mode, res)
    ensures KidsRecordsPost(ings, kids, links, mealId, xs, mode, res)
  {
    var x := xs[0];
    var (db2, ings2, kids2, e2) := res;
    assert forall y :: y in xs <==> y == x || y in xs[1..];
    LinkedByCons(links, xs);
    if mealId.Some? && AllFit(ings, kids, links, mealId, xs, mode) {
      FitKept(ings, kids, links, mealId, xs, mode, ings1, a1);
    }
    if e2.None? {
      KidAddedDone(ings, kids, links, mealId, xs, mode, ings1, a1, res);
    }
  }

  /** When the rest of the loop succeeds, every child has the meal's id and
      its own, and every linked ingredient has an id. */
  lemma KidAddedDone(ings: map<Ingredient, IngredientData>,
                     kids: map<MealIngredient, MealIngredientData>,
                     links: map<MealIngredient, Option<Option<Ingredient>>>, mealId: Option<int>,
                     xs: seq<MealIngredient>, mode: Access,
                     ings1: map<Ingredient, IngredientData>, a1: MealIngredientData, res: Run)
    requires |xs| > 0 && Tracked(ings, kids, links, xs) && ings1.Keys == ings.Keys
    requires a1.mealId == mealId && a1.id.Some?
    requires forall g :: g in LinkOf(links[xs[0]]) ==> ings1[g].id.Some?
    requires Tracked(ings1, kids[xs[0] := a1], links, xs[1..])
    requires KidsRecordsPost(ings1, kids[xs[0] := a1], links, mealId, xs[1..], mode, res)
    requires res.3.None?
    ensures forall y :: y in xs ==> res.2[y].mealId == mealId && res.2[y].id.Some?
    ensures forall g :: g in LinkedBy(links, xs) ==> res.1[g].id.Some?
  {
    var x := xs[0];
    var (db2, ings2, kids2, e2) := res;
    LinkedByCons(links, xs);
    forall y | y in xs
      ensures kids2[y].mealId == mealId && kids2[y].id.Some?
    {
      if y !in xs[1..] {
        assert y == x;
      }
    }
  }

  /** A select sees only its own table. */
  lemma SelectLocal(d1: Db, d2: Db, name: string, cols: seq<string>, conds: seq<Condition>)
    requires name in d1.tables && name in d2.tables && d1.tables[name] == d2.tables[name]
    ensures SelectRows(d1, name, cols, conds) == SelectRows(d2, name, cols, conds)
  {
  }

  /** `add_meal`: the meal row is always added and the meal gets its rowid,
      and `get_meal(id)` gives it back (for four-digit years); the ingredient
      rows and unsaved ingredients keep their total. Without a
      `meal_ingredients` attribute nothing more is stored, and the code as
      written then fails. With children, success stores one
      `meal_ingredients` row per child, each with the meal's id; it succeeds
      when every child is admissible. */
  lemma AddMealSpec(db: Db, a: MealData, now: Stamp, ings: map<Ingredient, IngredientData>,
                    kids: map<MealIngredient, MealIngredientData>,
                    links: map<MealIngredient, Option<Option<Ingredient>>>,
                    xs: Option<seq<MealIngredient>>, mode: Access)
    requires AllReady(db) && (xs.Some? ==> Tracked(ings, kids, links, xs.value))
    ensures var ((db', ings', kids', e), id) := AddMealStep(db, a, now, ings, kids, links, xs, mode);
            && id.Some? && AllReady(db') && Extends(db, db')
            && Count(db', "meals") == Count(db, "meals") + 1
            && Count(db', "ingredients") + |Unsaved(ings')| == Count(db, "ingredients") + |Unsaved(ings)|
            && (DateOr(a, now).year >= 1000 ==>
                  MealsOf(db', [Eq("id", Int(id.value))]) == Ok([MealData(id, a.name, Some(DateOr(a, now)), None)]))
            && (xs.None? ==>
                  && (e.None? <==> mode == Lenient)
                  && ings' == ings && kids' == kids
                  && Count(db', "meal_ingredients") == Count(db, "meal_ingredients"))
            && (xs.Some? && e.None? ==>
                  && Count(db', "meal_ingredients") == Count(db, "meal_ingredients") + |xs.value|
                  && (forall x :: x in xs.value ==> kids'[x].mealId == id && kids'[x].id.Some?)
                  && (forall g :: g in LinkedBy(links, xs.value) ==> ings'[g].id.Some?))
            && (xs.Some? && AllFit(ings, kids, links, id, xs.value, mode) ==> e.None?)
  {
    MealInserted(db, a, now);
    var (db1, r) := InsertRow(db, "meals", DumpMeal(a, MealIgnored, now));
    assert InsertMealStep(db, a, now) == (db1, r.value, None);
    if xs.Some? {
      AddKidsSpec(db1, ings, kids, links, r.value, xs.value, mode);
      var res := AddKids(db1, ings, kids, links, r.value, xs.value, mode);
      ExtendsTrans(db, db1, res.0);
      SelectLocal(db1, res.0, "meals", MealColumns, [Eq("id", Int(r.value.value))]);
      assert AddMealStep(db, a, now, ings, kids, links, xs, mode) == (res, r.value);
    } else {
      assert AddMealStep(db, a, now, ings, kids, links, xs, mode)
          == ((db1, ings, kids, if mode == AsWritten then Some(AttributeError("meal_ingredients")) else None), r.value);
    }
  }

  /** The meal row of `add_meal`. */
  lemma MealInserted(db: Db, a: MealData, now: Stamp)
    requires AllReady(db)
    ensures var (db1, r) := InsertRow(db, "meals", DumpMeal(a, MealIgnored, now));
            && r.Ok? && r.value.Some? && AllReady(db1) && Extends(db, db1)
            && (forall n :: n in db.tables && n != "meals" ==> db1.tables[n] == db.tables[n])
            && Count(db1, "meals") == Count(db, "meals") + 1
            && (DateOr(a, now).year >= 1000 ==>
                  MealsOf(db1, [Eq("id", Int(r.value.value))]) == Ok([MealData(r.value, a.name, Some(DateOr(a, now)), None)]))
  {
    var d := DumpMeal(a, MealIgnored, now);
    MealInsertOk(db, a, now);
    InsertOk(db, "meals", d);
    assert InsertRow(db, "meals", d).1 == Ok(Some(NewKey(db.tables["meals"], d)));
    InsertKeepsReady(db, "meals", d);
    if DateOr(a, now).year >= 1000 {
      AddThenGetMeal(db, a, now);
    }
  }

  /** A meal with N children, each linked to a tracked ingredient that is
      saved or has a figure to store, is added with its children: one meal
      row, N meal ingredient rows, and one ingredient row per ingredient that
      had no id (tests/test_meal_storage.py:139-198, three new ingredients or
      three saved ones). */
  lemma NestedMealCounts(db: Db, a: MealData, now: Stamp, ings: map<Ingredient, IngredientData>,
                         kids: map<MealIngredient, MealIngredientData>,
                         links: map<MealIngredient, Option<Option<Ingredient>>>,
                         xs: seq<MealIngredient>, mode: Access)
    requires AllReady(db) && Tracked(ings, kids, links, xs)
    requires ings.Keys == LinkedBy(links, xs)
    requires forall x :: x in xs ==>
      && links[x].Some? && links[x].value.Some? && kids[x].quantity.Some?
      && (ings[links[x].value.value].id.Some? || HasFigures(ings[links[x].value.value]))
    ensures var ((db', ings', kids', e), id) := AddMealStep(db, a, now, ings, kids, links, Some(xs), mode);
            && e.None?
            && Count(db', "meals") == Count(db, "meals") + 1
            && Count(db', "meal_ingredients") == Count(db, "meal_ingredients") + |xs|
            && Count(db', "ingredients") == Count(db, "ingredients") + |Unsaved(ings)|
  {
    AddMealSpec(db, a, now, ings, kids, links, Some(xs), mode);
    var ((db', ings', kids', e), id) := AddMealStep(db, a, now, ings, kids, links, Some(xs), mode);
    forall x | x in xs
      ensures Admissible(ings, kids[x].(mealId := id), links[x], mode)
    {
      assert links[x].value.value in LinkOf(links[x]);
    }
    assert Unsaved(ings') == {};
  }

  /** As written, `add_meal` on a meal built without `meal_ingredients`
      (tests/test_meal_storage.py:61-63) stores the meal row, then raises
      AttributeError reading the attribute at meal_storage.py:97. */
  lemma MealWithoutChildrenAsWritten(db: Db, a: MealData, now: Stamp, ings: map<Ingredient, IngredientData>,
                                     kids: map<MealIngredient, MealIngredientData>,
                                     links: map<MealIngredient, Option<Option<Ingredient>>>)
    requires AllReady(db)
    ensures var ((db', ings', kids', e), id) := AddMealStep(db, a, now, ings, kids, links, None, AsWritten);
            && e == Some(AttributeError("meal_ingredients"))
            && Count(db', "meals") == Count(db, "meals") + 1
            && id.Some?
  {
    MealInserted(db, a, now);
  }

  /** Reading an absent `meal_ingredients` as no children, the meal is added
      and `get_meals(eq('id', id))` gives it back, as the test expects. */
  lemma MealWithoutChildrenLenient(db: Db, a: MealData, now: Stamp, ings: map<Ingredient, IngredientData>,
                                   kids: map<MealIngredient, MealIngredientData>,
                                   links: map<MealIngredient, Option<Option<Ingredient>>>)
    requires AllReady(db) && DateOr(a, now).year >= 1000
    ensures var ((db', ings', kids', e), id) := AddMealStep(db, a, now, ings, kids, links, None, Lenient);
            && e.None? && id.Some?
            && Count(db', "meals") == Count(db, "meals") + 1
            && Count(db', "meal_ingredients") == Count(db, "meal_ingredients")
            && MealsOf(db', [Eq("id", Int(id.value))]) == Ok([MealData(id, a.name, Some(DateOr(a, now)), None)])
  {
    MealInserted(db, a, now);
    InsertKeepsReady(db, "meals", DumpMeal(a, MealIgnored, now));
  }

  /** As written, `add_meal_ingredient` on a record built without
      `ingredient` (tests/test_meal_storage.py:83-87) raises AttributeError at
      meal_storage.py:118 before anything is stored. */
  lemma UnlinkedMealIngredientAsWritten(db: Db, ings: map<Ingredient, IngredientData>, a: MealIngredientData)
    requires AllReady(db)
    ensures var (db', ings', a', e) := AddMealIngredientStep(db, ings, a, None, AsWritten);
            && e == Some(AttributeError("ingredient"))
            && db' == db && ings' == ings && a' == a
  {
    AddMealIngredientSpec(db, ings, a, None, AsWritten);
  }

  /** Reading an absent `ingredient` as None, the record is stored exactly
      when it has a meal id, an ingredient id and a quantity, and
      `get_meal_ingredients(eq('id', id))` gives it back, as the test
      expects. */
  lemma UnlinkedMealIngredientLenient(db: Db, ings: map<Ingredient, IngredientData>, a: MealIngredientData)
    requires AllReady(db)
    ensures var (db', ings', a', e) := AddMealIngredientStep(db, ings, a, None, Lenient);
            && (e.None? <==> Complete(a))
            && ings' == ings
            && (e.None? ==>
                  && a' == a.(id := a'.id) && a'.id.Some?
                  && Count(db', "meal_ingredients") == Count(db, "meal_ingredients") + 1
                  && MealIngredientsOf(db', [Eq("id", Int(a'.id.value))]) == Ok([a']))
  {
    AddMealIngredientSpec(db, ings, a, None, Lenient);
    LinkStepSpec(db, ings, a, None, Lenient);
  }

  /** The data of a set of meal ingredient records, by object. */
  function KidState(k: set<MealIngredient>): (m: map<MealIngredient, MealIngredientData>)
    reads k
    ensures m.Keys == k
  {
    map x | x in k :: x.Data()
  }

  /** The `ingredient` attributes of a set of meal ingredient records. */
  function LinkState(k: set<MealIngredient>): (m: map<MealIngredient, Option<Option<Ingredient>>>)
    reads k
    ensures m.Keys == k
    ensures forall x :: x in k ==> m[x] == x.ingredient
  {
    map x | x in k :: x.ingredient
  }

  function Members(xs: seq<MealIngredient>): set<MealIngredient>
  {
    set x | x in xs
  }

  /** The ingredient records a list of meal ingredients links to. */
  function LinkedIngredients(xs: seq<MealIngredient>): (s: set<Ingredient>)
    reads Members(xs)
    ensures forall x :: x in xs ==> LinkOf(x.ingredient) <= s
  {
    LinkedBy(LinkState(Members(xs)), xs)
  }

  /** The children of a meal and the ingredients they link to are sets that
      track them, so every meal can be given to `AddMeal`. */
  lemma MealTracked(meal: Meal)
    ensures meal.mealIngredients.Some? ==>
      forall x :: x in meal.mealIngredients.value ==>
        x in Members(meal.Kids()) && LinkOf(x.ingredient) <= LinkedIngredients(meal.Kids())
  {
  }

  /** A meal's own fields; its dump leaves the nested list out. */
  function HeadOf(m: Meal): (a: MealData)
    reads m
    ensures a.mealIngredients.None?
  {
    MealData(m.id, m.name, m.date, None)
  }

  /** The dump of a meal without `meal_ingredients` does not depend on its
      children. */
  lemma DumpWithoutKids(a: MealData, now: Stamp)
    ensures DumpMeal(a, MealIgnored, now) == DumpMeal(a.(mealIngredients := None), MealIgnored, now)
  {
    PickIgnores(MealFields, MealValues(a, now), MealValues(a.(mealIngredients := None), now), MealIgnored);
  }

  lemma KidOneChanged(k: set<MealIngredient>, before: map<MealIngredient, MealIngredientData>, x: MealIngredient)
    requires before.Keys == k && x in k
    requires forall y :: y in k && y != x ==> y.Data() == before[y]
    ensures KidState(k) == before[x := x.Data()]
  {
  }

  lemma LinksKept(k: set<MealIngredient>, links: map<MealIngredient, Option<Option<Ingredient>>>)
    requires links.Keys == k
    requires forall y :: y in k ==> y.ingredient == links[y]
    ensures LinkState(k) == links
  {
  }

  lemma KidAdded(db: Db, ings: map<Ingredient, IngredientData>, kids: map<MealIngredient, MealIngredientData>,
                 links: map<MealIngredient, Option<Option<Ingredient>>>, mealId: Option<int>,
                 xs: seq<MealIngredient>, mode: Access, db1: Db, ings1: map<Ingredient, IngredientData>, a1: MealIngredientData)
    requires |xs| > 0 && Tracked(ings, kids, links, xs)
    requires AddMealIngredientStep(db, ings, kids[xs[0]].(mealId := mealId), links[xs[0]], mode) == (db1, ings1, a1, None)
    ensures Tracked(ings1, kids[xs[0] := a1], links, xs[1..])
    ensures AddKids(db, ings, kids, links, mealId, xs, mode) == AddKids(db1, ings1, kids[xs[0] := a1], links, mealId, xs[1..], mode)
  {
  }

  lemma KidFailed(db: Db, ings: map<Ingredient, IngredientData>, kids: map<MealIngredient, MealIngredientData>,
                  links: map<MealIngredient, Option<Option<Ingredient>>>, mealId: Option<int>,
                  xs: seq<MealIngredient>, mode: Access, db1: Db, ings1: map<Ingredient, IngredientData>,
                  a1: MealIngredientData, e: Error)
    requires |xs| > 0 && Tracked(ings, kids, links, xs)
    requires AddMealIngredientStep(db, ings, kids[xs[0]].(mealId := mealId), links[xs[0]], mode) == (db1, ings1, a1, Some(e))
    ensures AddKids(db, ings, kids, links, mealId, xs, mode) == (db1, ings1, kids[xs[0] := a1], Some(e))
  {
  }

  // ---------------------------------------------------------------------------
  // Deleting

  /** After a successful delete, selecting any declared columns with the same
      conditions gives no row. */
  lemma DeletedNone(db: Db, name: string, cols: seq<string>, conds: seq<Condition>)
    requires Exec(db, Delete(name, conds)).1.Ok?
    requires |cols| > 0 && "*" !in cols
    requires name in db.tables && forall c :: c in cols ==> c in Names(db.tables[name])
    ensures SelectRows(Exec(db, Delete(name, conds)).0, name, cols, conds) == Ok([])
  {
    var db' := Exec(db, Delete(name, conds)).0;
    DeleteThenSelect(db, name, conds, cols);
    ExpandPlain(cols, Names(db.tables[name]));
    assert Problem(db, Select(name, cols, conds)) == None;
    assert Prepare(Select(name, cols, conds)).bind == Prepare(Delete(name, conds)).bind;
  }

  /** `delete_ingredient(*conds)` then `get_ingredients(*conds)` gives nothing. */
  lemma DeleteThenGetIngredients(db: Db, conds: seq<Condition>)
    requires Ready(db, "ingredients", IngredientsSchema)
    requires Exec(db, Delete("ingredients", conds)).1.Ok?
    ensures IngredientsOf(Exec(db, Delete("ingredients", conds)).0, conds) == Ok([])
  {
    IngredientsShape();
    assert Names(db.tables["ingredients"]) == ["id"] + ColumnNames(IngredientsSchema);
    IngredientColumnsKnown(db.tables["ingredients"]);
    DeletedNone(db, "ingredients", IngredientColumns, conds);
  }

  /** `delete_meal(*conds)` then `get_meals(*conds)` gives nothing. */
  lemma DeleteThenGetMeals(db: Db, conds: seq<Condition>)
    requires Ready(db, "meals", MealsSchema)
    requires Exec(db, Delete("meals", conds)).1.Ok?
    ensures MealsOf(Exec(db, Delete("meals", conds)).0, conds) == Ok([])
  {
    MealsShape();
    assert Names(db.tables["meals"]) == ["id", "date", "name"];
    DeletedNone(db, "meals", MealColumns, conds);
  }

  /** `delete_meal_ingredient(*conds)` then `get_meal_ingredients(*conds)`
      gives nothing. */
  lemma DeleteThenGetMealIngredients(db: Db, conds: seq<Condition>)
    requires Ready(db, "meal_ingredients", MealIngredientsSchema)
    requires Exec(db, Delete("meal_ingredients", conds)).1.Ok?
    ensures MealIngredientsOf(Exec(db, Delete("meal_ingredients", conds)).0, conds) == Ok([])
  {
    MealIngredientsShape();
    assert Names(db.tables["meal_ingredients"]) == ["id", "ingredient_id", "meal_id", "quantity"];
    DeletedNone(db, "meal_ingredients", MealIngredientColumns, conds);
  }

  /** On an empty table, the select by `neq('id', k)` after the insert that
      reported `k` gives no row. */
  lemma InsertedAloneNeq(db: Db, name: string, d: Dict, cols: seq<string>)
    requires name in db.tables && TableOk(db.tables[name]) && db.tables[name].key == "id"
    requires db.tables[name].rows == [] && Exec(db, Insert(name, d)).1.Ok?
    requires |cols| > 0 && "*" !in cols
    requires forall i :: 0 <= i < |cols| ==> cols[i] in Names(db.tables[name])
    ensures var (db1, r) := InsertRow(db, name, d);
            r.Ok? && r.value.Some? && SelectRows(db1, name, cols, [Neq("id", Int(r.value.value))]) == Ok([])
  {
    InsertOk(db, name, d);
    InsertIntoEmptyNeq(db, name, d, cols);
  }

  /** The round of tests/test_meal_storage.py:31-54: on an empty
      `ingredients` table, a record with a figure is stored under a new
      rowid; `get_ingredients(eq('id', id))` gives it back, `neq('id', id)`
      gives nothing, and after `delete_ingredient(eq('id', id))` the first
      get gives nothing. */
  lemma IngredientLifecycle(db: Db, a: IngredientData)
    requires AllReady(db) && Count(db, "ingredients") == 0 && HasFigures(a)
    ensures var (db1, r) := InsertRow(db, "ingredients", DumpIngredient(a, ["id"]));
            && r.Ok? && r.value.Some?
            && IngredientsOf(db1, [Eq("id", Int(r.value.value))])
               == Ok([IngredientData(r.value, a.name, Filled(a.calories, 0.0), Filled(a.sugar, 0.0),
                                     Filled(a.vegProtein, 0.0), Filled(a.protein, 0.0), Filled(a.carbo, 0.0))])
            && IngredientsOf(db1, [Neq("id", Int(r.value.value))]) == Ok([])
            && Exec(db1, Delete("ingredients", [Eq("id", Int(r.value.value))])).1.Ok?
            && IngredientsOf(Exec(db1, Delete("ingredients", [Eq("id", Int(r.value.value))])).0, [Eq("id", Int(r.value.value))]) == Ok([])
  {
    var d := DumpIngredient(a, ["id"]);
    AddThenGetIngredient(db, a);
    InsertKeepsReady(db, "ingredients", d);
    IngredientsShape();
    IngredientColumnsKnown(db.tables["ingredients"]);
    InsertedAloneNeq(db, "ingredients", d, IngredientColumns);
    var (db1, r) := InsertRow(db, "ingredients", d);
    DeleteByKeyOk(db1, "ingredients", r.value.value);
    DeleteThenGetIngredients(db1, [Eq("id", Int(r.value.value))]);
  }

  /** The same round for a Meal (tests/test_meal_storage.py:57-73). */
  lemma MealLifecycle(db: Db, a: MealData, now: Stamp)
    requires AllReady(db) && Count(db, "meals") == 0 && DateOr(a, now).year >= 1000
    ensures var (db1, r) := InsertRow(db, "meals", DumpMeal(a, MealIgnored, now));
            && r.Ok? && r.value.Some?
            && MealsOf(db1, [Eq("id", Int(r.value.value))]) == Ok([MealData(r.value, a.name, Some(DateOr(a, now)), None)])
            && MealsOf(db1, [Neq("id", Int(r.value.value))]) == Ok([])
            && Exec(db1, Delete("meals", [Eq("id", Int(r.value.value))])).1.Ok?
            && MealsOf(Exec(db1, Delete("meals", [Eq("id", Int(r.value.value))])).0, [Eq("id", Int(r.value.value))]) == Ok([])
  {
    var d := DumpMeal(a, MealIgnored, now);
    AddThenGetMeal(db, a, now);
    InsertKeepsReady(db, "meals", d);
    MealColumnsKnown(db.tables["meals"]);
    InsertedAloneNeq(db, "meals", d, MealColumns);
    var (db1, r) := InsertRow(db, "meals", d);
    DeleteByKeyOk(db1, "meals", r.value.value);
    DeleteThenGetMeals(db1, [Eq("id", Int(r.value.value))]);
  }

  /** The same round for a complete MealIngredient
      (tests/test_meal_storage.py:76-98). */
  lemma MealIngredientLifecycle(db: Db, a: MealIngredientData)
    requires AllReady(db) && Count(db, "meal_ingredients") == 0 && Complete(a)
    ensures var (db1, r) := InsertRow(db, "meal_ingredients", DumpMealIngredient(a, MealIngredientIgnored));
            && r.Ok? && r.value.Some?
            && MealIngredientsOf(db1, [Eq("id", Int(r.value.value))]) == Ok([MealIngredientData(r.value, a.mealId, a.ingredientId, a.quantity)])
            && MealIngredientsOf(db1, [Neq("id", Int(r.value.value))]) == Ok([])
            && Exec(db1, Delete("meal_ingredients", [Eq("id", Int(r.value.value))])).1.Ok?
            && MealIngredientsOf(Exec(db1, Delete("meal_ingredients", [Eq("id", Int(r.value.value))])).0, [Eq("id", Int(r.value.value))]) == Ok([])
  {
    var d := DumpMealIngredient(a, MealIngredientIgnored);
    AddThenGetMealIngredient(db, a);
    InsertKeepsReady(db, "meal_ingredients", d);
    MealIngredientColumnsKnown(db.tables["meal_ingredients"]);
    InsertedAloneNeq(db, "meal_ingredients", d, MealIngredientColumns);
    var (db1, r) := InsertRow(db, "meal_ingredients", d);
    DeleteByKeyOk(db1, "meal_ingredients", r.value.value);
    DeleteThenGetMealIngredients(db1, [Eq("id", Int(r.value.value))]);
  }

  /** `x is not None`, the default predicate of `first`: every record object
      passes it. */
  predicate IsRecord<T>(x: T)
  {
    true
  }

  // ---------------------------------------------------------------------------
  // The storage object

  class MealStorage {
    const sql: SQLStorage

    constructor (engine: MemoryEngine)
      ensures sql.engine == engine
    {
      sql := new SQLStorage(engine);
    }

    /** `clear()`: the three tables lose their rows. */
    method Clear() returns (err: Option<Error>)
      modifies sql.engine
      ensures (sql.engine.db, err) == ApplyAll(old(sql.engine.db), ClearDdl)
    {
      err := sql.ExecuteDdl(ClearDdl);
    }

    /** `delete()`: each table is dropped on its own, and a failure is
        ignored. */
    method Delete()
      modifies sql.engine
      ensures sql.engine.db == DropEach(old(sql.engine.db), DropDdl)
    {
      var i := 0;
      while i < |DropDdl|
        invariant 0 <= i <= |DropDdl|
        invariant DropEach(old(sql.engine.db), DropDdl) == DropEach(sql.engine.db, DropDdl[i..])
      {
        assert DropDdl[i..][1..] == DropDdl[i + 1..];
        var _ := sql.ExecuteDdl([DropDdl[i]]);
        i := i + 1;
      }
    }

    /** `init()`: the three tables are created. */
    method Init() returns (err: Option<Error>)
      modifies sql.engine
      ensures (sql.engine.db, err) == ApplyAll(old(sql.engine.db), InitDdl)
    {
      err := sql.ExecuteDdl(InitDdl);
    }

    /** `add_ingredient(ingredient)`: the dump without `id` is inserted and the
        record takes the new rowid as its id; a failed insert changes neither
        the record nor the database. */
    /** The insert behind `add_ingredient`, as AddOne sees it. */
    method InsertIngredientRow(a: IngredientData) returns (res: Result<Outcome, Error>)
      modifies sql.engine
      ensures sql.engine.db == AddOne(old(sql.engine.db), a).0
      ensures res.Err? ==> AddOne(old(sql.engine.db), a).1 == Err(res.error)
      ensures res.Ok? ==> res.value.RowIdOf? && AddOne(old(sql.engine.db), a).1 == Ok(a.(id := res.value.id))
    {
      ghost var d0 := sql.engine.db;
      res := sql.Insert("ingredients", DumpIngredient(a, ["id"]));
      AddOneFinish(d0, a, sql.engine.db, res);
    }

    method AddIngredient(ing: Ingredient) returns (r: Result<Ingredient, Error>)
      modifies sql.engine, ing
      ensures var (db', res) := AddOne(old(sql.engine.db), old(ing.Data()));
              && sql.engine.db == db'
              && (res.Ok? ==> r == Ok(ing) && ing.Data() == res.value)
              && (res.Err? ==> r == Err(res.error) && ing.Data() == old(ing.Data()))
    {
      ghost var a0 := ing.Data();
      ghost var one := AddOne(sql.engine.db, a0);
      var res := InsertIngredientRow(ing.Data());
      assert sql.engine.db == one.0;
      if res.Err? {
        assert one.1 == Err(res.error);
        r := Err(res.error);
      } else {
        assert one.1 == Ok(a0.(id := res.value.id));
        ing.id := res.value.id;
        assert ing.Data() == a0.(id := res.value.id);
        r := Ok(ing);
      }
    }

    /** `add_ingredients(ingredients)`: `add_ingredient` on every record that
        has no id when its turn comes; the records added are returned. */
    method AddIngredients(xs: seq<Ingredient>) returns (r: Result<seq<Ingredient>, Error>)
      modifies sql.engine, set x | x in xs
      ensures var (db', m, added, e) := AddEach(old(sql.engine.db), old(IngredientState(set x | x in xs)), xs);
              && sql.engine.db == db'
              && IngredientState(set x | x in xs) == m
              && r == (if e.None? then Ok(added) else Err(e.value))
    {
      ghost var s := set x | x in xs;
      ghost var d0, m0 := sql.engine.db, IngredientState(s);
      ghost var ms := m0;
      var added: seq<Ingredient> := [];
      var i := 0;
      assert xs[0..] == xs;
      assert [] + AddEach(d0, m0, xs).2 == AddEach(d0, m0, xs).2;
      while i < |xs|
        invariant 0 <= i <= |xs|
        invariant ms == IngredientState(s)
        invariant AddEach(d0, m0, xs) == Prepend(added, AddEach(sql.engine.db, ms, xs[i..]))
      {
        ghost var db0 := sql.engine.db;
        var err, saved := IngredientTurn(xs, i, s, ms);
        if err.Some? {
          assert added + [] == added;
          r := Err(err.value);
          return;
        }
        var step := if saved then [xs[i]] else [];
        TurnStep(d0, m0, xs, i, added, db0, ms, step, sql.engine.db, IngredientState(s));
        added := added + step;
        ms := IngredientState(s);
        i := i + 1;
      }
      assert xs[i..] == [];
      assert added + [] == added;
      r := Ok(added);
    }

    /** One turn of `add_ingredients`: the record is added when it has no id,
        and `saved` says whether it was. */
    method IngredientTurn(xs: seq<Ingredient>, i: nat, ghost s: set<Ingredient>,
                          ghost ms: map<Ingredient, IngredientData>) returns (err: Option<Error>, saved: bool)
      requires i < |xs| && s == (set x | x in xs) && ms == IngredientState(s)
      modifies sql.engine, s
      ensures err.Some? ==> AddEach(old(sql.engine.db), ms, xs[i..]) == (sql.engine.db, IngredientState(s), [], err)
      ensures err.None? ==> AddEach(old(sql.engine.db), ms, xs[i..])
                            == Prepend(if saved then [xs[i]] else [], AddEach(sql.engine.db, IngredientState(s), xs[i + 1..]))
    {
      var x := xs[i];
      assert xs[i..][1..] == xs[i + 1..];
      ghost var db := sql.engine.db;
      if x.id.None? {
        err := SaveNew(xs, i, s, ms);
        saved := err.None?;
      } else {
        saved, err := false, None;
        AddEachSkip(db, ms, xs[i..]);
        assert [] + AddEach(db, ms, xs[i + 1..]).2 == AddEach(db, ms, xs[i + 1..]).2;
      }
    }

    /** The turn of a record without an id: `add_ingredient`. */
    method SaveNew(xs: seq<Ingredient>, i: nat, ghost s: set<Ingredient>,
                   ghost ms: map<Ingredient, IngredientData>) returns (err: Option<Error>)
      requires i < |xs| && s == (set x | x in xs) && ms == IngredientState(s) && xs[i].id.None?
      modifies sql.engine, s
      ensures err.Some? ==> AddEach(old(sql.engine.db), ms, xs[i..]) == (sql.engine.db, IngredientState(s), [], err)
      ensures err.None? ==> AddEach(old(sql.engine.db), ms, xs[i..])
                            == Prepend([xs[i]], AddEach(sql.engine.db, IngredientState(s), xs[i + 1..]))
    {
      var x := xs[i];
      assert xs[i..][1..] == xs[i + 1..];
      ghost var db := sql.engine.db;
      var res := AddIngredient(x);
      OneChanged(s, ms, x);
      if res.Err? {
        assert ms[x := ms[x]] == ms;
        AddEachFailed(db, ms, xs[i..], sql.engine.db, res.error);
        err := Some(res.error);
      } else {
        AddEachAdded(db, ms, xs[i..], sql.engine.db, x.Data());
        err := None;
      }
    }

    /** `add_meal_ingredient`, lines 118-123: a linked ingredient without an
        id is added first, and the meal ingredient takes its id. */
    method LinkIngredient(mi: MealIngredient, mode: Access, ghost s: set<Ingredient>) returns (err: Option<Error>)
      requires LinkOf(mi.ingredient) <= s
      modifies sql.engine, mi, s
      ensures var (db', m, a', e) := LinkStep(old(sql.engine.db), old(IngredientState(s)), old(mi.Data()), old(mi.ingredient), mode);
              && sql.engine.db == db' && IngredientState(s) == m && mi.Data() == a' && err == e
      ensures mi.ingredient == old(mi.ingredient)
    {
      if mi.ingredient.None? {
        err := if mode == AsWritten then Some(AttributeError("ingredient")) else None;
        return;
      }
      err := None;
      if mi.ingredient.value.Some? {
        var g := mi.ingredient.value.value;
        assert g in LinkOf(mi.ingredient);
        ghost var db0, m0, a0 := sql.engine.db, IngredientState(s), mi.Data();
        LinkStepSome(db0, m0, a0, mi.ingredient, mode);
        err := SaveLinked(g, s);
        if err.None? {
          assert IngredientState(s)[g] == g.Data();
          mi.ingredientId := g.id;
        }
      }
    }

    /** The linked ingredient is added first when it has no id, which is
        `add_ingredients` on that record alone. */
    method SaveLinked(g: Ingredient, ghost s: set<Ingredient>) returns (err: Option<Error>)
      requires g in s
      modifies sql.engine, s
      ensures var (db', m, _, e) := AddEach(old(sql.engine.db), old(IngredientState(s)), [g]);
              && sql.engine.db == db' && IngredientState(s) == m && err == e
    {
      ghost var d0, m0 := sql.engine.db, IngredientState(s);
      assert [g][1..] == [];
      if g.id.None? {
        var res := AddIngredient(g);
        OneChanged(s, m0, g);
        if res.Err? {
          assert m0[g := m0[g]] == m0;
          AddEachFailed(d0, m0, [g], sql.engine.db, res.error);
          err := Some(res.error);
        } else {
          AddEachAdded(d0, m0, [g], sql.engine.db, g.Data());
          err := None;
        }
      } else {
        AddEachSkip(d0, m0, [g]);
        err := None;
      }
    }

    /** `add_meal_ingredient(meal_ingredient)`: the link step, then the insert
        of the dump without `id` and `ingredient`; the record takes the new
        rowid as its id. `s` holds the ingredient records whose data is
        tracked, among them the linked one. */
    method AddMealIngredient(mi: MealIngredient, mode: Access, ghost s: set<Ingredient>) returns (r: Result<MealIngredient, Error>)
      requires LinkOf(mi.ingredient) <= s
      modifies sql.engine, mi, s
      ensures var (db', m, a', e) := AddMealIngredientStep(old(sql.engine.db), old(IngredientState(s)), old(mi.Data()), old(mi.ingredient), mode);
              && sql.engine.db == db' && IngredientState(s) == m && mi.Data() == a'
              && r == (if e.None? then Ok(mi) else Err(e.value))
      ensures mi.ingredient == old(mi.ingredient)
    {
      ghost var st := LinkStep(sql.engine.db, IngredientState(s), mi.Data(), mi.ingredient, mode);
      ghost var whole := AddMealIngredientStep(sql.engine.db, IngredientState(s), mi.Data(), mi.ingredient, mode);
      var err := LinkIngredient(mi, mode, s);
      assert st == (sql.engine.db, IngredientState(s), mi.Data(), err);
      if err.None? {
        ghost var m1 := IngredientState(s);
        err := InsertMealIngredient(mi);
        assert IngredientState(s) == m1;
        assert whole == (sql.engine.db, m1, mi.Data(), err);
      } else {
        assert whole == st;
      }
      r := if err.None? then Ok(mi) else Err(err.value);
    }

    /** The insert half of `add_meal_ingredient`. */
    method InsertMealIngredient(mi: MealIngredient) returns (err: Option<Error>)
      modifies sql.engine, mi
      ensures (sql.engine.db, mi.Data(), err) == InsertKid(old(sql.engine.db), old(mi.Data()))
      ensures mi.ingredient == old(mi.ingredient)
    {
      var res := sql.Insert("meal_ingredients", DumpMealIngredient(mi.Data(), MealIngredientIgnored));
      if res.Err? {
        err := Some(res.error);
      } else {
        mi.id := res.value.id;
        err := None;
      }
    }

    /** `add_meal`'s loop, lines 97-99: each child gets `meal_id` and is
        added, in list order, until one fails. */
    method AddKidsLoop(xs: seq<MealIngredient>, mealId: Option<int>, mode: Access,
                       ghost k: set<MealIngredient>, ghost s: set<Ingredient>) returns (err: Option<Error>)
      requires forall x :: x in xs ==> x in k && LinkOf(x.ingredient) <= s
      modifies sql.engine, k, s
      ensures var (db', m, ks, e) := AddKids(old(sql.engine.db), old(IngredientState(s)), old(KidState(k)), old(LinkState(k)), mealId, xs, mode);
              && sql.engine.db == db' && IngredientState(s) == m && KidState(k) == ks && err == e
      ensures LinkState(k) == old(LinkState(k))
    {
      ghost var d0, i0, k0, l0 := sql.engine.db, IngredientState(s), KidState(k), LinkState(k);
      ghost var ms, ks := i0, k0;
      var i := 0;
      assert xs[0..] == xs;
      while i < |xs|
        invariant 0 <= i <= |xs|
        invariant ms == IngredientState(s) && ks == KidState(k) && LinkState(k) == l0
        invariant Tracked(ms, ks, l0, xs[i..])
        invariant AddKids(d0, i0, k0, l0, mealId, xs, mode) == AddKids(sql.engine.db, ms, ks, l0, mealId, xs[i..], mode)
      {
        ghost var db0 := sql.engine.db;
        ghost var run := AddKids(db0, ms, ks, l0, mealId, xs[i..], mode);
        assert AddKids(d0, i0, k0, l0, mealId, xs, mode) == run;
        err := KidTurn(xs, i, mealId, mode, k, s, ms, ks, l0);
        if err.Some? {
          assert run == (sql.engine.db, IngredientState(s), KidState(k), err);
          return;
        }
        assert run == AddKids(sql.engine.db, IngredientState(s), KidState(k), l0, mealId, xs[i + 1..], mode);
        ms, ks := IngredientState(s), KidState(k);
        i := i + 1;
      }
      assert xs[i..] == [];
      assert AddKids(d0, i0, k0, l0, mealId, xs, mode) == (sql.engine.db, ms, ks, None);
      err := None;
    }

    /** One turn of the loop, stated against the children still to come: a
        failure ends the run, a success leaves the rest to run from the new
        state. */
    method KidTurn(xs: seq<MealIngredient>, i: nat, mealId: Option<int>, mode: Access,
                   ghost k: set<MealIngredient>, ghost s: set<Ingredient>,
                   ghost ms: map<Ingredient, IngredientData>, ghost ks: map<MealIngredient, MealIngredientData>,
                   ghost l0: map<MealIngredient, Option<Option<Ingredient>>>) returns (err: Option<Error>)
      requires i < |xs| && xs[i] in k && LinkOf(xs[i].ingredient) <= s
      requires ms == IngredientState(s) && ks == KidState(k) && l0 == LinkState(k) && Tracked(ms, ks, l0, xs[i..])
      modifies sql.engine, k, s
      ensures LinkState(k) == l0
      ensures err.Some? ==> AddKids(old(sql.engine.db), ms, ks, l0, mealId, xs[i..], mode) == (sql.engine.db, IngredientState(s), KidState(k), err)
      ensures err.None? ==> && Tracked(IngredientState(s), KidState(k), l0, xs[i + 1..])
                            && AddKids(old(sql.engine.db), ms, ks, l0, mealId, xs[i..], mode)
                               == AddKids(sql.engine.db, IngredientState(s), KidState(k), l0, mealId, xs[i + 1..], mode)
    {
      var x := xs[i];
      assert xs[i..][1..] == xs[i + 1..];
      ghost var db := sql.engine.db;
      err := AddChild(x, mealId, mode, k, s, ms, ks, l0);
      if err.Some? {
        KidFailed(db, ms, ks, l0, mealId, xs[i..], mode, sql.engine.db, IngredientState(s), KidState(k)[x], err.value);
      } else {
        KidAdded(db, ms, ks, l0, mealId, xs[i..], mode, sql.engine.db, IngredientState(s), KidState(k)[x]);
      }
    }

    /** One turn of `add_meal`'s loop: the child gets `meal_id`, then
        `add_meal_ingredient` runs on it. */
    method AddChild(x: MealIngredient, mealId: Option<int>, mode: Access,
                    ghost k: set<MealIngredient>, ghost s: set<Ingredient>,
                    ghost ings: map<Ingredient, IngredientData>, ghost kids: map<MealIngredient, MealIngredientData>,
                    ghost links: map<MealIngredient, Option<Option<Ingredient>>>) returns (err: Option<Error>)
      requires x in k && LinkOf(x.ingredient) <= s
      requires ings == IngredientState(s) && kids == KidState(k) && links == LinkState(k)
      modifies sql.engine, k, s
      ensures var (db', m, a', e) := AddMealIngredientStep(old(sql.engine.db), ings, kids[x].(mealId := mealId), links[x], mode);
              && sql.engine.db == db' && IngredientState(s) == m && KidState(k) == kids[x := a'] && err == e
      ensures LinkState(k) == links
    {
      ghost var d0 := sql.engine.db;
      x.mealId := mealId;
      assert IngredientState(s) == ings;
      ghost var whole := AddMealIngredientStep(d0, ings, kids[x].(mealId := mealId), links[x], mode);
      assert x.Data() == kids[x].(mealId := mealId) && x.ingredient == links[x];
      var r := AddMealIngredient(x, mode, s);
      assert sql.engine.db == whole.0 && IngredientState(s) == whole.1 && x.Data() == whole.2;
      KidOneChanged(k, kids, x);
      LinksKept(k, links);
      err := if r.Ok? then None else Some(r.error);
    }

    /** `add_meal(meal)`: the meal's dump without `id` and `meal_ingredients`
        is inserted, dated `now` when the meal has no date, and the meal takes
        the new rowid as its id; then its children are added. */
    method AddMeal(meal: Meal, now: Stamp, mode: Access, ghost k: set<MealIngredient>, ghost s: set<Ingredient>)
      returns (r: Result<Meal, Error>)
      requires meal.mealIngredients.Some? ==> forall x :: x in meal.mealIngredients.value ==> x in k && LinkOf(x.ingredient) <= s
      modifies sql.engine, meal, k, s
      ensures var res := AddMealStep(old(sql.engine.db), old(HeadOf(meal)), now, old(IngredientState(s)),
                                     old(KidState(k)), old(LinkState(k)), old(meal.mealIngredients), mode);
              && sql.engine.db == res.0.0 && meal.id == res.1
              && IngredientState(s) == res.0.1 && KidState(k) == res.0.2
              && r == (if res.0.3.None? then Ok(meal) else Err(res.0.3.value))
      ensures meal.name == old(meal.name) && meal.date == old(meal.date) && meal.mealIngredients == old(meal.mealIngredients)
      ensures LinkState(k) == old(LinkState(k))
    {
      ghost var ms, ks, ls := IngredientState(s), KidState(k), LinkState(k);
      var err := InsertMeal(meal, now);
      assert IngredientState(s) == ms && KidState(k) == ks && LinkState(k) == ls;
      if err.Some? {
        r := Err(err.value);
        return;
      }
      if meal.mealIngredients.None? {
        r := if mode == AsWritten then Err(AttributeError("meal_ingredients")) else Ok(meal);
        return;
      }
      err := AddKidsLoop(meal.mealIngredients.value, meal.id, mode, k, s);
      r := if err.None? then Ok(meal) else Err(err.value);
    }

    /** The first half of `add_meal`: the meal's own row; the meal takes the
        new rowid as its id. */
    method InsertMeal(meal: Meal, now: Stamp) returns (err: Option<Error>)
      modifies sql.engine, meal
      ensures (sql.engine.db, meal.id, err) == InsertMealStep(old(sql.engine.db), old(HeadOf(meal)), now)
      ensures meal.name == old(meal.name) && meal.date == old(meal.date) && meal.mealIngredients == old(meal.mealIngredients)
    {
      var res := sql.Insert("meals", DumpMeal(HeadOf(meal), MealIgnored, now));
      if res.Err? {
        err := Some(res.error);
      } else {
        meal.id := res.value.id;
        err := None;
      }
    }

    /** `delete_ingredient(*conds)` */
    method DeleteIngredient(conds: seq<Condition>) returns (r: Result<Outcome, Error>)
      modifies sql.engine
      ensures sql.engine.db == Exec(old(sql.engine.db), Statement.Delete("ingredients", conds)).0
      ensures r == Finish(Exec(old(sql.engine.db), Statement.Delete("ingredients", conds)).1, NoResultFn)
    {
      r := sql.Delete("ingredients", conds);
    }

    /** `sqlstorage.select(table, columns, conds)`: the selected rows as dicts. */
    method SelectDicts(table: string, columns: seq<string>, conds: seq<Condition>) returns (r: Result<seq<Dict>, Error>)
      modifies sql.engine
      ensures sql.engine.db == old(sql.engine.db)
      ensures r == SelectRows(old(sql.engine.db), table, columns, conds)
    {
      var res := sql.Select(table, columns, conds);
      if res.Err? {
        r := Err(res.error);
      } else {
        r := Ok(res.value.rows);
      }
    }

    /** `[Ingredient.load(dic) for dic in dics]`: one new record per dict. */
    static method LoadIngredients(dics: seq<Dict>) returns (out: seq<Ingredient>)
      ensures |out| == |dics|
      ensures forall i :: 0 <= i < |out| ==> fresh(out[i]) && out[i].Data() == LoadIngredient(dics[i])
      ensures forall i, j :: 0 <= i < j < |out| ==> out[i] != out[j]
    {
      out := NewIngredients(seq(|dics|, k requires 0 <= k < |dics| => LoadIngredient(dics[k])));
    }

    /** One new, distinct record per data value. */
    static method NewIngredients(data: seq<IngredientData>) returns (out: seq<Ingredient>)
      ensures |out| == |data|
      ensures forall i :: 0 <= i < |out| ==> fresh(out[i]) && out[i].Data() == data[i]
      ensures forall i, j :: 0 <= i < j < |out| ==> out[i] != out[j]
    {
      out := [];
      var i := 0;
      while i < |data|
        invariant 0 <= i <= |data|
        invariant |out| == i
        invariant forall j :: 0 <= j < i ==> fresh(out[j]) && out[j].Data() == data[j]
        invariant forall j, k :: 0 <= j < k < i ==> out[j] != out[k]
      {
        var x := new Ingredient(data[i]);
        out := out + [x];
        i := i + 1;
      }
    }

    /** `get_ingredients(*conds)`: one new record per selected row, loaded
        from it; the database does not change. */
    method GetIngredients(conds: seq<Condition>) returns (r: Result<seq<Ingredient>, Error>)
      modifies sql.engine
      ensures sql.engine.db == old(sql.engine.db)
      ensures var got := IngredientsOf(old(sql.engine.db), conds);
              && (r.Ok? <==> got.Ok?)
              && (r.Err? ==> r.error == got.error)
              && (r.Ok? ==>
                    && |r.value| == |got.value|
                    && (forall i :: 0 <= i < |r.value| ==> fresh(r.value[i]) && r.value[i].Data() == got.value[i])
                    && (forall i, j :: 0 <= i < j < |r.value| ==> r.value[i] != r.value[j]))
    {
      var res := SelectDicts("ingredients", IngredientColumns, conds);
      if res.Err? {
        r := Err(res.error);
      } else {
        var out := LoadIngredients(res.value);
        r := Ok(out);
      }
    }

    /** `get_ingredient(id)`: the first record `get_ingredients(eq('id', id))`
        gives, or None. */
    method GetIngredient(id: Value) returns (r: Result<Option<Ingredient>, Error>)
      modifies sql.engine
      ensures sql.engine.db == old(sql.engine.db)
      ensures var got := IngredientsOf(old(sql.engine.db), [Eq("id", id)]);
              && (r.Ok? <==> got.Ok?)
              && (r.Err? ==> r.error == got.error)
              && (r.Ok? ==> (r.value.None? <==> got.value == []))
              && (r.Ok? && r.value.Some? ==> fresh(r.value.value) && r.value.value.Data() == got.value[0])
    {
      var res := GetIngredients([Eq("id", id)]);
      if res.Err? {
        r := Err(res.error);
      } else {
        ExtractAllOrNone(res.value, IsRecord);
        r := Ok(First(res.value, IsRecord));
      }
    }

    /** `delete_meal(*conds)` */
    method DeleteMeal(conds: seq<Condition>) returns (r: Result<Outcome, Error>)
      modifies sql.engine
      ensures sql.engine.db == Exec(old(sql.engine.db), Statement.Delete("meals", conds)).0
      ensures r == Finish(Exec(old(sql.engine.db), Statement.Delete("meals", conds)).1, NoResultFn)
    {
      r := sql.Delete("meals", conds);
    }

    /** `[Meal.load(dic) for dic in dics]`: one new meal per dict, without
        the `meal_ingredients` attribute. */
    static method LoadMeals(dics: seq<Dict>) returns (out: seq<Meal>)
      ensures |out| == |dics|
      ensures forall i :: 0 <= i < |out| ==> fresh(out[i]) && HeadOf(out[i]) == LoadMeal(dics[i]) && out[i].mealIngredients.None?
      ensures forall i, j :: 0 <= i < j < |out| ==> out[i] != out[j]
    {
      out := NewMeals(seq(|dics|, k requires 0 <= k < |dics| => LoadMeal(dics[k])));
    }

    /** One new meal per head, distinct, none with `meal_ingredients`. */
    static method NewMeals(heads: seq<MealData>) returns (out: seq<Meal>)
      ensures |out| == |heads|
      ensures forall i :: 0 <= i < |out| ==> fresh(out[i]) && out[i].id == heads[i].id && out[i].name == heads[i].name && out[i].date == heads[i].date && out[i].mealIngredients.None?
      ensures forall i, j :: 0 <= i < j < |out| ==> out[i] != out[j]
    {
      out := [];
      var i := 0;
      while i < |heads|
        invariant 0 <= i <= |heads|
        invariant |out| == i
        invariant forall j :: 0 <= j < i ==> fresh(out[j]) && out[j].id == heads[j].id && out[j].name == heads[j].name && out[j].date == heads[j].date && out[j].mealIngredients.None?
        invariant forall j, k :: 0 <= j < k < i ==> out[j] != out[k]
      {
        var a := heads[i];
        var x := new Meal(a.id, a.name, a.date, None);
        out := out + [x];
        i := i + 1;
      }
    }

    /** `get_meals(*conds)`: one new meal per selected row, loaded from it;
        the database does not change. */
    method GetMeals(conds: seq<Condition>) returns (r: Result<seq<Meal>, Error>)
      modifies sql.engine
      ensures sql.engine.db == old(sql.engine.db)
      ensures var got := MealsOf(old(sql.engine.db), conds);
              && (r.Ok? <==> got.Ok?)
              && (r.Err? ==> r.error == got.error)
              && (r.Ok? ==>
                    && |r.value| == |got.value|
                    && (forall i :: 0 <= i < |r.value| ==> fresh(r.value[i]) && HeadOf(r.value[i]) == got.value[i] && r.value[i].mealIngredients.None?)
                    && (forall i, j :: 0 <= i < j < |r.value| ==> r.value[i] != r.value[j]))
    {
      var res := SelectDicts("meals", MealColumns, conds);
      if res.Err? {
        r := Err(res.error);
      } else {
        var out := LoadMeals(res.value);
        r := Ok(out);
      }
    }

    /** `get_meal(id)`: the first meal `get_meals(eq('id', id))` gives, or
        None. */
    method GetMeal(id: Value) returns (r: Result<Option<Meal>, Error>)
      modifies sql.engine
      ensures sql.engine.db == old(sql.engine.db)
      ensures var got := MealsOf(old(sql.engine.db), [Eq("id", id)]);
              && (r.Ok? <==> got.Ok?)
              && (r.Err? ==> r.error == got.error)
              && (r.Ok? ==> (r.value.None? <==> got.value == []))
              && (r.Ok? && r.value.Some? ==> fresh(r.value.value) && HeadOf(r.value.value) == got.value[0])
    {
      var res := GetMeals([Eq("id", id)]);
      if res.Err? {
        r := Err(res.error);
      } else {
        ExtractAllOrNone(res.value, IsRecord);
        r := Ok(First(res.value, IsRecord));
      }
    }

    /** `delete_meal_ingredient(*conds)` */
    method DeleteMealIngredient(conds: seq<Condition>) returns (r: Result<Outcome, Error>)
      modifies sql.engine
      ensures sql.engine.db == Exec(old(sql.engine.db), Statement.Delete("meal_ingredients", conds)).0
      ensures r == Finish(Exec(old(sql.engine.db), Statement.Delete("meal_ingredients", conds)).1, NoResultFn)
    {
      r := sql.Delete("meal_ingredients", conds);
    }

    /** `[MealIngredient.load(dic) for dic in dics]`: one new record per dict,
        without the `ingredient` attribute. */
    static method LoadMealIngredients(dics: seq<Dict>) returns (out: seq<MealIngredient>)
      ensures |out| == |dics|
      ensures forall i :: 0 <= i < |out| ==> fresh(out[i]) && out[i].Data() == LoadMealIngredient(dics[i]) && out[i].ingredient.None?
      ensures forall i, j :: 0 <= i < j < |out| ==> out[i] != out[j]
    {
      out := NewMealIngredients(seq(|dics|, k requires 0 <= k < |dics| => LoadMealIngredient(dics[k])));
    }

    /** One new, distinct record per data value, without `ingredient`. */
    static method NewMealIngredients(data: seq<MealIngredientData>) returns (out: seq<MealIngredient>)
      ensures |out| == |data|
      ensures forall i :: 0 <= i < |out| ==> fresh(out[i]) && out[i].Data() == data[i] && out[i].ingredient.None?
      ensures forall i, j :: 0 <= i < j < |out| ==> out[i] != out[j]
    {
      out := [];
      var i := 0;
      while i < |data|
        invariant 0 <= i <= |data|
        invariant |out| == i
        invariant forall j :: 0 <= j < i ==> fresh(out[j]) && out[j].Data() == data[j] && out[j].ingredient.None?
        invariant forall j, k :: 0 <= j < k < i ==> out[j] != out[k]
      {
        var x := new MealIngredient(data[i], None);
        out := out + [x];
        i := i + 1;
      }
    }

    /** `get_meal_ingredients(*conds)`: one new record per selected row,
        loaded from it; the database does not change. */
    method GetMealIngredients(conds: seq<Condition>) returns (r: Result<seq<MealIngredient>, Error>)
      modifies sql.engine
      ensures sql.engine.db == old(sql.engine.db)
      ensures var got := MealIngredientsOf(old(sql.engine.db), conds);
              && (r.Ok? <==> got.Ok?)
              && (r.Err? ==> r.error == got.error)
              && (r.Ok? ==>
                    && |r.value| == |got.value|
                    && (forall i :: 0 <= i < |r.value| ==> fresh(r.value[i]) && r.value[i].Data() == got.value[i] && r.value[i].ingredient.None?)
                    && (forall i, j :: 0 <= i < j < |r.value| ==> r.value[i] != r.value[j]))
    {
      var res := SelectDicts("meal_ingredients", MealIngredientColumns, conds);
      if res.Err? {
        r := Err(res.error);
      } else {
        var out := LoadMealIngredients(res.value);
        r := Ok(out);
      }
    }
  }
}
