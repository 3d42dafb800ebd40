/** `MealStorage` of storage.py: the older façade over backend.py's `Storage`,
    on the three tables meal_storage.py also uses (backend.py creates them
    with the same columns). An add writes the record's dump without `id`
    only and returns the new rowid, not the record; a get loads one new
    record per selected row; a delete passes its conditions on to the fixed
    table and returns nothing. The adds go through the insert with its text
    passed whole (`Backend.Storage.Insert`); as written, backend.py's insert
    refuses every statement. */
module Storage {
  import opened Values
  import opened Conditions
  import opened Statements
  import opened Engine
  import opened DateText
  import opened Model
  import MS = MealStorage
  import Backend

  /** `ignore=('id',)`: the one field every add leaves out. */
  const OnlyId: seq<string> := ["id"]

  /** One field's share of a dump. */
  function Entry(field: string, v: Option<Value>, ignore: seq<string>): (d: Dict)
    ensures d == [] <==> v.None? || field in ignore
  {
    if v.Some? && field !in ignore then [(field, v.value)] else []
  }

  lemma PickCons(f: string, fs: seq<string>, v: Option<Value>, vs: seq<Option<Value>>, ignore: seq<string>)
    requires |fs| == |vs|
    ensures Pick([f] + fs, [v] + vs, ignore) == Entry(f, v, ignore) + Pick(fs, vs, ignore)
  {
    assert ([f] + fs)[1..] == fs && ([v] + vs)[1..] == vs;
  }

  /** A four-field dump, field by field. */
  lemma PickFour(fs: seq<string>, vs: seq<Option<Value>>, ignore: seq<string>)
    requires |fs| == |vs| == 4
    ensures Pick(fs, vs, ignore)
            == Entry(fs[0], vs[0], ignore) + Entry(fs[1], vs[1], ignore)
               + Entry(fs[2], vs[2], ignore) + Entry(fs[3], vs[3], ignore)
  {
    var e0, e1, e2, e3 := Entry(fs[0], vs[0], ignore), Entry(fs[1], vs[1], ignore),
                          Entry(fs[2], vs[2], ignore), Entry(fs[3], vs[3], ignore);
    PickCons(fs[3], [], vs[3], [], ignore);
    assert Pick([fs[3]], [vs[3]], ignore) == e3;
    PickCons(fs[2], [fs[3]], vs[2], [vs[3]], ignore);
    assert Pick(fs[2..], vs[2..], ignore) == e2 + e3 by {
      assert fs[2..] == [fs[2]] + [fs[3]] && vs[2..] == [vs[2]] + [vs[3]];
    }
    PickCons(fs[1], fs[2..], vs[1], vs[2..], ignore);
    assert Pick(fs[1..], vs[1..], ignore) == e1 + (e2 + e3) by {
      assert fs[1..] == [fs[1]] + fs[2..] && vs[1..] == [vs[1]] + vs[2..];
    }
    PickCons(fs[0], fs[1..], vs[0], vs[1..], ignore);
    assert fs == [fs[0]] + fs[1..] && vs == [vs[0]] + vs[1..];
  }

  /** A meal's dump field by field. */
  lemma MealDumpEntries(a: MealData, ignore: seq<string>, now: Stamp)
    ensures var vs := MealValues(a, now);
            DumpMeal(a, ignore, now)
            == Entry("id", vs[0], ignore) + Entry("name", vs[1], ignore)
               + Entry("date", vs[2], ignore) + Entry("meal_ingredients", vs[3], ignore)
  {
    PickFour(MealFields, MealValues(a, now), ignore);
  }

  /** storage.py's meal dump is meal_storage.py's, followed by the nested
      list when the meal has one. */
  lemma MealDumpParts(a: MealData, now: Stamp)
    ensures a.mealIngredients.None? ==> DumpMeal(a, OnlyId, now) == DumpMeal(a, MS.MealIgnored, now)
    ensures a.mealIngredients.Some? ==>
              DumpMeal(a, OnlyId, now) == DumpMeal(a, MS.MealIgnored, now) + [("meal_ingredients", MealValues(a, now)[3].value)]
    ensures Keys(DumpMeal(a, MS.MealIgnored, now)) == if a.name.Some? then ["name", "date"] else ["date"]
  {
    MealDumpEntries(a, OnlyId, now);
    MealDumpEntries(a, MS.MealIgnored, now);
    var vs := MealValues(a, now);
    var head := Entry("name", vs[1], OnlyId) + Entry("date", vs[2], OnlyId);
    assert Entry("id", vs[0], OnlyId) == [] && Entry("id", vs[0], MS.MealIgnored) == [];
    assert Entry("name", vs[1], MS.MealIgnored) == Entry("name", vs[1], OnlyId);
    assert Entry("date", vs[2], MS.MealIgnored) == Entry("date", vs[2], OnlyId);
    assert Entry("meal_ingredients", vs[3], MS.MealIgnored) == [];
    assert DumpMeal(a, MS.MealIgnored, now) == head;
  }

  /** The first key of a meal's dump that `meals` lacks is the nested list,
      when the meal has one. */
  lemma ChildrenColumnUnknown(a: MealData, now: Stamp)
    requires a.mealIngredients.Some?
    ensures Unknown(Keys(DumpMeal(a, OnlyId, now)), ["id", "date", "name"]) == Some("meal_ingredients")
  {
    MealDumpParts(a, now);
    var d := DumpMeal(a, OnlyId, now);
    assert Keys(d) == Keys(DumpMeal(a, MS.MealIgnored, now)) + ["meal_ingredients"];
    var tail: seq<string> := ["date", "meal_ingredients"];
    assert tail[1..] == ["meal_ingredients"];
    assert Unknown(tail, ["id", "date", "name"]) == Some("meal_ingredients");
    if a.name.Some? {
      assert Keys(d) == ["name"] + tail;
      assert Keys(d)[1..] == tail;
    } else {
      assert Keys(d) == tail;
    }
  }

  /** storage.py keeps `meal_ingredients` in a meal's dump: a meal that has
      the attribute is refused, since `meals` has no such column, and nothing
      is stored. */
  lemma AddMealWithChildrenRefused(db: Db, a: MealData, now: Stamp)
    requires MS.Ready(db, "meals", MS.MealsSchema) && a.mealIngredients.Some?
    ensures MS.InsertRow(db, "meals", DumpMeal(a, OnlyId, now)) == (db, Err(NoSuchColumn("meal_ingredients")))
  {
    ChildrenColumnUnknown(a, now);
    var d := DumpMeal(a, OnlyId, now);
    assert Names(db.tables["meals"]) == ["id", "date", "name"] by {
      assert ColumnNames(MS.MealsSchema) == ["date", "name"];
    }
    assert Problem(db, Insert("meals", d)) == Some(NoSuchColumn("meal_ingredients"));
  }

  /** A meal without `meal_ingredients` has the dump meal_storage.py writes,
      so it is stored and `get_meals(eq('id', id))` gives it back under the
      returned rowid (tests/test_add.py:58-64). */
  lemma AddMealWithoutChildren(db: Db, a: MealData, now: Stamp)
    requires MS.Ready(db, "meals", MS.MealsSchema) && a.mealIngredients.None?
    requires MS.DateOr(a, now).year >= 1000
    ensures var (db', r) := MS.InsertRow(db, "meals", DumpMeal(a, OnlyId, now));
            && r.Ok? && r.value.Some?
            && MS.MealsOf(db', [Eq("id", Int(r.value.value))]) == Ok([MealData(r.value, a.name, Some(MS.DateOr(a, now)), None)])
  {
    MealDumpParts(a, now);
    MS.AddThenGetMeal(db, a, now);
  }

  /** A meal ingredient's dump is the one meal_storage.py writes: the
      `ingredient` attribute meal_storage.py also leaves out is not a
      declared field. */
  lemma MealIngredientDumpSame(a: MealIngredientData)
    ensures DumpMealIngredient(a, OnlyId) == DumpMealIngredient(a, MS.MealIngredientIgnored)
  {
    var fs, vs := MealIngredientFields, MealIngredientValues(a);
    assert fs[1..] == ["meal_id", "ingredient_id", "quantity"];
    assert fs[1..][1..] == ["ingredient_id", "quantity"];
    assert fs[1..][1..][1..] == ["quantity"];
    assert fs[1..][1..][1..][1..] == [];
  }

  /** On an empty `meals` table, the round of tests/test_add.py:57-73 for a
      meal without the attribute: the returned rowid finds it, `neq` finds
      nothing, and after the delete the first get finds nothing. */
  lemma MealRound(db: Db, a: MealData, now: Stamp)
    requires MS.AllReady(db) && MS.Count(db, "meals") == 0
    requires a.mealIngredients.None? && MS.DateOr(a, now).year >= 1000
    ensures var (db1, r) := MS.InsertRow(db, "meals", DumpMeal(a, OnlyId, now));
            && r.Ok? && r.value.Some?
            && MS.MealsOf(db1, [Eq("id", Int(r.value.value))]) == Ok([MealData(r.value, a.name, Some(MS.DateOr(a, now)), None)])
            && MS.MealsOf(db1, [Neq("id", Int(r.value.value))]) == Ok([])
            && Exec(db1, Delete("meals", [Eq("id", Int(r.value.value))])).1.Ok?
            && MS.MealsOf(Exec(db1, Delete("meals", [Eq("id", Int(r.value.value))])).0, [Eq("id", Int(r.value.value))]) == Ok([])
  {
    MealDumpParts(a, now);
    MS.MealLifecycle(db, a, now);
  }

  /** The same round for a complete meal ingredient
      (tests/test_add.py:76-98). */
  lemma MealIngredientRound(db: Db, a: MealIngredientData)
    requires MS.AllReady(db) && MS.Count(db, "meal_ingredients") == 0 && MS.Complete(a)
    ensures var (db1, r) := MS.InsertRow(db, "meal_ingredients", DumpMealIngredient(a, OnlyId));
            && r.Ok? && r.value.Some?
            && MS.MealIngredientsOf(db1, [Eq("id", Int(r.value.value))]) == Ok([a.(id := r.value)])
            && MS.MealIngredientsOf(db1, [Neq("id", Int(r.value.value))]) == Ok([])
            && Exec(db1, Delete("meal_ingredients", [Eq("id", Int(r.value.value))])).1.Ok?
            && MS.MealIngredientsOf(Exec(db1, Delete("meal_ingredients", [Eq("id", Int(r.value.value))])).0, [Eq("id", Int(r.value.value))]) == Ok([])
  {
    MealIngredientDumpSame(a);
    MS.MealIngredientLifecycle(db, a);
  }

  /** Over the insert as written (backend.py:115), each of the three adds is
      a syntax error that stores nothing, whatever the record: the rounds
      above hold only over the insert with its text passed whole. */
  lemma AddsAsWrittenRefused(db: Db, i: IngredientData, m: MealData, mi: MealIngredientData, now: Stamp)
    ensures var d := DumpIngredient(i, OnlyId);
            Run(db, Backend.InsertAsWrittenPrep("ingredients", d), Insert("ingredients", d)) == (db, Err(SyntaxError(Backend.InsertAsWrittenPrep("ingredients", d).sql)))
    ensures var d := DumpMeal(m, OnlyId, now);
            Run(db, Backend.InsertAsWrittenPrep("meals", d), Insert("meals", d)) == (db, Err(SyntaxError(Backend.InsertAsWrittenPrep("meals", d).sql)))
    ensures var d := DumpMealIngredient(mi, OnlyId);
            Run(db, Backend.InsertAsWrittenPrep("meal_ingredients", d), Insert("meal_ingredients", d)) == (db, Err(SyntaxError(Backend.InsertAsWrittenPrep("meal_ingredients", d).sql)))
  {
    Backend.InsertAsWrittenRefused(db, "ingredients", DumpIngredient(i, OnlyId));
    Backend.InsertAsWrittenRefused(db, "meals", DumpMeal(m, OnlyId, now));
    Backend.InsertAsWrittenRefused(db, "meal_ingredients", DumpMealIngredient(mi, OnlyId));
  }

  // ---------------------------------------------------------------------------
  // The storage object

  class MealStorage {
    const backend: Backend.Storage

    /** The connection string and the check that creates the database file
        when it is missing are not modelled. */
    constructor (backend: Backend.Storage)
      ensures this.backend == backend
    {
      this.backend := backend;
    }

    /** The inherited `insert(table, dic)`: the new rowid. */
    method Insert(table: string, dic: Dict) returns (r: Result<Option<int>, Error>)
      modifies backend.engine
      ensures (backend.engine.db, r) == MS.InsertRow(old(backend.engine.db), table, dic)
    {
      var res := backend.Insert(table, dic);
      if res.Err? {
        r := Err(res.error);
      } else {
        r := Ok(res.value.id);
      }
    }

    /** The inherited `select(table, columns, conds)` for a declared column
        list: the selected rows as dicts; the database does not change. */
    method SelectDicts(table: string, columns: seq<string>, conds: seq<Condition>) returns (r: Result<seq<Dict>, Error>)
      requires |columns| > 0
      modifies backend.engine
      ensures backend.engine.db == old(backend.engine.db)
      ensures r == MS.SelectRows(old(backend.engine.db), table, columns, conds)
    {
      var res := backend.Select(table, columns, conds);
      if res.Err? {
        r := Err(res.error);
      } else {
        r := Ok(res.value.rows);
      }
    }

    /** `add_ingredient(ingredient)`: the dump without `id` goes into
        `ingredients`; the record is not changed and the rowid is returned. */
    method AddIngredient(ingredient: Ingredient) returns (r: Result<Option<int>, Error>)
      modifies backend.engine
      ensures (backend.engine.db, r) == MS.InsertRow(old(backend.engine.db), "ingredients", DumpIngredient(ingredient.Data(), OnlyId))
    {
      r := Insert("ingredients", DumpIngredient(ingredient.Data(), OnlyId));
    }

    /** `delete_ingredient(*conds)` */
    method DeleteIngredient(conds: seq<Condition>) returns (err: Option<Error>)
      modifies backend.engine
      ensures backend.engine.db == Exec(old(backend.engine.db), Delete("ingredients", conds)).0
      ensures err == Backend.Raised(Exec(old(backend.engine.db), Delete("ingredients", conds)).1)
    {
      err := backend.Delete("ingredients", conds);
    }

    /** `get_ingredients(*conds)`: one new record per selected row. */
    method GetIngredients(conds: seq<Condition>) returns (r: Result<seq<Ingredient>, Error>)
      modifies backend.engine
      ensures backend.engine.db == old(backend.engine.db)
      ensures var got := MS.IngredientsOf(old(backend.engine.db), conds);
              && (r.Ok? <==> got.Ok?)
              && (r.Err? ==> r.error == got.error)
              && (r.Ok? ==>
                    && |r.value| == |got.value|
                    && (forall i :: 0 <= i < |r.value| ==> fresh(r.value[i]) && r.value[i].Data() == got.value[i])
                    && (forall i, j :: 0 <= i < j < |r.value| ==> r.value[i] != r.value[j]))
    {
      var res := SelectDicts("ingredients", IngredientColumns, conds);
      if res.Err? {
        r := Err(res.error);
      } else {
        var out := MS.MealStorage.LoadIngredients(res.value);
        r := Ok(out);
      }
    }

    /** `add_meal(meal)`: the dump without `id` goes into `meals`, nested
        list included; the record is not changed and the rowid is returned. */
    method AddMeal(meal: Meal, now: Stamp) returns (r: Result<Option<int>, Error>)
      modifies backend.engine
      ensures (backend.engine.db, r) == MS.InsertRow(old(backend.engine.db), "meals", DumpMeal(meal.Data(), OnlyId, now))
    {
      r := Insert("meals", DumpMeal(meal.Data(), OnlyId, now));
    }

    /** `delete_meal(*conds)` */
    method DeleteMeal(conds: seq<Condition>) returns (err: Option<Error>)
      modifies backend.engine
      ensures backend.engine.db == Exec(old(backend.engine.db), Delete("meals", conds)).0
      ensures err == Backend.Raised(Exec(old(backend.engine.db), Delete("meals", conds)).1)
    {
      err := backend.Delete("meals", conds);
    }

    /** `get_meals(*conds)`: one new meal per selected row, without the
        nested list. */
    method GetMeals(conds: seq<Condition>) returns (r: Result<seq<Meal>, Error>)
      modifies backend.engine
      ensures backend.engine.db == old(backend.engine.db)
      ensures var got := MS.MealsOf(old(backend.engine.db), conds);
              && (r.Ok? <==> got.Ok?)
              && (r.Err? ==> r.error == got.error)
              && (r.Ok? ==>
                    && |r.value| == |got.value|
                    && (forall i :: 0 <= i < |r.value| ==> fresh(r.value[i]) && MS.HeadOf(r.value[i]) == got.value[i] && r.value[i].mealIngredients.None?)
                    && (forall i, j :: 0 <= i < j < |r.value| ==> r.value[i] != r.value[j]))
    {
      var res := SelectDicts("meals", MealColumns, conds);
      if res.Err? {
        r := Err(res.error);
      } else {
        var out := MS.MealStorage.LoadMeals(res.value);
        r := Ok(out);
      }
    }

    /** `add_meal_ingredient(meal_ingredient)`: the dump without `id` goes
        into `meal_ingredients`; the record is not changed and the rowid is
        returned. */
    method AddMealIngredient(mi: MealIngredient) returns (r: Result<Option<int>, Error>)
      modifies backend.engine
      ensures (backend.engine.db, r) == MS.InsertRow(old(backend.engine.db), "meal_ingredients", DumpMealIngredient(mi.Data(), OnlyId))
    {
      r := Insert("meal_ingredients", DumpMealIngredient(mi.Data(), OnlyId));
    }

    /** `delete_meal_ingredient(*conds)` */
    method DeleteMealIngredient(conds: seq<Condition>) returns (err: Option<Error>)
      modifies backend.engine
      ensures backend.engine.db == Exec(old(backend.engine.db), Delete("meal_ingredients", conds)).0
      ensures err == Backend.Raised(Exec(old(backend.engine.db), Delete("meal_ingredients", conds)).1)
    {
      err := backend.Delete("meal_ingredients", conds);
    }

    /** `get_meal_ingredients(*conds)`: one new record per selected row. */
    method GetMealIngredients(conds: seq<Condition>) returns (r: Result<seq<MealIngredient>, Error>)
      modifies backend.engine
      ensures backend.engine.db == old(backend.engine.db)
      ensures var got := MS.MealIngredientsOf(old(backend.engine.db), conds);
              && (r.Ok? <==> got.Ok?)
              && (r.Err? ==> r.error == got.error)
              && (r.Ok? ==>
                    && |r.value| == |got.value|
                    && (forall i :: 0 <= i < |r.value| ==> fresh(r.value[i]) && r.value[i].Data() == got.value[i])
                    && (forall i, j :: 0 <= i < j < |r.value| ==> r.value[i] != r.value[j]))
    {
      var res := SelectDicts("meal_ingredients", MealIngredientColumns, conds);
      if res.Err? {
        r := Err(res.error);
      } else {
        var out := MS.MealStorage.LoadMealIngredients(res.value);
        r := Ok(out);
      }
    }
  }
}
