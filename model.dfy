/** The three records of model.py. A record object holds only the attributes
    it was constructed with (meta.py:26-28), so every field is an `Option`
    whose `None` means "no such attribute". `dump(ignore)` is read as the
    present declared fields in declared order minus the ignored ones; meta.py's
    own `dump` takes no argument and its schema is not ordered (the records'
    inner `Meta` never reaches it), so both the argument and the order are
    assumptions of the model. `load(dic)` reads the declared fields a dict
    carries and drops values of the wrong type. */
module Model {
  import opened Values
  import opened DateText
  import opened Utils

  const IngredientFields: seq<string> := ["id", "name", "calories", "sugar", "veg_protein", "protein", "carbo"]
  const MealIngredientFields: seq<string> := ["id", "meal_id", "ingredient_id", "quantity"]
  const MealFields: seq<string> := ["id", "name", "date", "meal_ingredients"]

  /** `columns()`: the declared fields a table stores. A Meal's nested
      `meal_ingredients` list has no column, so it is not one of them. */
  const IngredientColumns: seq<string> := IngredientFields
  const MealIngredientColumns: seq<string> := MealIngredientFields
  const MealColumns: seq<string> := ["id", "name", "date"]

  /** A date and time `datetime` accepts. */
  type Stamp = d: DateTime | Valid(d) witness DateTime(1, 1, 1, 0, 0)

  datatype IngredientData = IngredientData(
    id: Option<int>, name: Option<string>, calories: Option<real>, sugar: Option<real>,
    vegProtein: Option<real>, protein: Option<real>, carbo: Option<real>)

  datatype MealIngredientData = MealIngredientData(
    id: Option<int>, mealId: Option<int>, ingredientId: Option<int>, quantity: Option<real>)

  datatype MealData = MealData(
    id: Option<int>, name: Option<string>, date: Option<Stamp>,
    mealIngredients: Option<seq<MealIngredientData>>)

  // ---------------------------------------------------------------------------
  // Dumping

  function IntVal(o: Option<int>): Option<Value>
  {
    if o.Some? then Some(Int(o.value)) else None
  }

  function RealVal(o: Option<real>): Option<Value>
  {
    if o.Some? then Some(Real(o.value)) else None
  }

  function TextVal(o: Option<string>): Option<Value>
  {
    if o.Some? then Some(Text(o.value)) else None
  }

  /** The dump of one record: `(fields[i], vals[i])` for every present field
      that is not ignored, in declared order. */
  function Pick(fields: seq<string>, vals: seq<Option<Value>>, ignore: seq<string>): (d: Dict)
    requires |fields| == |vals|
    ensures |d| <= |fields|
  {
    if |fields| == 0 then []
    else
      (if vals[0].Some? && fields[0] !in ignore then [(fields[0], vals[0].value)] else [])
      + Pick(fields[1..], vals[1..], ignore)
  }

  function IngredientValues(a: IngredientData): (vs: seq<Option<Value>>)
    ensures |vs| == |IngredientFields|
  {
    [IntVal(a.id), TextVal(a.name), RealVal(a.calories), RealVal(a.sugar),
     RealVal(a.vegProtein), RealVal(a.protein), RealVal(a.carbo)]
  }

  function MealIngredientValues(a: MealIngredientData): (vs: seq<Option<Value>>)
    ensures |vs| == |MealIngredientFields|
  {
    [IntVal(a.id), IntVal(a.mealId), IntVal(a.ingredientId), RealVal(a.quantity)]
  }

  function DumpIngredient(a: IngredientData, ignore: seq<string>): Dict
  {
    Pick(IngredientFields, IngredientValues(a), ignore)
  }

  function DumpMealIngredient(a: MealIngredientData, ignore: seq<string>): Dict
  {
    Pick(MealIngredientFields, MealIngredientValues(a), ignore)
  }

  /** A Meal's values: the date as `%Y-%m-%d %H:%M` text, `now` standing in
      for the default of an absent date (model.py:33-35), and the nested list
      as the dumps of its meal ingredients. */
  function MealValues(a: MealData, now: Stamp): (vs: seq<Option<Value>>)
    ensures |vs| == |MealFields|
  {
    var date := if a.date.Some? then a.date.value else now;
    var nested := if a.mealIngredients.Some? then
        var kids := a.mealIngredients.value;
        Some(Nested(seq(|kids|, i requires 0 <= i < |kids| => DumpMealIngredient(kids[i], []))))
      else None;
    [IntVal(a.id), TextVal(a.name), Some(Text(Format(date))), nested]
  }

  function DumpMeal(a: MealData, ignore: seq<string>, now: Stamp): Dict
  {
    Pick(MealFields, MealValues(a, now), ignore)
  }

  // ---------------------------------------------------------------------------
  // Loading

  function IntField(d: Dict, k: string): Option<int>
  {
    match Lookup(d, k)
    case Some(Int(i)) => Some(i)
    case _ => None
  }

  /** A float field takes a float or an integer. */
  function RealField(d: Dict, k: string): Option<real>
  {
    match Lookup(d, k)
    case Some(Real(r)) => Some(r)
    case Some(Int(i)) => Some(i as real)
    case _ => None
  }

  function TextField(d: Dict, k: string): Option<string>
  {
    match Lookup(d, k)
    case Some(Text(s)) => Some(s)
    case _ => None
  }

  /** A date field takes text in the `%Y-%m-%d %H:%M` format. */
  function DateField(d: Dict, k: string): (r: Option<Stamp>)
  {
    var v := Lookup(d, k);
    if v.Some? && v.value.Text? && Parse(v.value.s).Some? then
      var st: Stamp := Parse(v.value.s).value;
      Some(st)
    else None
  }

  function LoadIngredient(d: Dict): IngredientData
  {
    IngredientData(IntField(d, "id"), TextField(d, "name"), RealField(d, "calories"), RealField(d, "sugar"),
      RealField(d, "veg_protein"), RealField(d, "protein"), RealField(d, "carbo"))
  }

  function LoadMealIngredient(d: Dict): MealIngredientData
  {
    MealIngredientData(IntField(d, "id"), IntField(d, "meal_id"), IntField(d, "ingredient_id"), RealField(d, "quantity"))
  }

  function LoadMeal(d: Dict): MealData
  {
    MealData(IntField(d, "id"), TextField(d, "name"), DateField(d, "date"), None)
  }

  // ---------------------------------------------------------------------------
  // Properties

  /** The value a field keeps through a dump that may ignore it. */
  function Keep<T>(field: string, ignore: seq<string>, v: Option<T>): Option<T>
  {
    if field in ignore then None else v
  }

  /** A dump has distinct keys, all declared, in declared order. */
  lemma {:induction false} PickKeys(fields: seq<string>, vals: seq<Option<Value>>, ignore: seq<string>)
    requires |fields| == |vals| && Distinct(fields)
    ensures Subsequence(Keys(Pick(fields, vals, ignore)), fields)
    ensures forall k :: k in Keys(Pick(fields, vals, ignore)) ==> k in fields
    ensures DistinctKeys(Pick(fields, vals, ignore))
    decreases |fields|
  {
    if |fields| > 0 {
      var rest := Pick(fields[1..], vals[1..], ignore);
      DistinctTail(fields);
      PickKeys(fields[1..], vals[1..], ignore);
      if vals[0].Some? && fields[0] !in ignore {
        var d := [(fields[0], vals[0].value)] + rest;
        assert Keys(d) == [fields[0]] + Keys(rest);
        assert Keys(d)[0] == fields[0] && Keys(d)[1..] == Keys(rest);
        assert fields[0] !in Keys(rest);
        DistinctKeysCons((fields[0], vals[0].value), rest);
      } else {
        assert Pick(fields, vals, ignore) == rest;
      }
    }
  }

  /** A dump holds exactly the value of each present field that is not
      ignored. */
  lemma {:induction false} PickLookup(fields: seq<string>, vals: seq<Option<Value>>, ignore: seq<string>, i: nat)
    requires |fields| == |vals| && i < |fields| && Distinct(fields)
    ensures Lookup(Pick(fields, vals, ignore), fields[i]) == if fields[i] in ignore then None else vals[i]
    decreases i
  {
    var rest := Pick(fields[1..], vals[1..], ignore);
    var head := if vals[0].Some? && fields[0] !in ignore then [(fields[0], vals[0].value)] else [];
    assert Pick(fields, vals, ignore) == head + rest;
    DistinctTail(fields);
    if i > 0 {
      PickLookup(fields[1..], vals[1..], ignore, i - 1);
      assert fields[1..][i - 1] == fields[i] && vals[1..][i - 1] == vals[i];
      LookupAfter(head, rest, fields[i]);
    } else if head == [] {
      PickKeys(fields[1..], vals[1..], ignore);
      assert head + rest == rest;
    } else {
      LookupAfter(head, rest, fields[0]);
    }
  }

  /** Looking a key up past a prefix that does not hold it. */
  lemma LookupAfter(head: Dict, rest: Dict, k: string)
    requires |head| <= 1
    ensures k !in Keys(head) ==> Lookup(head + rest, k) == Lookup(rest, k)
    ensures |head| == 1 && head[0].0 == k ==> Lookup(head + rest, k) == Some(head[0].1)
  {
    if |head| == 1 {
      assert (head + rest)[0] == head[0] && (head + rest)[1..] == rest;
    } else {
      assert head + rest == rest;
    }
  }

  lemma IntKept(d: Dict, k: string, ignore: seq<string>, o: Option<int>)
    requires Lookup(d, k) == (if k in ignore then None else IntVal(o))
    ensures IntField(d, k) == Keep(k, ignore, o)
  {
  }

  lemma RealKept(d: Dict, k: string, ignore: seq<string>, o: Option<real>)
    requires Lookup(d, k) == (if k in ignore then None else RealVal(o))
    ensures RealField(d, k) == Keep(k, ignore, o)
  {
  }

  lemma TextKept(d: Dict, k: string, ignore: seq<string>, o: Option<string>)
    requires Lookup(d, k) == (if k in ignore then None else TextVal(o))
    ensures TextField(d, k) == Keep(k, ignore, o)
  {
  }

  /** A dump of every field lists all the declared fields, in order. */
  lemma {:induction false} PickAll(fields: seq<string>, vals: seq<Option<Value>>)
    requires |fields| == |vals|
    requires forall i :: 0 <= i < |vals| ==> vals[i].Some?
    ensures Keys(Pick(fields, vals, [])) == fields
    decreases |fields|
  {
    if |fields| > 0 {
      assert forall i :: 0 <= i < |vals[1..]| ==> vals[1..][i] == vals[i + 1];
      PickAll(fields[1..], vals[1..]);
      assert fields == [fields[0]] + fields[1..];
    }
  }

  /** Under the assumed declared order, a record whose fields are all present
      dumps them in declaration order. */
  lemma DumpOrdered(a: IngredientData, b: MealIngredientData, m: MealData, now: Stamp)
    requires a.id.Some? && a.name.Some? && a.calories.Some? && a.sugar.Some?
    requires a.vegProtein.Some? && a.protein.Some? && a.carbo.Some?
    requires b.id.Some? && b.mealId.Some? && b.ingredientId.Some? && b.quantity.Some?
    requires m.id.Some? && m.name.Some? && m.mealIngredients.Some?
    ensures Keys(DumpIngredient(a, [])) == IngredientFields
    ensures Keys(DumpMealIngredient(b, [])) == MealIngredientFields
    ensures Keys(DumpMeal(m, [], now)) == MealFields
  {
    PickAll(IngredientFields, IngredientValues(a));
    PickAll(MealIngredientFields, MealIngredientValues(b));
    PickAll(MealFields, MealValues(m, now));
  }

  /** A dump is empty exactly when every field is absent or ignored. */
  lemma {:induction false} PickEmpty(fields: seq<string>, vals: seq<Option<Value>>, ignore: seq<string>)
    requires |fields| == |vals|
    ensures Pick(fields, vals, ignore) == [] <==> forall i :: 0 <= i < |fields| ==> vals[i].None? || fields[i] in ignore
    decreases |fields|
  {
    if |fields| > 0 {
      PickEmpty(fields[1..], vals[1..], ignore);
      assert forall i :: 0 < i < |fields| ==> fields[i] == fields[1..][i - 1] && vals[i] == vals[1..][i - 1];
    }
  }

  /** A dump that ignores its first field and none of the others is empty
      exactly when every later field is absent. */
  lemma PickEmptyAfterFirst(fields: seq<string>, vals: seq<Option<Value>>, ignore: seq<string>)
    requires |fields| == |vals| > 0 && fields[0] in ignore
    requires forall k :: k in fields[1..] ==> k !in ignore
    ensures Pick(fields, vals, ignore) == [] <==> forall v :: v in vals[1..] ==> v.None?
  {
    PickEmpty(fields, vals, ignore);
    assert forall i :: 1 <= i < |fields| ==> fields[i] == fields[1..][i - 1] && vals[i] == vals[1..][i - 1];
  }

  /** `e` is the entry of a present field that is not ignored. */
  ghost predicate EntryOf(fields: seq<string>, vals: seq<Option<Value>>, ignore: seq<string>, e: (string, Value))
    requires |fields| == |vals|
  {
    exists j :: 0 <= j < |fields| && fields[j] !in ignore && e.0 == fields[j] && vals[j] == Some(e.1)
  }

  /** Every entry of a dump is a present field that is not ignored. */
  lemma {:induction false} PickValues(fields: seq<string>, vals: seq<Option<Value>>, ignore: seq<string>)
    requires |fields| == |vals|
    ensures forall i :: 0 <= i < |Pick(fields, vals, ignore)| ==> EntryOf(fields, vals, ignore, Pick(fields, vals, ignore)[i])
    decreases |fields|
  {
    if |fields| > 0 {
      PickValues(fields[1..], vals[1..], ignore);
      var rest := Pick(fields[1..], vals[1..], ignore);
      var head := if vals[0].Some? && fields[0] !in ignore then [(fields[0], vals[0].value)] else [];
      var d := Pick(fields, vals, ignore);
      assert d == head + rest;
      forall i | 0 <= i < |d|
        ensures EntryOf(fields, vals, ignore, d[i])
      {
        if i < |head| {
          assert d[i] == (fields[0], vals[0].value);
          assert fields[0] !in ignore && d[i].0 == fields[0] && vals[0] == Some(d[i].1);
        } else {
          var m := i - |head|;
          assert d[i] == rest[m];
          assert EntryOf(fields[1..], vals[1..], ignore, rest[m]);
          var j :| 0 <= j < |fields[1..]| && fields[1..][j] !in ignore && rest[m].0 == fields[1..][j] && vals[1..][j] == Some(rest[m].1);
          assert fields[j + 1] == fields[1..][j] && vals[j + 1] == vals[1..][j];
          assert fields[j + 1] !in ignore && d[i].0 == fields[j + 1] && vals[j + 1] == Some(d[i].1);
        }
      }
    }
  }

  /** Loading a dump gives the record back, less the ignored fields. */
  lemma LoadDumpIngredient(a: IngredientData, ignore: seq<string>)
    ensures LoadIngredient(DumpIngredient(a, ignore)) == IngredientData(
      Keep("id", ignore, a.id), Keep("name", ignore, a.name), Keep("calories", ignore, a.calories),
      Keep("sugar", ignore, a.sugar), Keep("veg_protein", ignore, a.vegProtein),
      Keep("protein", ignore, a.protein), Keep("carbo", ignore, a.carbo))
  {
    var fs, vs := IngredientFields, IngredientValues(a);
    var d := DumpIngredient(a, ignore);
    PickLookup(fs, vs, ignore, 0);
    IntKept(d, "id", ignore, a.id);
    PickLookup(fs, vs, ignore, 1);
    TextKept(d, "name", ignore, a.name);
    PickLookup(fs, vs, ignore, 2);
    RealKept(d, "calories", ignore, a.calories);
    PickLookup(fs, vs, ignore, 3);
    RealKept(d, "sugar", ignore, a.sugar);
    PickLookup(fs, vs, ignore, 4);
    RealKept(d, "veg_protein", ignore, a.vegProtein);
    PickLookup(fs, vs, ignore, 5);
    RealKept(d, "protein", ignore, a.protein);
    PickLookup(fs, vs, ignore, 6);
    RealKept(d, "carbo", ignore, a.carbo);
  }

  lemma LoadDumpMealIngredient(a: MealIngredientData, ignore: seq<string>)
    ensures LoadMealIngredient(DumpMealIngredient(a, ignore)) == MealIngredientData(
      Keep("id", ignore, a.id), Keep("meal_id", ignore, a.mealId),
      Keep("ingredient_id", ignore, a.ingredientId), Keep("quantity", ignore, a.quantity))
  {
    var fs, vs := MealIngredientFields, MealIngredientValues(a);
    var d := DumpMealIngredient(a, ignore);
    PickLookup(fs, vs, ignore, 0);
    IntKept(d, "id", ignore, a.id);
    PickLookup(fs, vs, ignore, 1);
    IntKept(d, "meal_id", ignore, a.mealId);
    PickLookup(fs, vs, ignore, 2);
    IntKept(d, "ingredient_id", ignore, a.ingredientId);
    PickLookup(fs, vs, ignore, 3);
    RealKept(d, "quantity", ignore, a.quantity);
  }

  /** Loading a Meal's dump gives back its id and name and its date (or the
      default standing in for an absent one), for four-digit years; the nested
      list is not read back. */
  lemma LoadDumpMeal(a: MealData, ignore: seq<string>, now: Stamp)
    requires a.date.Some? ==> a.date.value.year >= 1000
    requires a.date.None? ==> now.year >= 1000
    ensures LoadMeal(DumpMeal(a, ignore, now)) == MealData(
      Keep("id", ignore, a.id), Keep("name", ignore, a.name),
      Keep("date", ignore, Some(if a.date.Some? then a.date.value else now)), None)
  {
    var fs, vs := MealFields, MealValues(a, now);
    var d := DumpMeal(a, ignore, now);
    var date := if a.date.Some? then a.date.value else now;
    PickLookup(fs, vs, ignore, 0);
    IntKept(d, "id", ignore, a.id);
    PickLookup(fs, vs, ignore, 1);
    TextKept(d, "name", ignore, a.name);
    PickLookup(fs, vs, ignore, 2);
    ParseFormat(date);
    assert Lookup(d, "date") == if "date" in ignore then None else Some(Text(Format(date)));
  }

  /** A dump depends only on the values of the fields it does not ignore. */
  lemma {:induction false} PickIgnores(fields: seq<string>, vs: seq<Option<Value>>, ws: seq<Option<Value>>, ignore: seq<string>)
    requires |fields| == |vs| == |ws|
    requires forall i :: 0 <= i < |fields| && fields[i] !in ignore ==> vs[i] == ws[i]
    ensures Pick(fields, vs, ignore) == Pick(fields, ws, ignore)
    decreases |fields|
  {
    if |fields| > 0 {
      assert forall i :: 0 <= i < |fields| - 1 ==> fields[1..][i] == fields[i + 1] && vs[1..][i] == vs[i + 1] && ws[1..][i] == ws[i + 1];
      PickIgnores(fields[1..], vs[1..], ws[1..], ignore);
    }
  }

  /** A Meal's columns are its declared fields without the nested list. */
  lemma MealColumnsDeclared()
    ensures MealColumns == MealFields[..3] && MealFields[3] == "meal_ingredients"
    ensures "meal_ingredients" !in MealColumns
  {
  }

  // ---------------------------------------------------------------------------
  // Record objects

  class Ingredient {
    var id: Option<int>
    var name: Option<string>
    var calories: Option<real>
    var sugar: Option<real>
    var vegProtein: Option<real>
    var protein: Option<real>
    var carbo: Option<real>

    /** `Ingredient(**data)`: the record with exactly the given attributes. */
    constructor (a: IngredientData)
      ensures Data() == a
    {
      id, name, calories, sugar := a.id, a.name, a.calories, a.sugar;
      vegProtein, protein, carbo := a.vegProtein, a.protein, a.carbo;
    }

    function Data(): IngredientData
      reads this
    {
      IngredientData(id, name, calories, sugar, vegProtein, protein, carbo)
    }
  }

  class MealIngredient {
    var id: Option<int>
    var mealId: Option<int>
    var ingredientId: Option<int>
    var quantity: Option<real>
    /** The undeclared `ingredient` attribute: absent, None, or an ingredient
        record. */
    var ingredient: Option<Option<Ingredient>>

    constructor (a: MealIngredientData, ingredient: Option<Option<Ingredient>>)
      ensures Data() == a && this.ingredient == ingredient
    {
      id, mealId, ingredientId, quantity := a.id, a.mealId, a.ingredientId, a.quantity;
      this.ingredient := ingredient;
    }

    function Data(): MealIngredientData
      reads this
    {
      MealIngredientData(id, mealId, ingredientId, quantity)
    }
  }

  class Meal {
    var id: Option<int>
    var name: Option<string>
    var date: Option<Stamp>
    var mealIngredients: Option<seq<MealIngredient>>

    constructor (id: Option<int>, name: Option<string>, date: Option<Stamp>, mealIngredients: Option<seq<MealIngredient>>)
      ensures this.id == id && this.name == name && this.date == date && this.mealIngredients == mealIngredients
    {
      this.id, this.name, this.date, this.mealIngredients := id, name, date, mealIngredients;
    }

    /** The nested meal ingredients, none when the attribute is absent. */
    function Kids(): seq<MealIngredient>
      reads this
    {
      if mealIngredients.Some? then mealIngredients.value else []
    }

    function Data(): MealData
      reads this, set k | k in Kids()
    {
      var kids := Kids();
      MealData(id, name, date,
        if mealIngredients.Some? then Some(seq(|kids|, i reads kids requires 0 <= i < |kids| => kids[i].Data())) else None)
    }
  }
}
