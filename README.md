# Meal tracker storage, modelled in Dafny

The data-access layer of a small nutrition tracker. Ingredients, meals and the
meal ingredients that link them are kept in three sqlite tables. The layer has
these parts:

- `conditions.py`: `(op, lval, rval)` condition triples.
- `sql_storage.py`: builds parameterised SELECT, INSERT, DELETE and UPDATE
  statements and relays them to an engine.
- `meal_storage.py`: the repository façade. Records get ids as they are added,
  and `add_meal` cascades into its children and their unsaved ingredients.
- `model.py`: the three record types and their date format.
- `utils.py`: the `extract`/`first` helpers.
- Two older versions of the same layer: `backend.py` with `storage.py` on top,
  and the statement helpers of `main.py`.

## Modules

| Module | File(s) modelled | What it holds |
|---|---|---|
| `Values` | shared | `Option`, `Result`, the SQL `Value`s, the errors the stack raises, and ordered dicts (a Python dict keeps insertion order). |
| `Conditions` | conditions.py | The condition datatype and its constructors. |
| `Statements` | sql_storage.py | The pure part: `_keysvalues`, the four `_prep_*` builders, and the `get_result` functions. |
| `Engine` | sqlite3_engine.py | An abstract in-memory database with `execute` and `execute_ddl`. |
| `SqlStorage` | sql_storage.py | Class `SQLStorage`, whose four operations delegate to the engine. |
| `DateText` | model.py | The `%Y-%m-%d %H:%M` date text, as a formatter and parser on date-time tuples. |
| `Model` | model.py | The three records as datatypes, plus mutable record classes. `dump(ignore)` is modelled as the present declared fields, in declared order, minus the ignored ones; that signature and order are assumptions (see below). `load(dic)` reads the declared fields back. |
| `Utils` | utils.py | `extract`, `first`, and `extracted.first` / `refine`. |
| `MealStorage` | meal_storage.py | Class `MealStorage` over `SQLStorage`, and the functions that specify it. |
| `Backend` | backend.py | Class `Storage`: the older statement code, with `_execute` abstracted to the engine. |
| `Storage` | storage.py | Class `MealStorage` over `Backend.Storage`. |
| `MainSchemas` | main.py | Table names, `prepare_stmt`, `select_sql`, `insert_sql`, the record templates, and `add_object`. |

## Modelling decisions

**The engine.** It stands in for sqlite, and its SQL semantics are an
assumption of the model:

- It is handed the structured statement alongside the text and bind tuple.
- It accepts the text only when it is exactly the builder's rendering of that
  statement; otherwise it raises a syntax error. This is how backend.py's
  mangled insert text and its empty select list are refused.
- Values are bound positionally. A table has an INTEGER PRIMARY KEY `id`,
  followed by columns with NOT NULL and DEFAULT.
- An insert of unknown columns, or with a NULL in a NOT NULL column, is refused
  and changes nothing.
- A new row's rowid is one more than the largest in use, and never less than 1.
  So on a table whose rowids are all 0 or below, the model gives 1 where sqlite
  gives the largest plus one.
- Conditions `=`, `!=`, `<`, `>` and `like` are evaluated on rows.

**Records.**

- A record object holds only the attributes it was built with (meta.py:26-28).
  So every field is an `Option`, and `None` means "no such attribute".
- "Has an id" (meal_storage.py:77, meal_storage.py:121) is `id.Some?`.
- A meal's `meal_ingredients` and a meal ingredient's `ingredient` are
  attributes too. They may be absent.

**Missing attributes.** meal_storage.py reads `meal.meal_ingredients` and
`meal_ingredient.ingredient` unguarded, so a record built without them raises
AttributeError. The model's `Access` parameter says how such a read behaves:

- `AsWritten`: the read raises AttributeError, as meal_storage.py does.
- `Lenient`: an absent list is read as empty and an absent link as `None`.

**Dates and queries.**

- A meal's default date (`datetime.now()` in model.py:35) is a parameter `now`.
- `columns()` is not defined by meta.py. It is modelled as the declared fields
  that have a column. For a Meal that is `id, name, date`; the nested
  `meal_ingredients` list is not a column.
- `dump(ignore=...)` is an assumption too. meta.py:50-52 defines `dump(self)`
  with no parameter, so each `dump(ignore=...)` call in meal_storage.py and
  storage.py would raise TypeError before anything is inserted. The model
  reads the call as the dump of the present declared fields minus the
  ignored ones. It also assumes declared field order: meta.py:32 builds the
  schema from the field attributes alone, so the records' inner `class Meta`
  with `ordered = True` never reaches marshmallow. Only the order of a
  dump's keys, and so of the insert's columns, rests on this; each name stays
  paired with its value.

**Errors.**

- Python exceptions are `Err` results.
- A method stops at the first exception, and everything already written stays
  written.

## Model

| member | source | states |
|---|---|---|
| Conditions.Cond | conditions.py:5-7 | The condition's `op`, `lval` and `rval` are its three arguments, in order |
| Conditions.Eq | conditions.py:9-10 | `eq` builds the condition with operator `=` and the given `lval`/`rval` |
| Conditions.Lt | conditions.py:12-13 | `lt` fixes operator `<` |
| Conditions.Gt | conditions.py:15-16 | `gt` fixes operator `>` |
| Conditions.Neq | conditions.py:18-19 | `neq` fixes operator `!=` |
| Conditions.Like | conditions.py:21-22 | `like` fixes operator `like` |
| Conditions.Where | conditions.py:24-25 | `where` returns its arguments with the same length and order |
| Conditions.HelpersDistinct | conditions.py:9-22 | The five helper operators are pairwise distinct, so conditions built by different helpers are never equal |
| Statements.KeysValues | sql_storage.py:12-15 | The keys and values have the dict's length; position i holds the i-th entry's key and value |
| Statements.KeysValuesZip | sql_storage.py:12-15 | Zipping the keys with the values gives back the dict |
| Statements.SelectStarExample | sql_storage.py:34-38 | With no columns the select reads `SELECT * FROM mytable WHERE 1 = 1`, binds empty (tests/test_sql_storage.py:32-34) |
| Statements.SelectExample | sql_storage.py:34-47 | The select text and binds pinned by tests/test_sql_storage.py:28-30 |
| Statements.UpdateExample | sql_storage.py:79-90 | `{'uno':1,'due':2,'tre':3}` with `eq('id',1)`, `like('name','%test%')` gives the pinned text and binds `(1,2,3,1,'%test%')` (tests/test_sql_storage.py:19-22) |
| Statements.SelectDeleteShape | sql_storage.py:34-47 | Select and delete text is the base line plus one newline-prefixed condition line per condition; their binds are the `rval`s in condition order. Mirrors sql_storage.py:65-72 |
| Statements.SelectPlaceholders | sql_storage.py:38-41 | The number of `?` in the select text equals the bind length |
| Statements.DeletePlaceholders | sql_storage.py:66-70 | The number of `?` in the delete text equals the bind length |
| Statements.InsertShape | sql_storage.py:54-58 | The insert text names the dict's keys in order; the binds are its values in the same order |
| Statements.InsertPlaceholders | sql_storage.py:54-58 | The insert text holds as many `?` as there are binds, which is the number of columns |
| Statements.UpdateShape | sql_storage.py:79-90 | The update binds are all SET values in dict order, then all condition `rval`s |
| Statements.UpdatePlaceholders | sql_storage.py:79-90 | The number of `?` in the update text equals the bind length |
| Statements.TextIgnoresValues | sql_storage.py:40 | Condition values and dict values never enter the text: statements over the same table, columns, `lval`s, `op`s and keys have the same text. Also covers sql_storage.py:69 and sql_storage.py:86 |
| Statements.ZipRowExact | sql_storage.py:43-45 | Each row dict maps the i-th column name to the i-th value |
| Engine.MemoryEngine.Execute | sqlite3_engine.py:11-21 | `execute(sql, bind, func)` runs the statement; the new database and the result are those the engine's semantics give; the prepared statement is recorded |
| Engine.MemoryEngine.ExecuteDdl | sqlite3_engine.py:24-29 | The DDL statements run in turn; the first failure is raised; no statement is recorded |
| Engine.MatchingSpec | sqlite3_engine.py:18 | A row is selected exactly when every condition holds on it; selected and unselected rows partition the table |
| Engine.EqKey | sqlite3_engine.py:18 | `eq('id', k)` holds on a row exactly when its rowid is k, and `neq('id', k)` exactly when it is not |
| Engine.ExecFailKeeps | sqlite3_engine.py:18-19 | A statement that fails changes nothing |
| Engine.RunPrepared | sqlite3_engine.py:11-21 | The builder's own text and binds, run, give the statement's effect and `get_result` applied to its cursor |
| SqlStorage.SQLStorage.constructor | sql_storage.py:26-27 | The storage keeps the engine it is given |
| SqlStorage.SQLStorage.ExecuteDdl | sql_storage.py:30-31 | `execute_ddl` is the engine's |
| SqlStorage.SQLStorage.Select | sql_storage.py:50-51 | Exactly `_prep_select`'s statement goes to `engine.execute`, and its result comes back unchanged; nothing changes |
| SqlStorage.SQLStorage.Insert | sql_storage.py:61-62 | Exactly `_prep_insert`'s statement goes to the engine; the result is the new row's rowid |
| SqlStorage.SQLStorage.Delete | sql_storage.py:75-76 | Exactly `_prep_delete`'s statement goes to the engine, and its result is returned |
| SqlStorage.SQLStorage.Update | sql_storage.py:93-94 | Exactly `_prep_update`'s statement goes to the engine, and its result is returned |
| DateText.Parse | model.py:33-34 | A parsed date is a valid date and time |
| DateText.ParseFormat | model.py:33-34 | Formatting a date with a four-digit year and parsing the text gives the date back |
| DateText.FormatShortYear | model.py:33-34 | A year below 1000 is written unpadded, and the text does not parse back |
| DateText.MarshallingExample | model.py:33-34 | `datetime(2010,11,22,22,59)` and `'2010-11-22 22:59'` correspond both ways (tests/test_marshalling.py:123-136) |
| DateText.MalformedExample | model.py:33-34 | `'2010-10-2023:59'` is rejected (tests/test_marshalling.py:46-47) |
| Model.DumpOrdered | model.py:7-40 | Under the assumed declared order, with nothing ignored, a full record dumps its declared fields in declaration order: `id, name, calories, sugar, veg_protein, protein, carbo`; `id, meal_id, ingredient_id, quantity`; `id, name, date, meal_ingredients` |
| Model.PickKeys | model.py:16-17 | A dump's keys are a subsequence of the declared fields, without repeats |
| Model.PickLookup | model.py:16-17 | A dump holds each declared field's value unless that field is ignored or absent |
| Model.PickEmpty | model.py:16-17 | A dump is empty exactly when every field is absent or ignored |
| Model.PickValues | model.py:16-17 | Every entry of a dump is a present, non-ignored field with its value |
| Model.LoadDumpIngredient | model.py:7-14 | Loading an Ingredient's dump gives back the record; ignored fields become absent |
| Model.LoadDumpMealIngredient | model.py:20-24 | Loading a MealIngredient's dump gives back the record minus its ignored fields |
| Model.LoadDumpMeal | model.py:30-37 | Loading a Meal's dump gives back its id and name and its date (the default when it had none); the nested list is not read back |
| Model.MealColumnsDeclared | model.py:30-37 | The stored columns of a Meal are its first three declared fields; the fourth, `meal_ingredients`, is not one |
| Model.Ingredient.constructor | model.py:7-14 | A new ingredient record holds exactly the given fields |
| Model.MealIngredient.constructor | model.py:20-24 | A new meal ingredient holds the given fields and `ingredient` attribute |
| Model.Meal.constructor | model.py:30-37 | A new meal holds the given id, name, date and children |
| Utils.Extract | utils.py:23-24 | Every element `extract` keeps satisfies the predicate, and there are no more than in the input |
| Utils.ExtractMembers | utils.py:23-24 | An element is kept exactly when it is in the input and satisfies the predicate |
| Utils.ExtractSubsequence | utils.py:23-24 | The kept elements are in input order: a subsequence of the input |
| Utils.ExtractAppend | utils.py:23-24 | Extracting from a concatenation is concatenating the extracts |
| Utils.ExtractAllOrNone | utils.py:23-24 | All satisfying keeps all; none satisfying keeps nothing |
| Utils.Head | utils.py:12-16 | `extracted.first` is None exactly on an empty tuple, else element 0 |
| Utils.Refine | utils.py:19-20 | `refine(f)` maps `f` over every element, keeping length and order |
| Utils.RefineHead | utils.py:12-20 | The first element of a refined tuple is `f` of the first element |
| Utils.FirstSpec | utils.py:27-28 | `first` is None exactly when no element satisfies the predicate (so also on empty input); otherwise it is the earliest element that does |
| Utils.FirstIsExtractHead | utils.py:27-28 | `first(xs, p)` is element 0 of `extract(xs, p)` when that is non-empty, else None |
| Utils.FirstPresent | utils.py:23-28 | With the default predicate, `first` skips `None`s and returns the earliest present element |
| MealStorage.InitCreates | meal_storage.py:37-67 | `init` succeeds exactly when none of the three tables exists, and then creates them empty with the declared columns; if `ingredients` exists it fails at once with nothing created |
| MealStorage.ClearEmpties | meal_storage.py:15-19 | `clear` succeeds exactly when the three tables exist, and then empties them and keeps every other table |
| MealStorage.DeleteDrops | meal_storage.py:22-34 | `delete` removes whichever of the three tables exist, swallowing each failed DROP, and keeps the rest |
| MealStorage.DeleteThenInit | meal_storage.py:22-67 | `delete` then `init` always succeeds and gives the three empty tables |
| MealStorage.IngredientDumpEmpty | meal_storage.py:70-71 | An Ingredient's dump without `id` is empty exactly when it has no field besides `id` |
| MealStorage.IngredientDefaults | meal_storage.py:40-49 | Every NOT NULL column of `ingredients` defaults to 0; `name` has no default |
| MealStorage.EmptyInsertFails | meal_storage.py:70-71 | An insert of an empty dump is a syntax error and stores nothing |
| MealStorage.IngredientInsertOk | meal_storage.py:70-71 | An Ingredient with some field besides `id` can always be added |
| MealStorage.AddThenGetIngredient | meal_storage.py:70-90 | `add_ingredient` succeeds exactly when the record has a field besides `id`; `get_ingredients(eq('id', id))` with the new rowid then gives the record with that id and 0 for each absent figure |
| MealStorage.MealInsertOk | meal_storage.py:93-95 | A meal's own row can always be added: its dump always carries the date |
| MealStorage.AddThenGetMeal | meal_storage.py:93-114 | After the meal's insert, `get_meals(eq('id', id))` gives its id, name and date, without children |
| MealStorage.MealIngredientInsertOk | meal_storage.py:125-126 | A meal ingredient that names its meal, its ingredient and its quantity can be added |
| MealStorage.MealIngredientIncomplete | meal_storage.py:59-66 | A meal ingredient missing any of the three NOT NULL columns is refused and changes nothing |
| MealStorage.AddThenGetMealIngredient | meal_storage.py:125-137 | The insert succeeds exactly for a complete record; it then reads back as written, with the new id |
| MealStorage.InsertedRow | meal_storage.py:70-71 | A successful insert reports the new rowid, and selecting by `eq('id', rowid)` gives exactly the stored row |
| MealStorage.AddOneSpec | meal_storage.py:70-73 | `add_ingredient` adds one `ingredients` row exactly when it succeeds; the record then has its new id and nothing else changes; on failure nothing changes |
| MealStorage.AddEachSpec | meal_storage.py:76-77 | `add_ingredients` adds exactly the listed records without an id, in order and without repeats, one row each; they all get ids; the others keep their data; it fails exactly when one of them has nothing to store (tests/test_meal_storage.py:131-136) |
| MealStorage.LinkStepSpec | meal_storage.py:118-123 | A linked ingredient without an id is added first; its id goes into `ingredient_id`; a saved one adds no row; only `ingredient_id` of the meal ingredient changes |
| MealStorage.AddMealIngredientSpec | meal_storage.py:117-128 | `add_meal_ingredient` succeeds exactly when the record is admissible. It then adds one `meal_ingredients` row, written without `id` and `ingredient`, and the record has its new id. An unsaved linked ingredient is saved first, a saved one adds no row, and the row reads back as the record (tests/test_meal_storage.py:169-198) |
| MealStorage.InsertKidSpec | meal_storage.py:125-126 | The meal ingredient's insert succeeds exactly for a complete record, adds one row and reads back by its id |
| MealStorage.AddKidsSpec | meal_storage.py:97-99 | Each child in list order gets the meal's id and is added; on success, with N children, N rows are added, every child has an id and the meal's id, and every linked ingredient has an id |
| MealStorage.AddMealSpec | meal_storage.py:93-101 | `add_meal` always adds exactly one meal row and gives the meal its rowid, which reads back; then the children follow as AddKidsSpec says; an absent `meal_ingredients` raises AttributeError as written |
| MealStorage.NestedMealCounts | meal_storage.py:93-101 | A meal with N linked children adds 1 meal row, N meal ingredient rows, and one ingredient row per unsaved ingredient (tests/test_meal_storage.py:139-166) |
| MealStorage.MealWithoutChildrenAsWritten | meal_storage.py:97 | As written, a meal built without `meal_ingredients` has its row stored, then raises AttributeError |
| MealStorage.MealWithoutChildrenLenient | meal_storage.py:93-101 | Reading an absent list as empty, such a meal is added with no children and reads back |
| MealStorage.UnlinkedMealIngredientAsWritten | meal_storage.py:118 | As written, a meal ingredient built without `ingredient` raises AttributeError before anything is stored |
| MealStorage.UnlinkedMealIngredientLenient | meal_storage.py:117-128 | Reading an absent link as None, the record is stored exactly when complete, and reads back |
| MealStorage.DeletedNone | meal_storage.py:80-86 | After a successful delete, selecting with the same conditions gives nothing |
| MealStorage.DeleteThenGetIngredients | meal_storage.py:80-86 | `delete_ingredient(*conds)` then `get_ingredients(*conds)` gives nothing |
| MealStorage.DeleteThenGetMeals | meal_storage.py:104-110 | `delete_meal(*conds)` then `get_meals(*conds)` gives nothing |
| MealStorage.DeleteThenGetMealIngredients | meal_storage.py:131-137 | `delete_meal_ingredient(*conds)` then `get_meal_ingredients(*conds)` gives nothing |
| MealStorage.InsertedAloneNeq | meal_storage.py:84-86 | On an empty table, `neq('id', id)` after the insert selects nothing |
| MealStorage.IngredientLifecycle | meal_storage.py:70-90 | Add, then get by `eq('id')`, gives the stored fields; `neq('id')` gives nothing; delete by `eq('id')` succeeds; get by `eq('id')` then gives nothing (tests/test_meal_storage.py:31-55) |
| MealStorage.MealLifecycle | meal_storage.py:93-114 | The same round for a meal |
| MealStorage.MealIngredientLifecycle | meal_storage.py:117-137 | The same round for a complete meal ingredient |
| MealStorage.MealStorage.constructor | meal_storage.py:11-12 | The storage wraps an `SQLStorage` over the given engine |
| MealStorage.MealStorage.Clear | meal_storage.py:15-19 | The three DELETE statements, applied in order |
| MealStorage.MealStorage.Delete | meal_storage.py:22-34 | Each DROP runs on its own; failures are swallowed |
| MealStorage.MealStorage.Init | meal_storage.py:37-67 | The three CREATE TABLE statements, applied in order |
| MealStorage.MealStorage.AddIngredient | meal_storage.py:70-73 | The new database is AddOne's; on success the same record is returned, now holding the new id; on failure it is unchanged |
| MealStorage.MealStorage.AddIngredients | meal_storage.py:76-77 | The new database, the records' new data and the returned list (the records that were added) are AddEach's |
| MealStorage.MealStorage.AddMealIngredient | meal_storage.py:117-128 | The new database, ingredient records, record data and result are AddMealIngredientStep's; the `ingredient` link is untouched |
| MealStorage.MealStorage.AddMeal | meal_storage.py:93-101 | The new database, meal id, ingredient records and children are AddMealStep's; the meal's other fields and the links are untouched |
| MealStorage.MealStorage.DeleteIngredient | meal_storage.py:80-81 | The delete on `ingredients` with the conditions as given |
| MealStorage.MealStorage.DeleteMeal | meal_storage.py:104-105 | The delete on `meals` with the conditions as given |
| MealStorage.MealStorage.DeleteMealIngredient | meal_storage.py:131-132 | The delete on `meal_ingredients` with the conditions as given |
| MealStorage.MealStorage.SelectDicts | meal_storage.py:85 | The selected rows as dicts; nothing changes |
| MealStorage.MealStorage.GetIngredients | meal_storage.py:84-86 | One new, distinct record per selected row, in row order, loaded from it; a failing select's error is passed on; nothing changes |
| MealStorage.MealStorage.GetIngredient | meal_storage.py:89-90 | The first record `get_ingredients(eq('id', id))` gives, or None when there is none |
| MealStorage.MealStorage.GetMeals | meal_storage.py:108-110 | One new meal per selected row, loaded from it, without children |
| MealStorage.MealStorage.GetMeal | meal_storage.py:113-114 | The first meal `get_meals(eq('id', id))` gives, or None |
| MealStorage.MealStorage.GetMealIngredients | meal_storage.py:135-137 | One new meal ingredient per selected row, loaded from it, without `ingredient` |
| MealStorage.MealStorage.LoadIngredients | meal_storage.py:86 | `[Ingredient.load(dic) for dic in dics]`: one new, distinct record per dict |
| MealStorage.MealStorage.LoadMeals | meal_storage.py:110 | One new, distinct meal per dict |
| MealStorage.MealStorage.LoadMealIngredients | meal_storage.py:137 | One new, distinct meal ingredient per dict |
| Backend.Raised | backend.py:125 | A dropped `_execute` result leaves only the exception it raised |
| Backend.SelectAgrees | backend.py:98-108 | With columns, backend's select is sql_storage's: text, binds and result function. With none, its text has an empty select list where sql_storage's reads `*`. Either way the binds are the `rval`s in condition order |
| Backend.SelectWithoutColumns | backend.py:99 | With no columns the text starts `SELECT  FROM `, not `SELECT * ` |
| Backend.SelectPlaceholdersAsWritten | backend.py:98-102 | The number of `?` in the select text equals the bind length, columns or not |
| Backend.SpreadShape | backend.py:115 | `'\n'.join` of a string puts a newline between every two characters: 2n-1 characters, the original ones at even positions |
| Backend.InsertAsWrittenRefused | backend.py:111-115 | Every insert as written is a syntax error and stores nothing |
| Backend.Storage.constructor | backend.py:21-22 | The storage keeps the engine its connection string stands for |
| Backend.Storage.Select | backend.py:98-108 | With columns, the rows of sql_storage's select; with none, a syntax error; nothing changes |
| Backend.Storage.InsertAsWritten | backend.py:111-115 | As written: always a syntax error; nothing stored |
| Backend.Storage.Insert | backend.py:111-115 | With the text passed whole: sql_storage's insert and the new rowid |
| Backend.Storage.Delete | backend.py:118-125 | `delete` builds `DELETE FROM t WHERE 1 = 1` plus the condition lines, binds the `rval`s, runs the statement, and returns no value, only the error raised |
| Backend.Storage.UpdateAsWritten | backend.py:128-139 | As written: AttributeError on `execute`, and nothing reaches the database |
| Backend.Storage.Update | backend.py:128-139 | Calling `_execute`: sql_storage's update, SET values bound before condition values |
| Storage.Entry | storage.py:18-19 | One field's part of a dump is empty exactly when the field is absent or ignored |
| Storage.MealDumpParts | storage.py:31-32 | Dropping only `id`, a meal's dump is meal_storage.py's plus the `meal_ingredients` entry when the meal has children |
| Storage.ChildrenColumnUnknown | storage.py:31-32 | With children, the dump names `meal_ingredients`, which is no column of `meals` |
| Storage.AddMealWithChildrenRefused | storage.py:31-32 | Over the corrected insert, `add_meal` of a meal with children is refused with no such column, and nothing is stored |
| Storage.AddMealWithoutChildren | storage.py:31-32 | Over the corrected insert, a meal without children is added; its rowid is returned and reads back |
| Storage.MealIngredientDumpSame | storage.py:44-45 | A meal ingredient's dump dropping only `id` is meal_storage.py's: `ingredient` is not a declared field |
| Storage.MealRound | storage.py:31-41 | Over the corrected insert, the add/get/delete round for a meal without children |
| Storage.MealIngredientRound | storage.py:44-54 | Over the corrected insert, the add/get/delete round for a complete meal ingredient |
| Storage.AddsAsWrittenRefused | backend.py:111-115 | As written, the insert storage.py inherits refuses each of its three adds with a syntax error, and nothing is stored |
| Storage.MealStorage.constructor | storage.py:11-15 | The façade keeps its backend storage |
| Storage.MealStorage.Insert | storage.py:18-19 | Over the corrected insert (Backend.Storage.Insert), an add's database and result are the insert's: the new rowid, not the record (tests/test_add.py:31-41) |
| Storage.MealStorage.SelectDicts | storage.py:26-28 | The selected rows as dicts; nothing changes |
| Storage.MealStorage.AddIngredient | storage.py:18-19 | The dump dropping only `id` is inserted into `ingredients` by the corrected insert; the rowid is returned |
| Storage.MealStorage.AddMeal | storage.py:31-32 | The dump dropping only `id`, so keeping `meal_ingredients`, is inserted into `meals` by the corrected insert |
| Storage.MealStorage.AddMealIngredient | storage.py:44-45 | The dump dropping only `id` is inserted into `meal_ingredients` by the corrected insert |
| Storage.MealStorage.DeleteIngredient | storage.py:22-23 | The conditions go unchanged to backend's delete on `ingredients` |
| Storage.MealStorage.DeleteMeal | storage.py:35-36 | The conditions go unchanged to backend's delete on `meals` |
| Storage.MealStorage.DeleteMealIngredient | storage.py:48-49 | The conditions go unchanged to backend's delete on `meal_ingredients` |
| Storage.MealStorage.GetIngredients | storage.py:26-28 | One loaded record per selected row, in row order |
| Storage.MealStorage.GetMeals | storage.py:39-41 | One loaded meal per selected row, in row order |
| Storage.MealStorage.GetMealIngredients | storage.py:52-54 | One loaded meal ingredient per selected row, in row order |
| MainSchemas.RemoveAll | main.py:52 | `str.replace` never lengthens the string |
| MainSchemas.RemoveAbsent | main.py:52 | Replacing a pattern that does not occur changes nothing |
| MainSchemas.RemoveTrailing | main.py:52 | Removing a trailing `Schema` from a name without `S` gives the name |
| MainSchemas.LowerSettled | main.py:52 | `lower` leaves no upper-case letter and is idempotent |
| MainSchemas.TableNameParts | main.py:51-52 | An explicit name is returned as given; otherwise the class name minus `Schema`, lower-cased |
| MainSchemas.DefaultTableName | main.py:51-52 | The default table name of `XSchema` is `x` lower-cased |
| MainSchemas.IngredientTableName | main.py:51-52 | `IngredientSchema` gives `ingredient` |
| MainSchemas.MealTableName | main.py:51-52 | `MealSchema` gives `meal` |
| MainSchemas.MealIngredientTableName | main.py:51-52 | `MealIngredientSchema` gives `mealingredient`, which is not a table that create_db makes (main.py:134 makes `meal_ingredients`) |
| MainSchemas.PrepareFields | main.py:55-61 | The prepared fields are exactly the declared fields not ignored, in declared order |
| MainSchemas.PrepareDefault | main.py:55-61 | The default ignore is `['id']`, leaving every field but the first; an empty ignore keeps them all |
| MainSchemas.SchemasLeadWithId | main.py:7-27 | The three schemas declare `id` first and only once |
| MainSchemas.SelectSqlAgrees | main.py:64-69 | `select_sql` is `SELECT f1, f2… FROM t WHERE 1 = 1` over the prepared fields, with no `?` in it; it is sql_storage's select head |
| MainSchemas.InsertSqlPlaceholders | main.py:72-78 | `insert_sql` holds one `?` per prepared field |
| MainSchemas.UnexpectedSpec | main.py:38 | The unexpected keywords of `_replace` are exactly those that name no field |
| MainSchemas.ReplaceSpec | main.py:38 | `_replace` succeeds exactly when every keyword names a field; it then overrides only those fields, and otherwise raises ValueError |
| MainSchemas.ReplaceNothing | main.py:38 | `_replace()` with no keywords returns the tuple unchanged |
| MainSchemas.ReplaceTwice | main.py:38 | `_replace` with the same keywords twice is the same as once |
| MainSchemas.IngredientTemplateFails | main.py:36-38 | `ingredient(name, **kw)` fails exactly when some keyword names no field |
| MainSchemas.IngredientTemplateValues | main.py:36-38 | Otherwise it starts from id None, the name and five zeros, and overrides only the named fields |
| MainSchemas.MealIngredientTemplate | main.py:46-48 | `meal_ingredient` has the schema's fields, with id None |
| MainSchemas.MealIngredientTemplateSpec | main.py:46-48 | `name` is discarded: the result does not depend on it, and the values after id are `meal_id, ingr_id, quantity` |
| MainSchemas.Pairs | main.py:154 | The fields paired with the values, keys in field order |
| MainSchemas.AddObjectInserts | main.py:151-156 | `add_object` binds `obj[1:]` to `insert_sql(Schema)`: the insert of every field but `id` into the default table, or into the table named to `insert_sql`; on success the record comes back with only `id` replaced by the rowid |
| MainSchemas.AddObjectRuns | main.py:151-156 | Running the prepared text and `obj[1:]` is executing that bound insert and reading its rowid |
| MainSchemas.SameKeysSameProblem | main.py:154 | Whether the insert is refused depends only on the columns, not on the values bound |
| MainSchemas.RebindPairs | main.py:154 | Binding values to the prepared fields gives the fields paired with those values |
| MainSchemas.ReplaceId | main.py:156 | `_replace(id=…)` changes only the first value |
| MainSchemas.AddMealIngredientObjectFails | main.py:192-193 | `add_meal_ingredient` writes to `mealingredient`, which does not exist, so it fails with nothing stored |
| MainSchemas.AddMealIngredientObjectInserts | main.py:192-193 | Written to `meal_ingredients` instead, the insert targets a table `create_db` makes (main.py:134-138), resolves when the table has the three columns, and has the bound insert's outcome, giving the record its rowid |

## Left out

- Database I/O. `sqlite3.connect`, `_execute` (backend.py:85-95) and `sqliteconn` (main.py:81-94) are replaced by the in-memory engine. Its SQL semantics are an assumption of the model: the engine is not sqlite.
- DDL text. backend.py's `clear_db`, `drop_db` and `create_db` (backend.py:25-82), and main.py's `drop_db`/`create_db`, are not modelled. meal_storage.py's own `init`/`clear`/`delete` are modelled, with DDL as structured statements rather than text.
- storage.py's constructor check `Path(constr).is_file()` (storage.py:14-15) uses the file system. The constructor takes a ready backend.
- meta.py's marshmallow validation, marshmallow's own missing and default handling beyond the date, and JSON `loads`/`dumps`. A load reads a declared field only when its value has the field's type.
- Undeclared attributes. Attributes that are not declared fields (such as the `fats=` keyword in tests/test_meal_storage.py:125-127) cannot be represented on a record; a dump would drop them anyway.
- Wall-clock time. `today_at` (utils.py:3-8), main.py's `meal()` with `datetime.now()` (main.py:41-43), and the clock behind Meal's default date. The default date is the parameter `now`.
- Broken code. `get_conditions` (main.py:31-32) and `get_object` (main.py:159-173) iterate dict keys and read fields a two-field tuple lacks. The HTTP layer, `alchemyschema.py` and `controllers.py` are outside this model.
- Floats are opaque `real` values with no arithmetic. Integer columns are unbounded `int`.
- `lower` is ASCII-only. The class names it is applied to are ASCII.
- storage.py's `get_*` return lazy generators. They are modelled as the materialised list, so laziness and re-iteration are not captured.
- Date parsing: DateText.Parse follows `strptime`'s field patterns for `%Y-%m-%d %H:%M`, including one-digit months, days, hours and minutes, a space-padded day, and any run of white space between the date and the time. Its white space and digits are ASCII only. Python's `\s` and `\d` on a str pattern also match other Unicode white space and digits, and those forms are not modelled.
- DateText.Format: it writes `%Y` unpadded, as glibc's `strftime` does, so a year below 1000 gives fewer than four digits (DateText.FormatShortYear). This assumes a CPython on Linux that passes `%Y` to glibc unchanged; a CPython that pads `%Y` to four digits would make the round trip hold for those years too. DateText.ParseFormat, Model.LoadDumpMeal and MealStorage.AddThenGetMeal therefore require `year >= 1000`.
- Explicit `None` attributes. A record field is either absent or set to a value other than `None`; an attribute set explicitly to `None` is not represented (only a meal ingredient's `ingredient` link has that third state). So the model does not capture these cases:
  - `Ingredient(name='x', calories=None)` dumps `'calories': None`, and sqlite refuses the NULL in the NOT NULL `calories` column (meal_storage.py:44, meal_storage.py:71). The model reads `calories` as absent and stores the default 0.
  - `add_ingredients` skips a record built with `id=None`, since `hasattr` is true (meal_storage.py:77). The model reads it as having no id and adds it.
  - `add_meal` of a meal built with `meal_ingredients=None` raises TypeError when it iterates the list (meal_storage.py:97). The model reads the list as absent.
- Model.DumpOrdered: like the dumps themselves (`DumpIngredient`, `DumpMeal`, `DumpMealIngredient`), it rests on two assumptions. meta.py's `dump` takes no `ignore` argument, and its schema is not ordered. The TypeError every `dump(ignore=...)` call raises as written is not modelled; the dump and its declared order are assumptions, as the modelling decisions say.
- Model.MealColumnsDeclared: a Meal's `columns()` is `id, name, date`, not all of its declared fields. meta.py does not define `columns()`; read as every declared field, `get_meals` would select a `meal_ingredients` column that `meals` lacks and would always fail.
- Storage.MealStorage.Insert, Storage.MealStorage.AddIngredient, Storage.MealStorage.AddMeal, Storage.MealStorage.AddMealIngredient, Storage.AddMealWithoutChildren, Storage.AddMealWithChildrenRefused, Storage.MealRound, Storage.MealIngredientRound: these model storage.py over the corrected insert, Backend.Storage.Insert, of the Finding at backend.py:115. storage.py inherits the insert as written, so every one of its adds raises a syntax error and stores nothing (Storage.AddsAsWrittenRefused). For a meal with children, that syntax error comes before the NoSuchColumn refusal. Storage.AddMealWithChildrenRefused also abstracts the dump itself: model.py:37 nests `fields.Nested(MealIngredient)`, a record class rather than a Schema, and marshmallow 2 raises ValueError when it serialises such a field with a non-empty list, so storage.py's `add_meal` of a meal with children fails at the dump. Either way nothing is stored.
- Storage.MealStorage.SelectDicts: requires non-empty columns. Every caller in storage.py passes a non-empty `columns()` list; the empty case is covered by Backend.Storage.Select.
- Backend.SelectAgrees: for an empty column list it states only that the text starts `SELECT  FROM ` and differs from sql_storage's, not the whole text.
- MealStorage.MealStorage.AddIngredient: a failing insert is an `Err` result. This stands for the exception sqlite raises, and the record is left unchanged, as in the source.

## Findings

| source | as written | input that shows it | evidently intended | confidence | as-written member | corrected member |
|---|---|---|---|---|---|---|
| backend.py:115 | `'\n'.join(sql)` is applied to the INSERT string itself, putting a newline between every two characters | any insert, e.g. table `ingredients` with `{'name': 'x'}`: the text becomes `I\nN\nS\nE\nR\nT…` | pass the text whole, as sql_storage.py:56-58 does | not executed | Backend.InsertAsWrittenRefused | Backend.Storage.Insert |
| backend.py:139 | `update` calls `self.execute`, which `Storage` does not define | any update: AttributeError before the statement runs | call `self._execute` | not executed | Backend.Storage.UpdateAsWritten | Backend.Storage.Update |
| meal_storage.py:97 | `meal.meal_ingredients` is read unguarded after the meal row is stored | `Meal(name='x', date=…)` built without `meal_ingredients`: the row is stored, then AttributeError | treat a missing list as no children | not executed | MealStorage.MealWithoutChildrenAsWritten | MealStorage.MealWithoutChildrenLenient |
| meal_storage.py:118 | `meal_ingredient.ingredient` is read unguarded | `MealIngredient(meal_id=1, ingredient_id=2, quantity=3)` built without `ingredient`: AttributeError, nothing stored | treat a missing link as None | not executed | MealStorage.UnlinkedMealIngredientAsWritten | MealStorage.UnlinkedMealIngredientLenient |
| main.py:192-193 | `add_meal_ingredient` calls `add_object(meal_ingredient, MealIngredientSchema)`, whose default table name is `mealingredient`, while `create_db` makes `meal_ingredients` (main.py:134) | any meal ingredient tuple on a database `create_db` made: no such table `mealingredient`, nothing stored | write to `meal_ingredients` by passing that name to `insert_sql` | not executed | MainSchemas.AddMealIngredientObjectFails | MainSchemas.AddMealIngredientObjectInserts |
