/** Values shared by every layer: optional values, results with the errors the
    storage stack can raise, the SQL values that reach a table, and the ordered
    dictionaries (Python dicts keep insertion order) that carry rows. */
module Values {

  datatype Option<T> = None | Some(value: T)

  datatype Result<T, E> = Ok(value: T) | Err(error: E)

  /** A value bound to a `?` placeholder, stored in a column or read back.
      Python floats are kept as opaque numbers (no float arithmetic is modelled);
      `Nested` is the list of nested dumps a record may carry (a Meal's
      `meal_ingredients`), which no table can store. */
  datatype Value =
    | Null
    | Int(i: int)
    | Real(r: real)
    | Text(s: string)
    | Nested(items: seq<seq<(string, Value)>>)

  /** An insertion-ordered dictionary from column names to values. */
  type Dict = seq<(string, Value)>

  /** The errors raised by the storage stack, by attribute access on records
      and by a namedtuple `_replace` given names that are not its fields. */
  datatype Error =
    | NoSuchTable(table: string)
    | NoSuchColumn(column: string)
    | TableExists(table: string)
    | NotNull(table: string, column: string)
    | UniqueViolation(table: string, column: string)
    | DatatypeMismatch(column: string)
    | BindingCount(expected: nat, supplied: nat)
    | SyntaxError(sql: string)
    | UnknownOperator(op: string)
    | DuplicateColumn(column: string)
    | UnsupportedBind(position: nat)
    | AttributeError(name: string)
    | ValueError(unexpected: seq<string>)

  /** The keys of a dictionary, in order. */
  function Keys(d: Dict): (ks: seq<string>)
    ensures |ks| == |d|
    ensures forall i :: 0 <= i < |d| ==> ks[i] == d[i].0
  {
    seq(|d|, i requires 0 <= i < |d| => d[i].0)
  }

  /** The value of the first entry with key `k`, as Python's `dic.get(k)`. */
  function Lookup(d: Dict, k: string): (r: Option<Value>)
    ensures r.None? <==> k !in Keys(d)
    ensures r.Some? ==> exists i :: 0 <= i < |d| && d[i] == (k, r.value)
  {
    if |d| == 0 then None
    else if d[0].0 == k then Some(d[0].1)
    else Lookup(d[1..], k)
  }

  /** `d[k] = v` on a Python dict: replace the value in place when `k` is a key,
      otherwise append the entry. */
  function Put(d: Dict, k: string, v: Value): (r: Dict)
    ensures k in Keys(d) ==> Keys(r) == Keys(d)
    ensures k !in Keys(d) ==> Keys(r) == Keys(d) + [k]
    ensures Lookup(r, k) == Some(v)
  {
    if |d| == 0 then [(k, v)]
    else if d[0].0 == k then
      KeysCons((k, v), d[1..]);
      KeysCons(d[0], d[1..]);
      [(k, v)] + d[1..]
    else
      var rest := Put(d[1..], k, v);
      PutStep(d, k, rest);
      [d[0]] + rest
  }

  lemma KeysCons(e: (string, Value), d: Dict)
    ensures Keys([e] + d) == [e.0] + Keys(d)
    ensures ([e] + d)[0] == e && ([e] + d)[1..] == d
  {
  }

  /** An entry whose key is new, put in front of a dict without repeated
      keys, gives a dict without repeated keys. */
  lemma DistinctKeysCons(e: (string, Value), d: Dict)
    requires e.0 !in Keys(d) && DistinctKeys(d)
    ensures DistinctKeys([e] + d)
  {
    forall i, j | 0 <= i < j < |[e] + d|
      ensures ([e] + d)[i].0 != ([e] + d)[j].0
    {
      if i == 0 {
        assert ([e] + d)[j] == d[j - 1] && Keys(d)[j - 1] == d[j - 1].0;
      } else {
        assert ([e] + d)[i] == d[i - 1] && ([e] + d)[j] == d[j - 1];
      }
    }
  }

  /** Put's contract for a head entry kept in front of the new tail. */
  lemma PutStep(d: Dict, k: string, rest: Dict)
    requires |d| > 0 && d[0].0 != k
    requires k in Keys(d[1..]) ==> Keys(rest) == Keys(d[1..])
    requires k !in Keys(d[1..]) ==> Keys(rest) == Keys(d[1..]) + [k]
    requires Lookup(rest, k).Some?
    ensures k in Keys(d) ==> Keys([d[0]] + rest) == Keys(d)
    ensures k !in Keys(d) ==> Keys([d[0]] + rest) == Keys(d) + [k]
    ensures Lookup([d[0]] + rest, k) == Lookup(rest, k)
  {
    KeysStep(d, k, rest);
    KeysCons(d[0], rest);
  }

  lemma KeysStep(d: Dict, k: string, rest: Dict)
    requires |d| > 0 && d[0].0 != k
    requires k in Keys(d[1..]) ==> Keys(rest) == Keys(d[1..])
    requires k !in Keys(d[1..]) ==> Keys(rest) == Keys(d[1..]) + [k]
    ensures k in Keys(d) ==> Keys([d[0]] + rest) == Keys(d)
    ensures k !in Keys(d) ==> Keys([d[0]] + rest) == Keys(d) + [k]
  {
    var kd, kt := Keys(d), Keys(d[1..]);
    assert kd == [d[0].0] + kt by {
      KeysCons(d[0], d[1..]);
      assert [d[0]] + d[1..] == d;
    }
    assert k in kd <==> k in kt;
    KeysCons(d[0], rest);
    if k !in kd {
      assert [d[0].0] + (kt + [k]) == ([d[0].0] + kt) + [k];
    }
  }

  /** Python's `dict(pairs)`: each pair is put in turn, so a repeated key keeps
      its first position and its last value. */
  function DictOf(pairs: seq<(string, Value)>): Dict
  {
    if |pairs| == 0 then []
    else Put(DictOf(pairs[..|pairs| - 1]), pairs[|pairs| - 1].0, pairs[|pairs| - 1].1)
  }

  /** No name occurs twice. */
  predicate Distinct(names: seq<string>)
  {
    forall i, j :: 0 <= i < j < |names| ==> names[i] != names[j]
  }

  lemma DistinctTail(fields: seq<string>)
    requires Distinct(fields) && |fields| > 0
    ensures Distinct(fields[1..]) && fields[0] !in fields[1..]
  {
    forall i, j | 0 <= i < j < |fields[1..]|
      ensures fields[1..][i] != fields[1..][j]
    {
      assert fields[1..][i] == fields[i + 1] && fields[1..][j] == fields[j + 1];
    }
    forall i | 0 <= i < |fields[1..]|
      ensures fields[1..][i] != fields[0]
    {
      assert fields[1..][i] == fields[i + 1];
    }
  }

  ghost predicate DistinctKeys(d: Dict)
  {
    forall i, j :: 0 <= i < j < |d| ==> d[i].0 != d[j].0
  }

  /** Building a dict from pairs whose keys are distinct reproduces the pairs. */
  lemma {:induction false} DictOfDistinct(pairs: seq<(string, Value)>)
    requires DistinctKeys(pairs)
    ensures DictOf(pairs) == pairs
  {
    if |pairs| > 0 {
      var init := pairs[..|pairs| - 1];
      var last := pairs[|pairs| - 1];
      assert DistinctKeys(init);
      DictOfDistinct(init);
      assert last.0 !in Keys(init) by {
        forall i | 0 <= i < |init| ensures Keys(init)[i] != last.0 {
          assert init[i] == pairs[i];
        }
      }
      PutAbsent(init, last.0, last.1);
      assert init + [last] == pairs;
    }
  }

  lemma {:induction false} PutAbsent(d: Dict, k: string, v: Value)
    requires k !in Keys(d)
    ensures Put(d, k, v) == d + [(k, v)]
  {
    if |d| > 0 {
      KeysCons(d[0], d[1..]);
      assert [d[0]] + d[1..] == d;
      PutAbsent(d[1..], k, v);
      assert [d[0]] + (d[1..] + [(k, v)]) == d + [(k, v)];
    }
  }


  /** In a dictionary whose keys are distinct, each entry is what its key
      looks up. */
  lemma LookupAt(d: Dict, i: nat)
    requires DistinctKeys(d) && i < |d|
    ensures Lookup(d, d[i].0) == Some(d[i].1)
  {
    assert Keys(d)[i] == d[i].0;
    var j :| 0 <= j < |d| && d[j] == (d[i].0, Lookup(d, d[i].0).value);
  }
}
