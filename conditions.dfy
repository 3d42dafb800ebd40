/** Filter conditions: immutable `(op, lval, rval)` triples, the five helpers
    that fix the operator, and the `where` packer (conditions.py). */
module Conditions {
  import opened Values

  /** One comparison `lval op rval`; `lval` is a column name, `rval` the value
      that is bound to the statement's `?` placeholder. */
  datatype Condition = Condition(op: string, lval: string, rval: Value)

  /** `cond(op, lval, rval)`: the fields are the three arguments, in order. */
  function Cond(op: string, lval: string, rval: Value): (c: Condition)
    ensures c.op == op && c.lval == lval && c.rval == rval
  {
    Condition(op, lval, rval)
  }

  function Eq(lval: string, rval: Value): (c: Condition)
    ensures c.op == "=" && c.lval == lval && c.rval == rval
  {
    Cond("=", lval, rval)
  }

  function Lt(lval: string, rval: Value): (c: Condition)
    ensures c.op == "<" && c.lval == lval && c.rval == rval
  {
    Cond("<", lval, rval)
  }

  function Gt(lval: string, rval: Value): (c: Condition)
    ensures c.op == ">" && c.lval == lval && c.rval == rval
  {
    Cond(">", lval, rval)
  }

  function Neq(lval: string, rval: Value): (c: Condition)
    ensures c.op == "!=" && c.lval == lval && c.rval == rval
  {
    Cond("!=", lval, rval)
  }

  function Like(lval: string, rval: Value): (c: Condition)
    ensures c.op == "like" && c.lval == lval && c.rval == rval
  {
    Cond("like", lval, rval)
  }

  /** `where(*args)`: the conditions, as a tuple of the same length and order. */
  function Where(args: seq<Condition>): (w: seq<Condition>)
    ensures |w| == |args| && forall i :: 0 <= i < |args| ==> w[i] == args[i]
  {
    args
  }

  /** The operators the five helpers fix. */
  const HelperOps: seq<string> := ["=", "!=", "<", ">", "like"]

  /** The five helper operators are pairwise distinct, so two conditions built
      by different helpers are never equal, whatever their operands. */
  lemma HelpersDistinct(l1: string, v1: Value, l2: string, v2: Value)
    ensures forall i, j :: 0 <= i < j < |HelperOps| ==> HelperOps[i] != HelperOps[j]
    ensures Eq(l1, v1) != Neq(l2, v2) && Eq(l1, v1) != Lt(l2, v2)
    ensures Eq(l1, v1) != Gt(l2, v2) && Eq(l1, v1) != Like(l2, v2)
    ensures Neq(l1, v1) != Lt(l2, v2) && Neq(l1, v1) != Gt(l2, v2)
    ensures Neq(l1, v1) != Like(l2, v2) && Lt(l1, v1) != Gt(l2, v2)
    ensures Lt(l1, v1) != Like(l2, v2) && Gt(l1, v1) != Like(l2, v2)
  {
  }
}
