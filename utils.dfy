/** The filtering helpers of utils.py: `extract` keeps the elements a predicate
    accepts, `first` takes the earliest of them, and the `extracted` tuple adds
    `first()` and `refine(func)`. The default predicate is "is not None",
    modelled on sequences of `Option` values. */
module Utils {
  import opened Values

  /** `extract(iterable, func)`: the accepted elements, in their original order. */
  function Extract<T>(xs: seq<T>, p: T -> bool): (r: seq<T>)
    ensures |r| <= |xs|
    ensures forall i :: 0 <= i < |r| ==> p(r[i])
  {
    if |xs| == 0 then []
    else (if p(xs[0]) then [xs[0]] else []) + Extract(xs[1..], p)
  }

  /** `extracted.first()`: the element at position 0, or None when the tuple is
      empty. */
  function Head<T>(xs: seq<T>): (r: Option<T>)
    ensures r.None? <==> |xs| == 0
    ensures r.Some? ==> r.value == xs[0]
  {
    if |xs| < 1 then None else Some(xs[0])
  }

  /** `extracted.refine(func)`: `func` applied to every element. */
  function Refine<T, U>(xs: seq<T>, f: T -> U): (r: seq<U>)
    ensures |r| == |xs|
    ensures forall i :: 0 <= i < |xs| ==> r[i] == f(xs[i])
  {
    seq(|xs|, i requires 0 <= i < |xs| => f(xs[i]))
  }

  /** `first(iterable, func)`. Python returns `None` both when nothing is
      accepted and when the accepted element found first is itself `None`;
      the `Option` result keeps those apart (`None` against `Some(None)`).
      The default predicate never accepts a `None` element, so with it the
      two readings agree. */
  function First<T>(xs: seq<T>, p: T -> bool): Option<T>
  {
    Head(Extract(xs, p))
  }

  /** The default predicate, `x is not None`. */
  predicate NotNone<T>(x: Option<T>)
  {
    x.Some?
  }

  // ---------------------------------------------------------------------------
  // Properties

  /** `xs` can be obtained from `ys` by deleting elements. */
  ghost predicate Subsequence<T>(xs: seq<T>, ys: seq<T>)
    decreases |ys|
  {
    |xs| == 0 || (|ys| > 0 && ((xs[0] == ys[0] && Subsequence(xs[1..], ys[1..])) || Subsequence(xs, ys[1..])))
  }

  /** An element is extracted exactly when it occurs in the input and is
      accepted. */
  lemma {:induction false} ExtractMembers<T>(xs: seq<T>, p: T -> bool, x: T)
    ensures x in Extract(xs, p) <==> x in xs && p(x)
    decreases |xs|
  {
    if |xs| > 0 {
      ExtractMembers(xs[1..], p, x);
      assert xs == [xs[0]] + xs[1..];
    }
  }

  /** Extraction keeps the input order: it is a subsequence of the input. */
  lemma {:induction false} ExtractSubsequence<T>(xs: seq<T>, p: T -> bool)
    ensures Subsequence(Extract(xs, p), xs)
    decreases |xs|
  {
    if |xs| > 0 {
      ExtractSubsequence(xs[1..], p);
      var r := Extract(xs, p);
      if p(xs[0]) {
        assert r[0] == xs[0] && r[1..] == Extract(xs[1..], p);
      } else {
        assert r == Extract(xs[1..], p);
      }
    }
  }

  /** Extraction distributes over concatenation, so it can be computed element
      by element from the front or from the back. */
  lemma {:induction false} ExtractAppend<T>(xs: seq<T>, ys: seq<T>, p: T -> bool)
    ensures Extract(xs + ys, p) == Extract(xs, p) + Extract(ys, p)
    decreases |xs|
  {
    if |xs| == 0 {
      assert xs + ys == ys;
    } else {
      ExtractAppend(xs[1..], ys, p);
      assert (xs + ys)[1..] == xs[1..] + ys;
    }
  }

  /** Nothing is dropped when every element is accepted, and nothing is kept
      when none is. */
  lemma {:induction false} ExtractAllOrNone<T>(xs: seq<T>, p: T -> bool)
    ensures (forall i :: 0 <= i < |xs| ==> p(xs[i])) ==> Extract(xs, p) == xs
    ensures (forall i :: 0 <= i < |xs| ==> !p(xs[i])) ==> Extract(xs, p) == []
    decreases |xs|
  {
    if |xs| > 0 {
      ExtractAllOrNone(xs[1..], p);
      assert forall i :: 0 <= i < |xs| - 1 ==> xs[1..][i] == xs[i + 1];
    }
  }

  /** `first` gives None exactly when no element is accepted (in particular on
      empty input), and otherwise the earliest accepted element. */
  lemma {:induction false} FirstSpec<T>(xs: seq<T>, p: T -> bool)
    ensures First(xs, p).None? <==> forall i :: 0 <= i < |xs| ==> !p(xs[i])
    ensures First(xs, p).Some? ==>
      exists i :: 0 <= i < |xs| && xs[i] == First(xs, p).value && p(xs[i]) && forall j :: 0 <= j < i ==> !p(xs[j])
    decreases |xs|
  {
    if |xs| > 0 {
      FirstSpec(xs[1..], p);
      if !p(xs[0]) {
        assert Extract(xs, p) == Extract(xs[1..], p);
        if First(xs, p).Some? {
          var i :| 0 <= i < |xs[1..]| && xs[1..][i] == First(xs, p).value && p(xs[1..][i])
            && forall j :: 0 <= j < i ==> !p(xs[1..][j]);
          assert xs[i + 1] == First(xs, p).value;
          assert forall j :: 0 <= j < i + 1 ==> !p(xs[j]) by {
            forall j | 0 <= j < i + 1
              ensures !p(xs[j])
            {
              if j > 0 {
                assert xs[j] == xs[1..][j - 1];
              }
            }
          }
        } else {
          assert forall i :: 0 <= i < |xs| ==> !p(xs[i]) by {
            forall i | 0 <= i < |xs|
              ensures !p(xs[i])
            {
              if i > 0 {
                assert xs[i] == xs[1..][i - 1];
              }
            }
          }
        }
      }
    }
  }

  /** `first(xs, p)` is element 0 of `extract(xs, p)` whenever that is not
      empty. */
  lemma FirstIsExtractHead<T>(xs: seq<T>, p: T -> bool)
    ensures |Extract(xs, p)| > 0 ==> First(xs, p) == Some(Extract(xs, p)[0])
    ensures |Extract(xs, p)| == 0 ==> First(xs, p) == None
  {
  }

  /** With the default predicate, `first` skips the leading `None`s and gives
      the earliest present value. */
  lemma FirstPresent<T>(xs: seq<Option<T>>, k: nat, v: T)
    requires k < |xs| && xs[k] == Some(v)
    requires forall j :: 0 <= j < k ==> xs[j].None?
    ensures First(xs, NotNone) == Some(Some(v))
  {
    FirstSpec(xs, NotNone);
  }

  /** Refining keeps the order: the head of the refined tuple is `func` of the
      original head. */
  lemma RefineHead<T, U>(xs: seq<T>, f: T -> U)
    ensures Head(Refine(xs, f)) == if |xs| == 0 then None else Some(f(xs[0]))
  {
  }
}
