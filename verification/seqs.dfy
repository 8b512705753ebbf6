/** Sequence combinators behind the checks' loops and comprehensions.

    `Filter`, `MapSeq` and `Flatten` are the pure reference definitions; the
    `Try…` variants mirror a Python loop whose body may raise: they visit the
    elements left to right and stop at the first failure. The lemmas connect
    each `Try…` loop to its pure counterpart.
 */
module Seqs {
  import opened Wrappers

  /** The elements of `xs` satisfying `p`, in their original order. */
  function Filter<T>(xs: seq<T>, p: T -> bool): (r: seq<T>)
    ensures |r| <= |xs|
    ensures forall i | 0 <= i < |r| :: p(r[i])
  {
    if |xs| == 0 then [] else (if p(xs[0]) then [xs[0]] else []) + Filter(xs[1..], p)
  }

  /** `a` is obtained from `b` by deleting elements: order is preserved. */
  predicate IsSubseq<T(==)>(a: seq<T>, b: seq<T>)
    decreases |b|
  {
    |a| == 0 || (|b| > 0 && (IsSubseq(a, b[1..]) || (a[0] == b[0] && IsSubseq(a[1..], b[1..]))))
  }

  function MapSeq<T, U>(xs: seq<T>, f: T -> U): (r: seq<U>)
    ensures |r| == |xs|
    ensures forall i | 0 <= i < |xs| :: r[i] == f(xs[i])
  {
    seq(|xs|, i requires 0 <= i < |xs| => f(xs[i]))
  }

  lemma MapSeqAppend<T, U>(a: seq<T>, b: seq<T>, f: T -> U)
    ensures MapSeq(a + b, f) == MapSeq(a, f) + MapSeq(b, f)
  {
  }

  /** Concatenation of the sublists, in order. */
  function Flatten<T>(xss: seq<seq<T>>): seq<T> {
    if |xss| == 0 then [] else xss[0] + Flatten(xss[1..])
  }

  function SumLengths<T>(xss: seq<seq<T>>): nat {
    if |xss| == 0 then 0 else |xss[0]| + SumLengths(xss[1..])
  }

  lemma {:induction false} FilterIsSubseq<T>(xs: seq<T>, p: T -> bool)
    ensures IsSubseq(Filter(xs, p), xs)
  {
    if |xs| > 0 {
      FilterIsSubseq(xs[1..], p);
      var rest := Filter(xs[1..], p);
      if p(xs[0]) {
        assert Filter(xs, p) == [xs[0]] + rest;
        assert ([xs[0]] + rest)[1..] == rest;
      } else {
        assert Filter(xs, p) == rest;
      }
    }
  }

  lemma {:induction false} FilterMembers<T>(xs: seq<T>, p: T -> bool, x: T)
    ensures x in Filter(xs, p) <==> x in xs && p(x)
  {
    if |xs| > 0 {
      FilterMembers(xs[1..], p, x);
      assert xs == [xs[0]] + xs[1..];
    }
  }

  lemma {:induction false} FilterNone<T>(xs: seq<T>, p: T -> bool)
    requires forall i | 0 <= i < |xs| :: !p(xs[i])
    ensures Filter(xs, p) == []
  {
    if |xs| > 0 {
      FilterNone(xs[1..], p);
    }
  }

  lemma {:induction false} FilterAll<T>(xs: seq<T>, p: T -> bool)
    requires forall i | 0 <= i < |xs| :: p(xs[i])
    ensures Filter(xs, p) == xs
  {
    if |xs| > 0 {
      FilterAll(xs[1..], p);
      assert xs == [xs[0]] + xs[1..];
    }
  }

  /** Something is selected exactly when some element satisfies `p`. */
  lemma {:induction false} FilterEmptyIff<T>(xs: seq<T>, p: T -> bool)
    ensures |Filter(xs, p)| > 0 <==> exists i | 0 <= i < |xs| :: p(xs[i])
  {
    if |xs| > 0 {
      FilterEmptyIff(xs[1..], p);
      if exists i | 0 <= i < |xs[1..]| :: p(xs[1..][i]) {
        var i :| 0 <= i < |xs[1..]| && p(xs[1..][i]);
        assert p(xs[i + 1]);
      }
      if exists i | 0 <= i < |xs| :: p(xs[i]) {
        var i :| 0 <= i < |xs| && p(xs[i]);
        if i > 0 {
          assert p(xs[1..][i - 1]);
        }
      }
    }
  }

  /** At least two elements are selected exactly when two distinct
      positions satisfy `p`. */
  lemma {:induction false} FilterTwoIff<T>(xs: seq<T>, p: T -> bool)
    ensures |Filter(xs, p)| >= 2 <==> exists i, j | 0 <= i < j < |xs| :: p(xs[i]) && p(xs[j])
  {
    if |xs| > 0 {
      var rest := xs[1..];
      FilterTwoIff(rest, p);
      FilterEmptyIff(rest, p);
      if exists i, j | 0 <= i < j < |xs| :: p(xs[i]) && p(xs[j]) {
        var i, j :| 0 <= i < j < |xs| && p(xs[i]) && p(xs[j]);
        assert p(rest[j - 1]);
        if i > 0 {
          assert p(rest[i - 1]);
        }
      }
      if |Filter(xs, p)| >= 2 {
        if p(xs[0]) {
          var j :| 0 <= j < |rest| && p(rest[j]);
          assert p(xs[0]) && p(xs[j + 1]);
        } else {
          var i, j :| 0 <= i < j < |rest| && p(rest[i]) && p(rest[j]);
          assert p(xs[i + 1]) && p(xs[j + 1]);
        }
      }
    }
  }

  /** Two predicates that agree on the elements select the same elements. */
  lemma {:induction false} FilterCongruent<T>(xs: seq<T>, p: T -> bool, q: T -> bool)
    requires forall i | 0 <= i < |xs| :: p(xs[i]) == q(xs[i])
    ensures Filter(xs, p) == Filter(xs, q)
  {
    if |xs| > 0 {
      FilterCongruent(xs[1..], p, q);
    }
  }

  lemma {:induction false} FlattenLength<T>(xss: seq<seq<T>>)
    ensures |Flatten(xss)| == SumLengths(xss)
  {
    if |xss| > 0 {
      FlattenLength(xss[1..]);
    }
  }

  /** `[x for x in xs if test(x)]` where evaluating `test` may raise. */
  function TryFilter<T>(xs: seq<T>, test: T -> Result<bool>): (r: Result<seq<T>>)
    ensures r.Ok? ==> |r.value| <= |xs|
    ensures r.Ok? ==> forall i | 0 <= i < |r.value| :: test(r.value[i]) == Ok(true)
  {
    if |xs| == 0 then Ok([])
    else
      var keep :- test(xs[0]);
      var rest :- TryFilter(xs[1..], test);
      Ok(if keep then [xs[0]] + rest else rest)
  }

  /** The loop finishes exactly when no test raises, and then it selects the
      elements whose test returned True. */
  lemma {:induction false} TryFilterSpec<T>(xs: seq<T>, test: T -> Result<bool>)
    ensures TryFilter(xs, test).Ok? <==> forall i | 0 <= i < |xs| :: test(xs[i]).Ok?
    ensures TryFilter(xs, test).Ok? ==> TryFilter(xs, test).value == Filter(xs, x => test(x) == Ok(true))
  {
    if |xs| > 0 {
      TryFilterSpec(xs[1..], test);
      if test(xs[0]).Ok? && TryFilter(xs[1..], test).Ok? {
        assert forall i | 1 <= i < |xs| :: test(xs[i]).Ok? by {
          forall i | 1 <= i < |xs| ensures test(xs[i]).Ok? {
            assert xs[i] == xs[1..][i - 1];
          }
        }
      } else if test(xs[0]).Ok? {
        var j :| 0 <= j < |xs[1..]| && !test(xs[1..][j]).Ok?;
        assert xs[1..][j] == xs[j + 1];
      }
    }
  }

  /** When every test that returns agrees with `p`, a finished loop selects
      what `p` selects. */
  lemma {:induction false} TryFilterSelects<T>(xs: seq<T>, test: T -> Result<bool>, p: T -> bool)
    requires forall i | 0 <= i < |xs| :: test(xs[i]).Ok? ==> test(xs[i]).value == p(xs[i])
    ensures TryFilter(xs, test).Ok? ==> TryFilter(xs, test).value == Filter(xs, p)
  {
    if |xs| > 0 {
      forall i | 0 <= i < |xs[1..]| ensures test(xs[1..][i]).Ok? ==> test(xs[1..][i]).value == p(xs[1..][i]) {
        assert xs[1..][i] == xs[i + 1];
      }
      TryFilterSelects(xs[1..], test, p);
    }
  }

  /** When the loop raises, it raises what the first raising test raised. */
  lemma {:induction false} TryFilterFirstError<T>(xs: seq<T>, test: T -> Result<bool>, k: nat)
    requires k < |xs| && test(xs[k]).Err?
    requires forall i | 0 <= i < k :: test(xs[i]).Ok?
    ensures TryFilter(xs, test) == Err(test(xs[k]).error)
  {
    if k > 0 {
      TryFilterFirstError(xs[1..], test, k - 1);
    }
  }

  /** `[f(x) for x in xs]` where evaluating `f` may raise. */
  function TryMap<T, U>(xs: seq<T>, f: T -> Result<U>): Result<seq<U>> {
    if |xs| == 0 then Ok([])
    else
      var y :- f(xs[0]);
      var rest :- TryMap(xs[1..], f);
      Ok([y] + rest)
  }

  /** The comprehension finishes exactly when no element raises, and then it
      has one result per element, in order. */
  lemma {:induction false} TryMapSpec<T, U>(xs: seq<T>, f: T -> Result<U>)
    ensures TryMap(xs, f).Ok? <==> forall i | 0 <= i < |xs| :: f(xs[i]).Ok?
    ensures TryMap(xs, f).Ok? ==>
              |TryMap(xs, f).value| == |xs| &&
              forall i | 0 <= i < |xs| :: f(xs[i]) == Ok(TryMap(xs, f).value[i])
  {
    if |xs| > 0 {
      TryMapSpec(xs[1..], f);
      if f(xs[0]).Ok? && TryMap(xs[1..], f).Ok? {
        var rest := TryMap(xs[1..], f).value;
        forall i | 1 <= i < |xs| ensures f(xs[i]) == Ok(TryMap(xs, f).value[i]) {
          assert xs[i] == xs[1..][i - 1];
          assert TryMap(xs, f).value[i] == rest[i - 1];
        }
      } else if f(xs[0]).Ok? {
        var j :| 0 <= j < |xs[1..]| && !f(xs[1..][j]).Ok?;
        assert xs[1..][j] == xs[j + 1];
      }
    }
  }

  /** A loop that appends `y` for each element whose step returns `Some(y)`,
      skips the element on `None`, and stops if a step raises. */
  function TryKeepMap<T, U>(xs: seq<T>, f: T -> Result<Option<U>>): Result<seq<U>> {
    if |xs| == 0 then Ok([])
    else
      var y :- f(xs[0]);
      var rest :- TryKeepMap(xs[1..], f);
      Ok(if y.Some? then [y.value] + rest else rest)
  }

  lemma {:induction false} TryKeepMapOk<T, U>(xs: seq<T>, f: T -> Result<Option<U>>)
    ensures TryKeepMap(xs, f).Ok? <==> forall i | 0 <= i < |xs| :: f(xs[i]).Ok?
  {
    if |xs| > 0 {
      TryKeepMapOk(xs[1..], f);
      if f(xs[0]).Ok? && !TryKeepMap(xs[1..], f).Ok? {
        var j :| 0 <= j < |xs[1..]| && !f(xs[1..][j]).Ok?;
        assert xs[1..][j] == xs[j + 1];
      } else if f(xs[0]).Ok? {
        forall i | 1 <= i < |xs| ensures f(xs[i]).Ok? {
          assert xs[i] == xs[1..][i - 1];
        }
      }
    }
  }

  /** A step that keeps exactly the elements satisfying `valid` and reshapes
      them with `shape` produces the reshaped valid elements, in order. */
  lemma {:induction false} TryKeepMapGuarded<T, U>(xs: seq<T>, f: T -> Result<Option<U>>,
                                                   valid: T -> bool, shape: T -> U)
    requires forall i | 0 <= i < |xs| ::
               f(xs[i]) == (if valid(xs[i]) then Ok(Some(shape(xs[i]))) else Ok(None))
    ensures TryKeepMap(xs, f) == Ok(MapSeq(Filter(xs, valid), shape))
  {
    if |xs| > 0 {
      assert forall i | 0 <= i < |xs[1..]| ::
               f(xs[1..][i]) == (if valid(xs[1..][i]) then Ok(Some(shape(xs[1..][i]))) else Ok(None)) by {
        forall i | 0 <= i < |xs[1..]| ensures
          f(xs[1..][i]) == (if valid(xs[1..][i]) then Ok(Some(shape(xs[1..][i]))) else Ok(None))
        {
          assert xs[1..][i] == xs[i + 1];
        }
      }
      TryKeepMapGuarded(xs[1..], f, valid, shape);
      var rest := Filter(xs[1..], valid);
      assert TryKeepMap(xs[1..], f) == Ok(MapSeq(rest, shape));
      if valid(xs[0]) {
        assert f(xs[0]) == Ok(Some(shape(xs[0])));
        assert Filter(xs, valid) == [xs[0]] + rest;
        assert MapSeq([xs[0]] + rest, shape) == [shape(xs[0])] + MapSeq(rest, shape);
      } else {
        assert f(xs[0]) == Ok(None);
        assert Filter(xs, valid) == rest;
      }
    }
  }
  /** How many times `x` occurs in `xs`. */
  function Count<T(==)>(xs: seq<T>, x: T): nat {
    if |xs| == 0 then 0 else (if xs[0] == x then 1 else 0) + Count(xs[1..], x)
  }

  /** `xs` with every occurrence of `x` replaced by `sub`, like `str.replace`. */
  function ReplaceAll<T(==)>(xs: seq<T>, x: T, sub: seq<T>): (r: seq<T>)
    ensures x !in sub ==> x !in r
  {
    if |xs| == 0 then [] else (if xs[0] == x then sub else [xs[0]]) + ReplaceAll(xs[1..], x, sub)
  }

  /** Each occurrence grows by `|sub| - 1`; with nothing to replace, nothing changes. */
  lemma {:induction false} ReplaceAllLength<T>(xs: seq<T>, x: T, sub: seq<T>)
    ensures |ReplaceAll(xs, x, sub)| == |xs| + Count(xs, x) * (|sub| - 1)
    ensures x !in xs ==> ReplaceAll(xs, x, sub) == xs
  {
    if |xs| > 0 {
      ReplaceAllLength(xs[1..], x, sub);
      if x !in xs {
        assert x !in xs[1..];
        assert xs == [xs[0]] + xs[1..];
      }
    }
  }

  /** Replacing one element by another fresh one is undone by replacing back. */
  lemma {:induction false} ReplaceAllInverse<T>(xs: seq<T>, x: T, y: T)
    requires y !in xs
    ensures ReplaceAll(ReplaceAll(xs, x, [y]), y, [x]) == xs
  {
    if |xs| > 0 {
      ReplaceAllInverse(xs[1..], x, y);
      var head := if xs[0] == x then [y] else [xs[0]];
      assert ReplaceAll(xs, x, [y]) == head + ReplaceAll(xs[1..], x, [y]);
      assert (head + ReplaceAll(xs[1..], x, [y]))[1..] == ReplaceAll(xs[1..], x, [y]);
      assert xs == [xs[0]] + xs[1..];
    }
  }
}
