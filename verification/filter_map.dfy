/**
 * Order-preserving "filter and map" over sequences, and concatenation of a
 * sequence of sequences. Both recipe-page extractors walk a list of nodes,
 * skip the ones that do not yield a value and append the others in order;
 * this module states that shape once and proves its laws once.
 */
module FilterMaps {
  import opened Options

  /** Keeps, in order, the payload of every element that `f` maps to `Some`. */
  function FilterMap<T, U>(xs: seq<T>, f: T -> Option<U>): (r: seq<U>)
    ensures |r| <= |xs|
  {
    if |xs| == 0 then []
    else
      match f(xs[0])
      case Some(y) => [y] + FilterMap(xs[1..], f)
      case None => FilterMap(xs[1..], f)
  }

  /** The number of elements of `xs` that satisfy `p`. */
  function Count<T>(xs: seq<T>, p: T -> bool): nat
  {
    if |xs| == 0 then 0
    else (if p(xs[0]) then 1 else 0) + Count(xs[1..], p)
  }

  /** The elements of `xss`, one sequence after the other. */
  function Concat<T>(xss: seq<seq<T>>): seq<T>
  {
    if |xss| == 0 then [] else xss[0] + Concat(xss[1..])
  }

  /** What a single element contributes to a `FilterMap`. */
  function Contribution<T, U>(x: T, f: T -> Option<U>): seq<U>
  {
    match f(x)
    case Some(y) => [y]
    case None => []
  }

  /** Filtering distributes over concatenation: the output of a prefix comes first. */
  lemma {:induction false} FilterMapAppend<T, U>(xs: seq<T>, ys: seq<T>, f: T -> Option<U>)
    ensures FilterMap(xs + ys, f) == FilterMap(xs, f) + FilterMap(ys, f)
    decreases |xs|
  {
    if |xs| == 0 {
      assert xs + ys == ys;
    } else {
      assert (xs + ys)[0] == xs[0];
      assert (xs + ys)[1..] == xs[1..] + ys;
      FilterMapAppend(xs[1..], ys, f);
    }
  }

  /**
   * One element, wherever it sits, contributes exactly its own payload (or
   * nothing) at exactly its own position, between the outputs of the
   * elements before it and the elements after it.
   */
  lemma {:induction false} FilterMapSplice<T, U>(before: seq<T>, x: T, after: seq<T>, f: T -> Option<U>)
    ensures FilterMap(before + [x] + after, f)
         == FilterMap(before, f) + Contribution(x, f) + FilterMap(after, f)
  {
    FilterMapAppend(before + [x], after, f);
    FilterMapAppend(before, [x], f);
    assert [x][1..] == [];
  }

  /** Appending one element at the end appends its contribution. */
  lemma FilterMapSnoc<T, U>(xs: seq<T>, x: T, f: T -> Option<U>)
    ensures FilterMap(xs + [x], f) == FilterMap(xs, f) + Contribution(x, f)
  {
    FilterMapSplice(xs, x, [], f);
    assert xs + [x] + [] == xs + [x];
  }

  /** Extending a prefix of `xs` by one element extends the output by that element's contribution. */
  lemma FilterMapStep<T, U>(xs: seq<T>, n: int, f: T -> Option<U>)
    requires 0 <= n < |xs|
    ensures FilterMap(xs[..n + 1], f) == FilterMap(xs[..n], f) + Contribution(xs[n], f)
  {
    assert xs[..n + 1] == xs[..n] + [xs[n]];
    FilterMapSnoc(xs[..n], xs[n], f);
  }

  /** An element that `f` maps to `Some(y)` appends `y` to the output of the prefix before it. */
  lemma FilterMapStepSome<T, U>(xs: seq<T>, n: int, f: T -> Option<U>, y: U)
    requires 0 <= n < |xs| && f(xs[n]) == Some(y)
    ensures FilterMap(xs[..n + 1], f) == FilterMap(xs[..n], f) + [y]
  {
    FilterMapStep(xs, n, f);
  }

  /** An element that `f` maps to `None` leaves the output of the prefix before it unchanged. */
  lemma FilterMapStepNone<T, U>(xs: seq<T>, n: int, f: T -> Option<U>)
    requires 0 <= n < |xs| && f(xs[n]).None?
    ensures FilterMap(xs[..n + 1], f) == FilterMap(xs[..n], f)
  {
    FilterMapStep(xs, n, f);
  }

  /** The output has one entry per element that `f` maps to `Some`. */
  lemma {:induction false} FilterMapLength<T, U>(xs: seq<T>, f: T -> Option<U>, p: T -> bool)
    requires forall x :: f(x).Some? == p(x)
    ensures |FilterMap(xs, f)| == Count(xs, p)
    decreases |xs|
  {
    if |xs| > 0 {
      FilterMapLength(xs[1..], f, p);
    }
  }

  /** `y` is the payload of some element of `xs`. */
  ghost predicate ComesFrom<T, U>(xs: seq<T>, f: T -> Option<U>, y: U)
  {
    exists i :: 0 <= i < |xs| && f(xs[i]) == Some(y)
  }

  /** Every output entry is the payload of some input element. */
  lemma {:induction false} FilterMapSound<T, U>(xs: seq<T>, f: T -> Option<U>, k: int)
    requires 0 <= k < |FilterMap(xs, f)|
    ensures ComesFrom(xs, f, FilterMap(xs, f)[k])
    decreases |xs|
  {
    var r := FilterMap(xs, f);
    match f(xs[0])
    case Some(y) =>
      if k == 0 {
        assert f(xs[0]) == Some(r[0]);
      } else {
        FilterMapSound(xs[1..], f, k - 1);
        var i :| 0 <= i < |xs[1..]| && f(xs[1..][i]) == Some(FilterMap(xs[1..], f)[k - 1]);
        assert f(xs[i + 1]) == Some(r[k]);
      }
    case None =>
      FilterMapSound(xs[1..], f, k);
      var i :| 0 <= i < |xs[1..]| && f(xs[1..][i]) == Some(FilterMap(xs[1..], f)[k]);
      assert f(xs[i + 1]) == Some(r[k]);
  }

  /** Every output entry, at every position, is the payload of some input element. */
  lemma FilterMapSoundAll<T, U>(xs: seq<T>, f: T -> Option<U>)
    ensures forall k :: 0 <= k < |FilterMap(xs, f)| ==> ComesFrom(xs, f, FilterMap(xs, f)[k])
  {
    forall k | 0 <= k < |FilterMap(xs, f)|
      ensures ComesFrom(xs, f, FilterMap(xs, f)[k])
    {
      FilterMapSound(xs, f, k);
    }
  }

  /**
   * The payload of element `i` sits in the output right after the outputs
   * of the elements before it: at position `|FilterMap(xs[..i], f)|`.
   */
  lemma FilterMapAt<T, U>(xs: seq<T>, f: T -> Option<U>, i: int)
    requires 0 <= i < |xs| && f(xs[i]).Some?
    ensures |FilterMap(xs[..i], f)| < |FilterMap(xs, f)|
    ensures FilterMap(xs, f)[|FilterMap(xs[..i], f)|] == f(xs[i]).value
  {
    assert xs == xs[..i] + [xs[i]] + xs[i + 1..];
    FilterMapSplice(xs[..i], xs[i], xs[i + 1..], f);
  }

  /** The payload of every element that `f` maps to `Some` is in the output. */
  lemma FilterMapComplete<T, U>(xs: seq<T>, f: T -> Option<U>, i: int)
    requires 0 <= i < |xs| && f(xs[i]).Some?
    ensures f(xs[i]).value in FilterMap(xs, f)
  {
    FilterMapAt(xs, f, i);
  }

  /**
   * Payloads of earlier elements come before payloads of later ones: the
   * payload of element `i` is at position `|FilterMap(xs[..i], f)|`, that
   * of element `j` at `|FilterMap(xs[..j], f)|`, and the first is smaller.
   */
  lemma FilterMapOrder<T, U>(xs: seq<T>, f: T -> Option<U>, i: int, j: int)
    requires 0 <= i < j < |xs| && f(xs[i]).Some? && f(xs[j]).Some?
    ensures |FilterMap(xs[..i], f)| < |FilterMap(xs[..j], f)| < |FilterMap(xs, f)|
    ensures FilterMap(xs, f)[|FilterMap(xs[..i], f)|] == f(xs[i]).value
    ensures FilterMap(xs, f)[|FilterMap(xs[..j], f)|] == f(xs[j]).value
  {
    FilterMapAt(xs, f, i);
    FilterMapAt(xs, f, j);
    var front := xs[..j];
    assert front[..i] == xs[..i];
    assert front[i] == xs[i];
    FilterMapAt(front, f, i);
  }

  /** Concatenation distributes over appending. */
  lemma {:induction false} ConcatAppend<T>(xss: seq<seq<T>>, yss: seq<seq<T>>)
    ensures Concat(xss + yss) == Concat(xss) + Concat(yss)
    decreases |xss|
  {
    if |xss| == 0 {
      assert xss + yss == yss;
    } else {
      assert (xss + yss)[1..] == xss[1..] + yss;
      ConcatAppend(xss[1..], yss);
    }
  }

  /** Appending one sequence at the end appends its elements. */
  lemma ConcatSnoc<T>(xss: seq<seq<T>>, xs: seq<T>)
    ensures Concat(xss + [xs]) == Concat(xss) + xs
  {
    ConcatAppend(xss, [xs]);
    assert [xs][1..] == [];
  }
}
