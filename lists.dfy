/**
 * List comprehensions of the form `[f(x) for x in xs if f(x) is not None]`,
 * written as the appending loops of the source build them: one element at a
 * time, at the end.
 */
module Lists {
  import opened Wrappers

  /** The values `f` yields on `xs`, in order, skipping the Nones. */
  function FilterMap<T, U>(xs: seq<T>, f: T -> Option<U>): seq<U>
    decreases |xs|
  {
    if xs == [] then []
    else
      var n := |xs| - 1;
      FilterMap(xs[..n], f) + if f(xs[n]).Some? then [f(xs[n]).value] else []
  }

  /** One more element: its value, if any, goes at the end. */
  lemma FilterMapSnoc<T, U>(xs: seq<T>, x: T, f: T -> Option<U>)
    ensures FilterMap(xs + [x], f) == FilterMap(xs, f) + if f(x).Some? then [f(x).value] else []
  {
    assert (xs + [x])[..|xs|] == xs;
  }

  /** The values of a concatenation are the values of its parts, in order. */
  lemma {:induction false} FilterMapAppend<T, U>(xs: seq<T>, ys: seq<T>, f: T -> Option<U>)
    ensures FilterMap(xs + ys, f) == FilterMap(xs, f) + FilterMap(ys, f)
    decreases |ys|
  {
    if ys == [] {
      assert xs + ys == xs;
    } else {
      var n := |ys| - 1;
      FilterMapAppend(xs, ys[..n], f);
      assert (xs + ys)[..|xs| + n] == xs + ys[..n];
      assert (xs + ys)[|xs| + n] == ys[n];
    }
  }

  /**
   * Every element with a value contributes it, and every value comes from
   * an element; there are never more values than elements.
   */
  lemma {:induction false} FilterMapExact<T, U>(xs: seq<T>, f: T -> Option<U>)
    ensures |FilterMap(xs, f)| <= |xs|
    ensures forall i :: 0 <= i < |xs| && f(xs[i]).Some? ==> f(xs[i]).value in FilterMap(xs, f)
    ensures forall y :: y in FilterMap(xs, f) ==> exists i :: 0 <= i < |xs| && f(xs[i]) == Some(y)
    decreases |xs|
  {
    if xs != [] {
      var n := |xs| - 1;
      var prev := xs[..n];
      FilterMapExact(prev, f);
      forall i | 0 <= i < n && f(xs[i]).Some?
        ensures f(xs[i]).value in FilterMap(xs, f)
      {
        assert prev[i] == xs[i];
      }
      forall y | y in FilterMap(xs, f)
        ensures exists i :: 0 <= i < |xs| && f(xs[i]) == Some(y)
      {
        if y in FilterMap(prev, f) {
          var i :| 0 <= i < n && f(prev[i]) == Some(y);
          assert xs[i] == prev[i];
        } else {
          assert f(xs[n]) == Some(y);
        }
      }
    }
  }

  /** An element with no value adds nothing: with no values at all the result is empty. */
  lemma {:induction false} FilterMapNone<T, U>(xs: seq<T>, f: T -> Option<U>)
    requires forall i :: 0 <= i < |xs| ==> f(xs[i]).None?
    ensures FilterMap(xs, f) == []
    decreases |xs|
  {
    if xs != [] {
      FilterMapNone(xs[..|xs| - 1], f);
    }
  }

  /** Two passes, the second over the values of the first, are one pass with the composed function. */
  lemma {:induction false} FilterMapThen<T, U, V>(xs: seq<T>, f: T -> Option<U>, g: U -> Option<V>, h: T -> Option<V>)
    requires forall i :: 0 <= i < |xs| ==> h(xs[i]) == if f(xs[i]).Some? then g(f(xs[i]).value) else None
    ensures FilterMap(FilterMap(xs, f), g) == FilterMap(xs, h)
    decreases |xs|
  {
    if xs != [] {
      var n := |xs| - 1;
      var x := xs[n];
      FilterMapThen(xs[..n], f, g, h);
      var tail := if f(x).Some? then [f(x).value] else [];
      FilterMapAppend(FilterMap(xs[..n], f), tail, g);
      if f(x).Some? {
        FilterMapSnoc([], f(x).value, g);
        assert [] + tail == tail;
      }
    }
  }

  /** Elements split between two complementary filters: the two results together are as long as the list. */
  lemma {:induction false} FilterMapPartition<T, U, V>(xs: seq<T>, f: T -> Option<U>, g: T -> Option<V>)
    requires forall i :: 0 <= i < |xs| ==> (f(xs[i]).Some? <==> g(xs[i]).None?)
    ensures |FilterMap(xs, f)| + |FilterMap(xs, g)| == |xs|
    decreases |xs|
  {
    if xs != [] {
      FilterMapPartition(xs[..|xs| - 1], f, g);
    }
  }

  /** A filter that keeps no element the other drops keeps no more elements. */
  lemma {:induction false} FilterMapFewer<T, U, V>(xs: seq<T>, f: T -> Option<U>, g: T -> Option<V>)
    requires forall i :: 0 <= i < |xs| && f(xs[i]).Some? ==> g(xs[i]).Some?
    ensures |FilterMap(xs, f)| <= |FilterMap(xs, g)|
    decreases |xs|
  {
    if xs != [] {
      FilterMapFewer(xs[..|xs| - 1], f, g);
    }
  }

  /** `[x for x in xs if x not in ys]`. */
  function Missing<T(==, !new)>(xs: seq<T>, ys: seq<T>): (r: seq<T>)
    ensures forall c :: c in r <==> c in xs && c !in ys
  {
    if xs == [] then []
    else (if xs[0] in ys then [] else [xs[0]]) + Missing(xs[1..], ys)
  }

  /** What is missing from a list without repetitions has none either. */
  lemma {:induction false} MissingDistinct<T(!new)>(xs: seq<T>, ys: seq<T>)
    requires forall i, j :: 0 <= i < j < |xs| ==> xs[i] != xs[j]
    ensures forall i, j :: 0 <= i < j < |Missing(xs, ys)| ==> Missing(xs, ys)[i] != Missing(xs, ys)[j]
    decreases |xs|
  {
    if xs != [] {
      MissingDistinct(xs[1..], ys);
      var rest := Missing(xs[1..], ys);
      assert xs[0] !in xs[1..];
      assert xs[0] !in rest;
    }
  }
}
