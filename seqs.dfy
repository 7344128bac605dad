/** Generic sequence operations that mirror JavaScript's `Array.prototype.filter`, `map` and `slice`. */
module Seqs {

  /** `xs.filter(p)`: the elements satisfying `p`, in their original order. */
  function Filter<T(!new)>(xs: seq<T>, p: T -> bool): (r: seq<T>)
    ensures |r| <= |xs|
    ensures forall x :: x in r <==> x in xs && p(x)
    ensures forall i :: 0 <= i < |r| ==> p(r[i])
    ensures multiset(r) <= multiset(xs)
  {
    if |xs| == 0 then []
    else
      var rest := Filter(xs[1..], p);
      assert xs == [xs[0]] + xs[1..];
      if p(xs[0]) then [xs[0]] + rest else rest
  }

  /** Filtering distributes over concatenation. */
  lemma {:induction false} FilterAppend<T(!new)>(a: seq<T>, b: seq<T>, p: T -> bool)
    ensures Filter(a + b, p) == Filter(a, p) + Filter(b, p)
  {
    if |a| == 0 {
      assert a + b == b;
    } else {
      assert (a + b)[1..] == a[1..] + b;
      FilterAppend(a[1..], b, p);
    }
  }

  /** Filtering with a predicate that every element satisfies changes nothing. */
  lemma {:induction false} FilterAll<T(!new)>(xs: seq<T>, p: T -> bool)
    requires forall x :: x in xs ==> p(x)
    ensures Filter(xs, p) == xs
  {
    if |xs| > 0 {
      FilterAll(xs[1..], p);
    }
  }

  /** Filtering keeps every occurrence of a satisfying element and none of the others. */
  lemma {:induction false} FilterCount<T(!new)>(xs: seq<T>, p: T -> bool, x: T)
    ensures multiset(Filter(xs, p))[x] == if p(x) then multiset(xs)[x] else 0
  {
    if |xs| > 0 {
      assert xs == [xs[0]] + xs[1..];
      FilterCount(xs[1..], p, x);
    }
  }

  /** Filtering keeps the whole list exactly when every element satisfies the predicate. */
  lemma {:induction false} FilterKeepsAll<T(!new)>(xs: seq<T>, p: T -> bool)
    ensures |Filter(xs, p)| == |xs| <==> forall x :: x in xs ==> p(x)
  {
    if |xs| > 0 {
      assert xs == [xs[0]] + xs[1..];
      FilterKeepsAll(xs[1..], p);
      if |Filter(xs, p)| == |xs| {
        assert p(xs[0]);
      }
    }
  }

  /** A one-element list filters to itself or to nothing. */
  function FilterOne<T(!new)>(x: T, p: T -> bool): (r: seq<T>)
    ensures r == Filter([x], p)
    ensures p(x) ==> r == [x]
    ensures !p(x) ==> r == []
  {
    assert [x][1..] == [];
    if p(x) then [x] else []
  }

  /** When `p` does not hold for both `x` and `last`, appending `last` on either side of
      `x` filters alike. */
  lemma {:induction false} FilterPassLast<T(!new)>(ys: seq<T>, init: seq<T>, x: T, last: T, p: T -> bool)
    requires Filter(ys, p) == Filter(init, p) + Filter([x], p)
    requires !(p(x) && p(last))
    ensures Filter(ys + [last], p) == Filter(init + [last], p) + Filter([x], p)
  {
    FilterAppend(ys, [last], p);
    FilterAppend(init, [last], p);
    var fx, fl := FilterOne(x, p), FilterOne(last, p);
    AppendDisjointTails(Filter(init, p), fx, fl);
  }

  /** Two tails of which one is empty can be appended in either order. */
  lemma {:induction false} AppendDisjointTails<T>(a: seq<T>, b: seq<T>, c: seq<T>)
    requires b == [] || c == []
    ensures a + b + c == (a + c) + b
  {
    if b == [] {
      assert a + b == a && (a + c) + b == a + c;
    } else {
      assert a + c == a && a + b + c == a + b;
    }
  }

  /** Filtering the first `k + 1` elements adds at most the element at `k`. */
  lemma {:induction false} FilterSnoc<T(!new)>(xs: seq<T>, k: nat, p: T -> bool)
    requires k < |xs|
    ensures Filter(xs[..k + 1], p) == Filter(xs[..k], p) + (if p(xs[k]) then [xs[k]] else [])
  {
    assert xs[..k + 1] == xs[..k] + [xs[k]];
    FilterAppend(xs[..k], [xs[k]], p);
  }

  /** `xs.map(f)`: `f` applied to every element, in order. */
  function Map<T, U>(xs: seq<T>, f: T -> U): (r: seq<U>)
    ensures |r| == |xs|
    ensures forall i :: 0 <= i < |xs| ==> r[i] == f(xs[i])
  {
    seq(|xs|, i requires 0 <= i < |xs| => f(xs[i]))
  }

  /** `xs.slice(0, n)`: the first `n` elements, or all of them when there are fewer. */
  function Take<T>(xs: seq<T>, n: nat): (r: seq<T>)
    ensures |r| == if |xs| < n then |xs| else n
    ensures forall i :: 0 <= i < |r| ==> r[i] == xs[i]
  {
    if |xs| <= n then xs else xs[..n]
  }

  /** The number of elements satisfying `p` (`xs.filter(p).length`). */
  function Count<T(!new)>(xs: seq<T>, p: T -> bool): nat {
    |Filter(xs, p)|
  }

  /** Elements are counted by exactly one of a predicate and its negation. */
  lemma {:induction false} CountSplit<T(!new)>(xs: seq<T>, p: T -> bool, q: T -> bool)
    requires forall x :: q(x) == !p(x)
    ensures Count(xs, p) + Count(xs, q) == |xs|
  {
    if |xs| > 0 {
      CountSplit(xs[1..], p, q);
    }
  }

  /** A sequence whose elements are pairwise distinct. */
  predicate Distinct<T(==)>(xs: seq<T>) {
    forall i, j :: 0 <= i < j < |xs| ==> xs[i] != xs[j]
  }
}
