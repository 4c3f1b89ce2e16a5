/** Small datatypes and sequence functions shared by the models. */
module Common {

  datatype Option<+T> = None | Some(value: T)

  datatype Result<+T> = Ok(value: T) | Err(error: string)

  const NUL := '\0'

  /** Nanoseconds. */
  const SECOND := 1_000_000_000

  function Max(a: int, b: int): int { if a < b then b else a }

  function Map<T, K>(f: T -> K, xs: seq<T>): (ks: seq<K>)
    ensures |ks| == |xs| && forall i :: 0 <= i < |xs| ==> ks[i] == f(xs[i])
  {
    if xs == [] then [] else [f(xs[0])] + Map(f, xs[1..])
  }

  /** The elements satisfying p, in order. */
  function Filter<T>(p: T -> bool, xs: seq<T>): seq<T> {
    if xs == [] then []
    else
      var rest := Filter(p, xs[..|xs| - 1]);
      if p(xs[|xs| - 1]) then rest + [xs[|xs| - 1]] else rest
  }

  lemma FilterAppend<T>(p: T -> bool, xs: seq<T>, ys: seq<T>)
    ensures Filter(p, xs + ys) == Filter(p, xs) + Filter(p, ys)
  {
    if ys == [] {
      assert xs + ys == xs;
    } else {
      assert (xs + ys)[..|xs + ys| - 1] == xs + ys[..|ys| - 1];
      FilterAppend(p, xs, ys[..|ys| - 1]);
    }
  }

  lemma FilterMember<T>(p: T -> bool, xs: seq<T>)
    ensures forall x :: x in Filter(p, xs) <==> x in xs && p(x)
    ensures |Filter(p, xs)| <= |xs|
  {
    if xs != [] {
      FilterMember(p, xs[..|xs| - 1]);
      assert xs == xs[..|xs| - 1] + [xs[|xs| - 1]];
    }
  }

  function Both<T>(p: T -> bool, q: T -> bool): T -> bool { x => p(x) && q(x) }

  lemma {:induction false} FilterTwice<T>(p: T -> bool, q: T -> bool, xs: seq<T>)
    ensures Filter(q, Filter(p, xs)) == Filter(Both(p, q), xs)
  {
    if xs != [] {
      var rest, x := xs[..|xs| - 1], xs[|xs| - 1];
      FilterTwice(p, q, rest);
      if p(x) { assert (Filter(p, rest) + [x])[..|Filter(p, rest)|] == Filter(p, rest); }
    }
  }

  lemma {:induction false} FilterSame<T>(p: T -> bool, q: T -> bool, xs: seq<T>)
    requires forall x :: x in xs ==> p(x) == q(x)
    ensures Filter(p, xs) == Filter(q, xs)
  {
    if xs != [] { FilterSame(p, q, xs[..|xs| - 1]); }
  }

  lemma {:induction false} FilterNone<T>(p: T -> bool, xs: seq<T>)
    requires forall x :: x in xs ==> !p(x)
    ensures Filter(p, xs) == []
  {
    if xs != [] { FilterNone(p, xs[..|xs| - 1]); }
  }

  lemma {:induction false} FilterEvery<T>(p: T -> bool, xs: seq<T>)
    requires forall x :: x in xs ==> p(x)
    ensures Filter(p, xs) == xs
  {
    if xs != [] {
      FilterEvery(p, xs[..|xs| - 1]);
      assert xs == xs[..|xs| - 1] + [xs[|xs| - 1]];
    }
  }

  /** No two elements have the same key. */
  ghost predicate DistinctBy<T, K>(key: T -> K, xs: seq<T>) {
    forall i, j :: 0 <= i < j < |xs| ==> key(xs[i]) != key(xs[j])
  }

  /** The sum of w over xs. */
  function Sum<T>(w: T -> int, xs: seq<T>): int {
    if xs == [] then 0 else Sum(w, xs[..|xs| - 1]) + w(xs[|xs| - 1])
  }

  lemma SumAppend<T>(w: T -> int, xs: seq<T>, ys: seq<T>)
    ensures Sum(w, xs + ys) == Sum(w, xs) + Sum(w, ys)
  {
    if ys == [] {
      assert xs + ys == xs;
    } else {
      assert (xs + ys)[..|xs + ys| - 1] == xs + ys[..|ys| - 1];
      SumAppend(w, xs, ys[..|ys| - 1]);
    }
  }
}
