/** Totals of grouped rows: adding up per-key totals over distinct keys is adding up the rows themselves. */
module Totals {
  import opened Common

  datatype Monoid<!M> = Monoid(zero: M, add: (M, M) -> M)

  ghost predicate Lawful<M(!new)>(m: Monoid<M>) {
    && (forall a: M :: m.add(a, m.zero) == a)
    && (forall a: M, b: M :: m.add(a, b) == m.add(b, a))
    && (forall a: M, b: M, c: M :: m.add(m.add(a, b), c) == m.add(a, m.add(b, c)))
  }

  const INTS: Monoid<int> := Monoid(0, (a: int, b: int) => a + b)
  const REALS: Monoid<real> := Monoid(0.0, (a: real, b: real) => a + b)

  /** The total of w over the elements satisfying p. */
  function TotalIf<T, M>(m: Monoid<M>, w: T -> M, p: T -> bool, xs: seq<T>): M {
    if xs == [] then m.zero
    else
      var x := xs[|xs| - 1];
      m.add(TotalIf(m, w, p, xs[..|xs| - 1]), if p(x) then w(x) else m.zero)
  }

  /** Reached through key. */
  function Through<T, K, B>(key: T -> K, q: K -> B): T -> B { x => q(key(x)) }

  function Is<K(==)>(k: K): K -> bool { x => x == k }

  /** Per key, the total of the elements with that key. */
  function KeyTotal<T, K(==), M>(m: Monoid<M>, w: T -> M, key: T -> K, xs: seq<T>): K -> M {
    k => TotalIf(m, w, Through(key, Is(k)), xs)
  }

  ghost predicate Distinct<K>(ks: seq<K>) { forall i, j :: 0 <= i < j < |ks| ==> ks[i] != ks[j] }

  lemma SumsAreLawful()
    ensures Lawful(INTS) && Lawful(REALS)
  {
  }

  lemma Interchange<M(!new)>(m: Monoid<M>, a: M, b: M, c: M, d: M)
    requires Lawful(m)
    ensures m.add(m.add(a, b), m.add(c, d)) == m.add(m.add(a, c), m.add(b, d))
  {
    calc {
      m.add(m.add(a, b), m.add(c, d));
      m.add(a, m.add(b, m.add(c, d)));
      m.add(a, m.add(m.add(b, c), d));
      m.add(a, m.add(m.add(c, b), d));
      m.add(a, m.add(c, m.add(b, d)));
      m.add(m.add(a, c), m.add(b, d));
    }
  }

  lemma {:induction false} TotalOfSums<T, M(!new)>(m: Monoid<M>, u: T -> M, v: T -> M, w: T -> M, p: T -> bool,
                                                   xs: seq<T>)
    requires Lawful(m) && forall x :: x in xs && p(x) ==> w(x) == m.add(u(x), v(x))
    ensures TotalIf(m, w, p, xs) == m.add(TotalIf(m, u, p, xs), TotalIf(m, v, p, xs))
  {
    if xs != [] {
      var rest, x := xs[..|xs| - 1], xs[|xs| - 1];
      TotalOfSums(m, u, v, w, p, rest);
      Interchange(m, TotalIf(m, u, p, rest), TotalIf(m, v, p, rest),
                  if p(x) then u(x) else m.zero, if p(x) then v(x) else m.zero);
    }
  }

  lemma {:induction false} TotalOfOne<K, M(!new)>(m: Monoid<M>, v: K -> M, q: K -> bool, ks: seq<K>, k: K, a: M)
    requires Lawful(m) && Distinct(ks) && (q(k) ==> k in ks)
    requires forall j :: v(j) == if j == k then a else m.zero
    ensures TotalIf(m, v, q, ks) == if q(k) then a else m.zero
  {
    if ks != [] {
      var rest, last := ks[..|ks| - 1], ks[|ks| - 1];
      if last == k {
        TotalOfNone(m, v, q, rest, k);
      } else {
        assert k in ks ==> k in rest;
        TotalOfOne(m, v, q, rest, k, a);
      }
    }
  }

  lemma {:induction false} TotalOfNone<K, M(!new)>(m: Monoid<M>, v: K -> M, q: K -> bool, ks: seq<K>, k: K)
    requires Lawful(m) && k !in ks && forall j :: j != k ==> v(j) == m.zero
    ensures TotalIf(m, v, q, ks) == m.zero
  {
    if ks != [] { TotalOfNone(m, v, q, ks[..|ks| - 1], k); }
  }

  lemma {:induction false} TotalOfZero<K, M(!new)>(m: Monoid<M>, v: K -> M, q: K -> bool, ks: seq<K>)
    requires Lawful(m) && forall j :: j in ks ==> v(j) == m.zero
    ensures TotalIf(m, v, q, ks) == m.zero
  {
    if ks != [] { TotalOfZero(m, v, q, ks[..|ks| - 1]); }
  }

  lemma {:induction false} TotalOfFalse<T, M(!new)>(m: Monoid<M>, w: T -> M, p: T -> bool, xs: seq<T>)
    requires Lawful(m) && forall x :: x in xs ==> !p(x)
    ensures TotalIf(m, w, p, xs) == m.zero
  {
    if xs != [] { TotalOfFalse(m, w, p, xs[..|xs| - 1]); }
  }

  /** The totals per key, added up over the keys satisfying q, are the total over the elements whose key does. */
  lemma {:induction false} TotalsByKey<T, K, M(!new)>(m: Monoid<M>, w: T -> M, key: T -> K, q: K -> bool, ks: seq<K>,
                                                      xs: seq<T>)
    requires Lawful(m) && Distinct(ks) && forall x :: x in xs && q(key(x)) ==> key(x) in ks
    ensures TotalIf(m, KeyTotal(m, w, key, xs), q, ks) == TotalIf(m, w, Through(key, q), xs)
  {
    if xs == [] {
      TotalOfZero(m, KeyTotal(m, w, key, xs), q, ks);
    } else {
      var rest, x := xs[..|xs| - 1], xs[|xs| - 1];
      TotalsByKey(m, w, key, q, ks, rest);
      var one := k => if k == key(x) then w(x) else m.zero;
      TotalOfSums(m, KeyTotal(m, w, key, rest), one, KeyTotal(m, w, key, xs), q, ks);
      TotalOfOne(m, one, q, ks, key(x), w(x));
    }
  }

  lemma {:induction false} TotalCongruent<T, M>(m: Monoid<M>, v: T -> M, w: T -> M, p: T -> bool, q: T -> bool,
                                                xs: seq<T>)
    requires forall x :: x in xs ==> p(x) == q(x) && (p(x) ==> v(x) == w(x))
    ensures TotalIf(m, v, p, xs) == TotalIf(m, w, q, xs)
  {
    if xs != [] { TotalCongruent(m, v, w, p, q, xs[..|xs| - 1]); }
  }

  lemma {:induction false} TotalOfMap<T, K, M>(m: Monoid<M>, v: K -> M, q: K -> bool, f: T -> K, xs: seq<T>)
    ensures TotalIf(m, v, q, Map(f, xs)) == TotalIf(m, Through(f, v), Through(f, q), xs)
  {
    if xs != [] {
      TotalOfMap(m, v, q, f, xs[..|xs| - 1]);
      assert Map(f, xs)[|xs| - 1] == f(xs[|xs| - 1]);
      assert Map(f, xs)[..|xs| - 1] == Map(f, xs[..|xs| - 1]);
    }
  }

  /** rows, one per key, hold the totals of the elements with that key and leave no element out. */
  ghost predicate IsGrouping<R, T(!new), K, M>(m: Monoid<M>, rows: seq<R>, id: R -> K, value: R -> M, xs: seq<T>,
                                               key: T -> K, w: T -> M) {
    && Distinct(Map(id, rows))
    && (forall r :: r in rows ==> value(r) == KeyTotal(m, w, key, xs)(id(r)))
    && (forall x :: x in xs ==> key(x) in Map(id, rows))
  }

  /** Whatever the grouped rows' keys are asked, their values add up to the total over the ungrouped elements. */
  lemma GroupedTotal<R, T(!new), K, M(!new)>(m: Monoid<M>, rows: seq<R>, id: R -> K, value: R -> M, xs: seq<T>,
                                             key: T -> K, w: T -> M, q: K -> bool)
    requires Lawful(m) && IsGrouping(m, rows, id, value, xs, key, w)
    ensures TotalIf(m, value, Through(id, q), rows) == TotalIf(m, w, Through(key, q), xs)
  {
    TotalsByKey(m, w, key, q, Map(id, rows), xs);
    TotalOfMap(m, KeyTotal(m, w, key, xs), q, id, rows);
    TotalCongruent(m, value, Through(id, KeyTotal(m, w, key, xs)), Through(id, q), Through(id, q), rows);
  }

  ghost predicate SameKeys<R, T(!new), K, L>(rows: seq<R>, id: R -> K, id': R -> L, xs: seq<T>, key: T -> K,
                                             key': T -> L) {
    forall r, x :: r in rows && x in xs ==> (id(r) == key(x) <==> id'(r) == key'(x))
  }

  /** Keys that tell rows and elements apart in the same way group them in the same way. */
  lemma Regroup<R(!new), T(!new), K, L, M(!new)>(m: Monoid<M>, rows: seq<R>, id: R -> K, id': R -> L, value: R -> M,
                                           xs: seq<T>, key: T -> K, key': T -> L, w: T -> M)
    requires IsGrouping(m, rows, id, value, xs, key, w)
    requires SameKeys(rows, id, id', rows, id, id') && SameKeys(rows, id, id', xs, key, key')
    ensures IsGrouping(m, rows, id', value, xs, key', w)
  {
    forall r | r in rows ensures value(r) == KeyTotal(m, w, key', xs)(id'(r)) {
      TotalCongruent(m, w, w, Through(key, Is(id(r))), Through(key', Is(id'(r))), xs);
    }
    forall i, j | 0 <= i < j < |rows| ensures Map(id', rows)[i] != Map(id', rows)[j] {
      assert Map(id, rows)[i] != Map(id, rows)[j] && rows[i] in rows && rows[j] in rows;
    }
    forall x | x in xs ensures key'(x) in Map(id', rows) {
      assert key(x) in Map(id, rows);
      var i :| 0 <= i < |rows| && Map(id, rows)[i] == key(x);
      assert rows[i] in rows && Map(id', rows)[i] == key'(x);
    }
  }

  function One<T>(x: T): int { 1 }

  /** Counting. */
  lemma {:induction false} TotalOfOnes<T>(p: T -> bool, xs: seq<T>)
    ensures TotalIf(INTS, One, p, xs) == |Filter(p, xs)|
  {
    if xs != [] { TotalOfOnes(p, xs[..|xs| - 1]); }
  }

  lemma {:induction false} TotalAppend<T, M(!new)>(m: Monoid<M>, w: T -> M, p: T -> bool, xs: seq<T>, ys: seq<T>)
    requires Lawful(m)
    ensures TotalIf(m, w, p, xs + ys) == m.add(TotalIf(m, w, p, xs), TotalIf(m, w, p, ys))
  {
    if ys == [] {
      assert xs + ys == xs;
    } else {
      assert (xs + ys)[..|xs + ys| - 1] == xs + ys[..|ys| - 1];
      TotalAppend(m, w, p, xs, ys[..|ys| - 1]);
    }
  }

  /** So what is asked of the new keys is answered by the regrouped rows. */
  lemma RegroupedTotal<R(!new), T(!new), K, L, M(!new)>(
      m: Monoid<M>, rows: seq<R>, id: R -> K, id': R -> L, value: R -> M, xs: seq<T>, key: T -> K, key': T -> L,
      w: T -> M, q: L -> bool)
    requires Lawful(m) && IsGrouping(m, rows, id, value, xs, key, w)
    requires SameKeys(rows, id, id', rows, id, id') && SameKeys(rows, id, id', xs, key, key')
    ensures TotalIf(m, value, Through(id', q), rows) == TotalIf(m, w, Through(key', q), xs)
  {
    hide *;
    Regroup(m, rows, id, id', value, xs, key, key', w);
    GroupedTotal(m, rows, id', value, xs, key', w, q);
  }
}
