/** Byte-wise order on strings and sorted lists without repeats, as sort.Strings leaves them. */
module StringOrder {

  predicate Less(a: string, b: string) {
    b != "" && (a == "" || a[0] < b[0] || (a[0] == b[0] && Less(a[1..], b[1..])))
  }

  lemma LessTotal(a: string, b: string)
    ensures Less(a, b) || a == b || Less(b, a)
    ensures !(Less(a, b) && Less(b, a)) && !(Less(a, a))
  {
    if a != "" && b != "" {
      LessTotal(a[1..], b[1..]);
      LessTotal(a[1..], a[1..]);
      assert a == [a[0]] + a[1..] && b == [b[0]] + b[1..];
    } else if a != "" {
      LessTotal(a[1..], a[1..]);
    }
  }

  /** b goes on where a ends, or is larger at the first place they differ. */
  ghost predicate DiffersAt(a: string, b: string, k: nat) {
    k <= |a| && k < |b| && a[..k] == b[..k] && (k == |a| || a[k] < b[k])
  }

  lemma {:induction false} LessIsLexicographic(a: string, b: string)
    ensures Less(a, b) <==> exists k: nat :: DiffersAt(a, b, k)
  {
    if a != "" && b != "" && a[0] == b[0] {
      LessIsLexicographic(a[1..], b[1..]);
      if k: nat :| DiffersAt(a[1..], b[1..], k) {
        assert a[..k + 1] == [a[0]] + a[1..][..k] && b[..k + 1] == [b[0]] + b[1..][..k];
        assert DiffersAt(a, b, k + 1);
      }
      if k: nat :| DiffersAt(a, b, k) && k > 0 {
        assert a[1..][..k - 1] == a[..k][1..] && b[1..][..k - 1] == b[..k][1..];
        assert DiffersAt(a[1..], b[1..], k - 1);
      }
    } else {
      if b != "" && (a == "" || a[0] < b[0]) { assert DiffersAt(a, b, 0); }
      if k: nat :| DiffersAt(a, b, k) && k > 0 { assert a[..k][0] == b[..k][0]; }
    }
  }

  lemma LessTransitive(a: string, b: string, c: string)
    requires Less(a, b) && Less(b, c)
    ensures Less(a, c)
  {
    if a != "" && a[0] == b[0] == c[0] { LessTransitive(a[1..], b[1..], c[1..]); }
  }

  ghost predicate Ascending(xs: seq<string>) {
    forall i, j :: 0 <= i < j < |xs| ==> Less(xs[i], xs[j])
  }

  function Elements(xs: seq<string>): set<string> { set x | x in xs }

  /** A set has one sorted listing: rendering from it does not depend on map iteration order. */
  lemma {:induction false} AscendingIsUnique(xs: seq<string>, ys: seq<string>)
    requires Ascending(xs) && Ascending(ys) && Elements(xs) == Elements(ys)
    ensures xs == ys
  {
    assert xs != [] ==> xs[0] in Elements(xs);
    assert ys != [] ==> ys[0] in Elements(ys);
    if xs != [] && ys != [] {
      AscendingFirst(xs, ys);
      AscendingRest(xs);
      AscendingRest(ys);
      AscendingIsUnique(xs[1..], ys[1..]);
      assert xs == [xs[0]] + xs[1..] && ys == [ys[0]] + ys[1..];
    }
  }

  lemma AscendingFirst(xs: seq<string>, ys: seq<string>)
    requires Ascending(xs) && Ascending(ys) && Elements(xs) == Elements(ys) && xs != [] && ys != []
    ensures xs[0] == ys[0]
  {
    assert xs[0] in Elements(ys) && ys[0] in Elements(xs);
    var i :| 0 <= i < |ys| && ys[i] == xs[0];
    var j :| 0 <= j < |xs| && xs[j] == ys[0];
    LessTotal(xs[0], ys[0]);
  }

  lemma AscendingRest(xs: seq<string>)
    requires Ascending(xs) && xs != []
    ensures Ascending(xs[1..]) && Elements(xs[1..]) == Elements(xs) - {xs[0]}
  {
    assert xs == [xs[0]] + xs[1..];
    forall i | 0 <= i < |xs[1..]| ensures xs[1..][i] != xs[0] {
      LessTotal(xs[0], xs[i + 1]);
    }
    assert forall x :: x in xs <==> x == xs[0] || x in xs[1..];
  }

  /** Puts x in its place in a sorted list. */
  method InsertSorted(xs: seq<string>, x: string) returns (ys: seq<string>)
    requires Ascending(xs)
    ensures Ascending(ys) && Elements(ys) == Elements(xs) + {x}
  {
    var i := 0;
    while i < |xs| && Less(xs[i], x)
      invariant 0 <= i <= |xs|
      invariant forall k :: 0 <= k < i ==> Less(xs[k], x)
    {
      i := i + 1;
    }
    if i < |xs| && xs[i] == x {
      ys := xs;
    } else {
      ys := xs[..i] + [x] + xs[i..];
      forall k | i <= k < |xs| ensures Less(x, xs[k]) {
        LessTotal(xs[i], x);
        if k > i { LessTransitive(x, xs[i], xs[k]); }
      }
    }
  }

  /** Collecting the elements of a set in any order and sorting them. */
  method SortedListing(s: set<string>) returns (xs: seq<string>)
    ensures Ascending(xs) && Elements(xs) == s
  {
    xs := [];
    var rest := s;
    while rest != {}
      invariant Ascending(xs) && Elements(xs) + rest == s
      decreases rest
    {
      var x :| x in rest;
      rest := rest - {x};
      xs := InsertSorted(xs, x);
    }
  }

  function Insert(x: string, xs: seq<string>): (ys: seq<string>)
    ensures multiset(ys) == multiset(xs) + multiset{x}
  {
    if xs == [] || !Less(xs[0], x) then [x] + xs
    else
      assert xs == [xs[0]] + xs[1..];
      [xs[0]] + Insert(x, xs[1..])
  }

  /** slices.Sort: the same elements, repeats included, in order. */
  function Sort(xs: seq<string>): (ys: seq<string>)
    ensures multiset(ys) == multiset(xs)
  {
    if xs == [] then []
    else
      assert xs == [xs[0]] + xs[1..];
      Insert(xs[0], Sort(xs[1..]))
  }

  lemma SortKeeps(xs: seq<string>, x: string)
    ensures x in Sort(xs) <==> x in xs
  {
    assert x in xs <==> x in multiset(xs);
    assert x in Sort(xs) <==> x in multiset(Sort(xs));
  }

  ghost predicate NonDescending(xs: seq<string>) {
    forall i, j :: 0 <= i < j < |xs| ==> !Less(xs[j], xs[i])
  }

  lemma {:induction false} InsertKeepsOrder(x: string, xs: seq<string>)
    requires NonDescending(xs)
    ensures NonDescending(Insert(x, xs))
  {
    var ys := Insert(x, xs);
    if xs == [] || !Less(xs[0], x) {
      forall i, j | 0 <= i < j < |ys| ensures !Less(ys[j], ys[i]) {
        if i == 0 { LessEqTransitive(x, xs[0], xs[j - 1]); }
      }
    } else {
      InsertKeepsOrder(x, xs[1..]);
      LessTotal(xs[0], x);
      assert multiset(ys[1..]) == multiset(xs[1..]) + multiset{x};
      forall i, j | 0 <= i < j < |ys| ensures !Less(ys[j], ys[i]) {
        if i == 0 {
          assert ys[1..][j - 1] in multiset(ys[1..]);
          assert ys[j] == x || ys[j] in xs[1..];
        } else {
          assert !Less(ys[1..][j - 1], ys[1..][i - 1]);
        }
      }
    }
  }

  lemma LessEqTransitive(a: string, b: string, c: string)
    requires !Less(b, a) && (b == c || !Less(c, b))
    ensures !Less(c, a)
  {
    LessTotal(a, b);
    LessTotal(b, c);
    LessTotal(a, c);
    if Less(a, b) && Less(b, c) { LessTransitive(a, b, c); }
  }

  lemma {:induction false} SortSorts(xs: seq<string>)
    ensures NonDescending(Sort(xs))
  {
    if xs != [] {
      SortSorts(xs[1..]);
      InsertKeepsOrder(xs[0], Sort(xs[1..]));
    }
  }
}
