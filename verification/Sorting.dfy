// Stable sorting by a `less` function, as sort.SliceStable and sort.Strings do
// it, and why a total order makes the result independent of the input order.
module Sorting {
  import opened Strings

  lemma HeadTail<T>(xs: seq<T>)
    requires xs != []
    ensures xs == [xs[0]] + xs[1..]
  {}

  lemma PutInFront<T>(x: T, xs: seq<T>, ys: seq<T>)
    ensures ([x] + xs + ys)[0] == x && ([x] + xs + ys)[1..] == xs + ys
  {}

  lemma TakeNext<T>(xs: seq<T>, i: nat)
    requires i < |xs|
    ensures xs[..i + 1] == xs[..i] + [xs[i]]
    ensures forall x :: x in xs[..i + 1] <==> x in xs[..i] || x == xs[i]
  {
    assert xs[..i + 1] == xs[..i] + [xs[i]];
  }

  predicate Distinct<T(==)>(xs: seq<T>) {
    forall i, j | 0 <= i < j < |xs| :: xs[i] != xs[j]
  }

  lemma DistinctAppend<T>(xs: seq<T>, x: T)
    requires Distinct(xs) && x !in xs
    ensures Distinct(xs + [x])
  {}

  predicate Ordered<T>(less: (T, T) -> bool, xs: seq<T>) {
    forall i, j | 0 <= i < j < |xs| :: !less(xs[j], xs[i])
  }

  ghost predicate WeakOrderOn<T(!new)>(less: (T, T) -> bool, xs: seq<T>) {
    && (forall a, b | a in xs && b in xs && less(a, b) :: !less(b, a))
    && (forall a, b, c | a in xs && b in xs && c in xs && !less(b, a) && !less(c, b) :: !less(c, a))
  }

  ghost predicate AntisymmetricOn<T(!new)>(less: (T, T) -> bool, xs: seq<T>) {
    forall a, b | a in xs && b in xs && !less(a, b) && !less(b, a) :: a == b
  }

  function Insert<T>(less: (T, T) -> bool, x: T, ys: seq<T>): (zs: seq<T>)
    ensures multiset(zs) == multiset{x} + multiset(ys)
  {
    if ys == [] || !less(ys[0], x) then [x] + ys
    else
      assert ys == [ys[0]] + ys[1..];
      [ys[0]] + Insert(less, x, ys[1..])
  }

  function Sort<T>(less: (T, T) -> bool, xs: seq<T>): (zs: seq<T>)
    ensures multiset(zs) == multiset(xs)
  {
    if xs == [] then []
    else
      assert xs == [xs[0]] + xs[1..];
      Insert(less, xs[0], Sort(less, xs[1..]))
  }

  lemma SameElements<T>(xs: seq<T>, ys: seq<T>)
    requires multiset(xs) == multiset(ys)
    ensures |xs| == |ys|
    ensures forall x :: x in xs <==> x in ys
  {
    assert |multiset(xs)| == |multiset(ys)|;
    forall x
      ensures x in xs <==> x in ys
    {
      assert x in xs <==> x in multiset(xs);
      assert x in ys <==> x in multiset(ys);
    }
  }

  lemma {:induction false} InsertOrdered<T(!new)>(less: (T, T) -> bool, x: T, ys: seq<T>)
    requires WeakOrderOn(less, [x] + ys) && Ordered(less, ys)
    ensures Ordered(less, Insert(less, x, ys))
  {
    var zs := Insert(less, x, ys);
    if ys == [] {
    } else if !less(ys[0], x) {
      assert forall y | y in ys :: y in [x] + ys;
      forall j | 0 <= j < |ys|
        ensures !less(ys[j], x)
      {
        assert x in [x] + ys && ys[0] in [x] + ys && ys[j] in [x] + ys;
        if j > 0 { assert !less(ys[j], ys[0]); }
      }
    } else {
      var rest := Insert(less, x, ys[1..]);
      assert forall y | y in [x] + ys[1..] :: y in [x] + ys;
      InsertOrdered(less, x, ys[1..]);
      assert ys[0] in [x] + ys && x in [x] + ys;
      forall j | 0 <= j < |rest|
        ensures !less(rest[j], ys[0])
      {
        assert multiset([x] + ys[1..]) == multiset(rest);
        SameElements([x] + ys[1..], rest);
        assert rest[j] in [x] + ys[1..];
      }
    }
  }

  lemma {:induction false} SortOrdered<T(!new)>(less: (T, T) -> bool, xs: seq<T>)
    requires WeakOrderOn(less, xs)
    ensures Ordered(less, Sort(less, xs))
  {
    if xs != [] {
      assert forall x | x in xs[1..] :: x in xs;
      SortOrdered(less, xs[1..]);
      var ys := Sort(less, xs[1..]);
      SameElements(xs[1..], ys);
      assert forall x | x in [xs[0]] + ys :: x in xs;
      InsertOrdered(less, xs[0], ys);
    }
  }

  lemma {:induction false} SameHead<T(!new)>(less: (T, T) -> bool, xs: seq<T>, ys: seq<T>)
    requires xs != [] && ys != [] && xs[0] in ys && ys[0] in xs
    requires AntisymmetricOn(less, xs) && Ordered(less, xs) && Ordered(less, ys)
    requires forall x | x in xs :: !less(x, x)
    ensures xs[0] == ys[0]
  {
    var i :| 0 <= i < |ys| && ys[i] == xs[0];
    var j :| 0 <= j < |xs| && xs[j] == ys[0];
    assert !less(ys[i], ys[0]);
    assert !less(xs[j], xs[0]);
    assert xs[0] in xs && ys[0] in xs;
  }

  // Two ordered arrangements of the same elements are the same arrangement when
  // ties mean equality.
  lemma {:induction false} OrderedUnique<T(!new)>(less: (T, T) -> bool, xs: seq<T>, ys: seq<T>)
    requires multiset(xs) == multiset(ys)
    requires AntisymmetricOn(less, xs)
    requires Ordered(less, xs) && Ordered(less, ys)
    requires forall x | x in xs :: !less(x, x)
    ensures xs == ys
  {
    SameElements(xs, ys);
    if xs != [] {
      SameHead(less, xs, ys);
      WithoutHead(xs);
      WithoutHead(ys);
      OrderedUnique(less, xs[1..], ys[1..]);
    }
  }

  lemma WithoutHead<T>(xs: seq<T>)
    requires xs != []
    ensures xs == [xs[0]] + xs[1..]
    ensures multiset(xs[1..]) == multiset(xs) - multiset{xs[0]}
    ensures forall x | x in xs[1..] :: x in xs
  {
    HeadTail(xs);
    assert multiset(xs) == multiset{xs[0]} + multiset(xs[1..]);
  }

  lemma SortIndependentOfInputOrder<T(!new)>(less: (T, T) -> bool, xs: seq<T>, ys: seq<T>)
    requires multiset(xs) == multiset(ys)
    requires WeakOrderOn(less, xs) && AntisymmetricOn(less, xs)
    requires forall x | x in xs :: !less(x, x)
    ensures Sort(less, xs) == Sort(less, ys)
  {
    SameElements(xs, ys);
    SortOrdered(less, xs);
    SortOrdered(less, ys);
    SameElements(xs, Sort(less, xs));
    OrderedUnique(less, Sort(less, xs), Sort(less, ys));
  }

  lemma {:induction false} SortKeepsOrdered<T>(less: (T, T) -> bool, xs: seq<T>)
    requires Ordered(less, xs)
    ensures Sort(less, xs) == xs
  {
    if xs != [] {
      SortKeepsOrdered(less, xs[1..]);
      HeadTail(xs);
    }
  }

  function Filter<T>(keep: T -> bool, xs: seq<T>): seq<T> {
    if xs == [] then []
    else if keep(xs[0]) then [xs[0]] + Filter(keep, xs[1..])
    else Filter(keep, xs[1..])
  }

  lemma {:induction false} FilterMember<T>(keep: T -> bool, xs: seq<T>, y: T)
    ensures y in Filter(keep, xs) <==> y in xs && keep(y)
  {
    if xs != [] {
      FilterMember(keep, xs[1..], y);
    }
  }

  lemma {:induction false} FilterConcat<T(!new)>(keep: T -> bool, xs: seq<T>, ys: seq<T>)
    ensures Filter(keep, xs + ys) == Filter(keep, xs) + Filter(keep, ys)
  {
    if xs == [] {
      assert xs + ys == ys;
    } else {
      FilterConcat(keep, xs[1..], ys);
      assert (xs + ys)[1..] == xs[1..] + ys;
    }
  }

  // x has one place in ys: nothing before it again after the first that is not.
  predicate OnePlace<T>(less: (T, T) -> bool, x: T, ys: seq<T>) {
    forall i, j | 0 <= i < j < |ys| && !less(ys[i], x) :: !less(ys[j], x)
  }

  lemma OrderedOnePlace<T(!new)>(less: (T, T) -> bool, x: T, ys: seq<T>)
    requires WeakOrderOn(less, [x] + ys) && Ordered(less, ys)
    ensures OnePlace(less, x, ys)
  {
    forall i, j | 0 <= i < j < |ys| && !less(ys[i], x)
      ensures !less(ys[j], x)
    {
      assert x in [x] + ys && ys[i] in [x] + ys && ys[j] in [x] + ys;
      assert !less(ys[j], ys[i]);
    }
  }

  lemma FilterHead<T(!new)>(keep: T -> bool, x: T, ys: seq<T>)
    ensures Filter(keep, [x] + ys) == (if keep(x) then [x] else []) + Filter(keep, ys)
  {
    assert ([x] + ys)[1..] == ys;
  }

  lemma InsertInFront<T(!new)>(less: (T, T) -> bool, x: T, ys: seq<T>)
    requires forall y | y in ys :: !less(y, x)
    ensures Insert(less, x, ys) == [x] + ys
  {}

  lemma InsertBehindHead<T(!new)>(less: (T, T) -> bool, x: T, y: T, ys: seq<T>)
    requires less(y, x)
    ensures Insert(less, x, [y] + ys) == [y] + Insert(less, x, ys)
  {
    assert ([y] + ys)[1..] == ys;
  }

  lemma ConsConcat<T>(h: T, t: seq<T>, ys: seq<T>)
    ensures [h] + t + ys == [h] + (t + ys)
  {}

  // What goes in front of all of ys goes into the part before them.
  lemma {:induction false} InsertAhead<T(!new)>(less: (T, T) -> bool, x: T, xs: seq<T>, ys: seq<T>)
    requires forall y | y in ys :: !less(y, x)
    ensures Insert(less, x, xs + ys) == Insert(less, x, xs) + ys
  {
    if xs == [] {
      assert xs + ys == ys;
      InsertInFront(less, x, ys);
    } else if !less(xs[0], x) {
      ConsConcat(x, xs, ys);
    } else {
      var h, t := xs[0], xs[1..];
      HeadTail(xs);
      ConsConcat(h, t, ys);
      InsertBehindHead(less, x, h, t + ys);
      InsertBehindHead(less, x, h, t);
      InsertAhead(less, x, t, ys);
      ConsConcat(h, Insert(less, x, t), ys);
    }
  }

  lemma {:induction false} FilterInsert<T(!new)>(keep: T -> bool, less: (T, T) -> bool, x: T, ys: seq<T>)
    requires OnePlace(less, x, ys)
    ensures Filter(keep, Insert(less, x, ys)) ==
            if keep(x) then Insert(less, x, Filter(keep, ys)) else Filter(keep, ys)
  {
    if ys == [] {
      FilterHead(keep, x, ys);
    } else if !less(ys[0], x) {
      FilterHead(keep, x, ys);
      forall y | y in Filter(keep, ys)
        ensures !less(y, x)
      {
        FilterMember(keep, ys, y);
        var j :| 0 <= j < |ys| && ys[j] == y;
      }
      InsertInFront(less, x, Filter(keep, ys));
    } else {
      var y, rest := ys[0], ys[1..];
      HeadTail(ys);
      InsertBehindHead(less, x, y, rest);
      FilterHead(keep, y, Insert(less, x, rest));
      FilterHead(keep, y, rest);
      FilterInsert(keep, less, x, rest);
      if keep(x) {
        InsertBehindHead(less, x, y, Filter(keep, rest));
      }
    }
  }

  // A stable sort treats any selection of the elements as if the others were not
  // there; in particular ties keep their input order.
  lemma {:induction false} FilterSort<T(!new)>(keep: T -> bool, less: (T, T) -> bool, xs: seq<T>)
    requires WeakOrderOn(less, xs)
    ensures Filter(keep, Sort(less, xs)) == Sort(less, Filter(keep, xs))
  {
    if xs != [] {
      var x, rest := xs[0], xs[1..];
      var ys, kept := Sort(less, rest), Filter(keep, rest);
      assert forall z | z in rest :: z in xs;
      FilterSort(keep, less, rest);
      SortOrdered(less, rest);
      SameElements(rest, ys);
      assert forall z | z in [x] + ys :: z in xs;
      OrderedOnePlace(less, x, ys);
      FilterInsert(keep, less, x, ys);
      assert ([x] + kept)[1..] == kept;
    }
  }

  lemma {:induction false} InsertBeforeLast<T>(less: (T, T) -> bool, x: T, ys: seq<T>, last: T)
    requires !less(last, x)
    ensures Insert(less, x, ys + [last]) == Insert(less, x, ys) + [last]
  {
    if ys != [] && less(ys[0], x) {
      InsertBeforeLast(less, x, ys[1..], last);
      assert (ys + [last])[1..] == ys[1..] + [last];
    }
  }

  // What nothing precedes stays last.
  lemma {:induction false} SortAppendLast<T>(less: (T, T) -> bool, xs: seq<T>, last: T)
    requires forall x | x in xs :: !less(last, x)
    ensures Sort(less, xs + [last]) == Sort(less, xs) + [last]
  {
    if xs == [] {
      assert xs + [last] == [last];
    } else {
      SortAppendLast(less, xs[1..], last);
      assert (xs + [last])[1..] == xs[1..] + [last];
      InsertBeforeLast(less, xs[0], Sort(less, xs[1..]), last);
    }
  }

  // ── strings ──

  function SortStrings(xs: seq<string>): (zs: seq<string>)
    ensures multiset(zs) == multiset(xs)
  {
    Sort(StrLess, xs)
  }

  lemma StringsTotallyOrdered(xs: seq<string>)
    ensures WeakOrderOn(StrLess, xs) && AntisymmetricOn(StrLess, xs)
    ensures forall x | x in xs :: !StrLess(x, x)
  {
    forall a, b | StrLess(a, b)
      ensures !StrLess(b, a)
    {
      StrLessAsymmetric(a, b);
    }
    forall a, b, c | !StrLess(b, a) && !StrLess(c, b)
      ensures !StrLess(c, a)
    {
      StrLessTotal(a, b);
      StrLessTotal(b, c);
      if StrLess(c, a) {
        if a != b && b != c {
          StrLessTransitive(a, b, c);
        }
        StrLessAsymmetric(c, a);
      }
    }
    forall a, b | !StrLess(a, b) && !StrLess(b, a)
      ensures a == b
    {
      StrLessTotal(a, b);
    }
    forall a
      ensures !StrLess(a, a)
    {
      StrLessIrreflexive(a);
    }
  }

  // What `keys(m)` returns: the members of a set in ascending order, each once.
  ghost predicate SortedKeys(zs: seq<string>, s: set<string>) {
    && (forall x :: x in zs <==> x in s)
    && (forall i, j | 0 <= i < j < |zs| :: StrLess(zs[i], zs[j]))
  }

  lemma {:induction false} SortedKeysUnique(xs: seq<string>, ys: seq<string>, s: set<string>)
    requires SortedKeys(xs, s) && SortedKeys(ys, s)
    ensures xs == ys
    decreases |xs|
  {
    if xs == [] {
      assert ys == [] by { if ys != [] { SortedKeysMember(ys, s, 0); } }
    } else {
      SortedKeysMember(xs, s, 0);
      assert ys != [];
      SortedKeysMember(ys, s, 0);
      var i :| 0 <= i < |ys| && ys[i] == xs[0];
      var j :| 0 <= j < |xs| && xs[j] == ys[0];
      assert xs[0] == ys[0] by {
        if 0 < i && 0 < j { StrLessAsymmetric(ys[0], ys[i]); }
      }
      SortedKeysTail(xs, s);
      SortedKeysTail(ys, s);
      SortedKeysUnique(xs[1..], ys[1..], s - {xs[0]});
    }
  }

  lemma SortedKeysMember(zs: seq<string>, s: set<string>, i: nat)
    requires SortedKeys(zs, s) && i < |zs|
    ensures zs[i] in s
  {}

  lemma SortedKeysTail(zs: seq<string>, s: set<string>)
    requires SortedKeys(zs, s) && zs != []
    ensures SortedKeys(zs[1..], s - {zs[0]})
  {
    StrLessIrreflexive(zs[0]);
    assert zs == [zs[0]] + zs[1..];
  }

  method Keys(s: set<string>) returns (zs: seq<string>)
    ensures SortedKeys(zs, s)
  {
    var xs: seq<string>, rest := [], s;
    while rest != {}
      invariant rest <= s
      invariant forall x :: x in xs <==> x in s - rest
      invariant Distinct(xs)
    {
      var x :| x in rest;
      xs, rest := xs + [x], rest - {x};
    }
    zs := SortStrings(xs);
    DistinctSorted(xs);
  }

  lemma DistinctSorted(xs: seq<string>)
    requires Distinct(xs)
    ensures forall x :: x in SortStrings(xs) <==> x in xs
    ensures forall i, j {:trigger SortStrings(xs)[i], SortStrings(xs)[j]} | 0 <= i < j < |SortStrings(xs)| ::
              StrLess(SortStrings(xs)[i], SortStrings(xs)[j])
  {
    var zs := SortStrings(xs);
    SameElements(xs, zs);
    StringsTotallyOrdered(xs);
    SortOrdered(StrLess, xs);
    forall i, j | 0 <= i < j < |zs|
      ensures StrLess(zs[i], zs[j])
    {
      DistinctByMultiset(xs, zs, i, j);
      StrLessTotal(zs[i], zs[j]);
    }
  }

  lemma DistinctByMultiset<T>(xs: seq<T>, zs: seq<T>, i: nat, j: nat)
    requires multiset(xs) == multiset(zs)
    requires Distinct(xs)
    requires i < j < |zs|
    ensures zs[i] != zs[j]
  {
    CountDistinct(xs, zs[i]);
    assert zs == zs[..j] + zs[j..];
    assert zs[..j][i] == zs[i] && zs[j..][0] == zs[j];
    assert multiset(zs[..j])[zs[i]] >= 1 && multiset(zs[j..])[zs[j]] >= 1;
    assert multiset(zs) == multiset(zs[..j]) + multiset(zs[j..]);
  }

  lemma {:induction false} CountDistinct<T>(xs: seq<T>, x: T)
    requires Distinct(xs)
    ensures multiset(xs)[x] <= 1
  {
    if xs != [] {
      assert xs == [xs[0]] + xs[1..];
      CountDistinct(xs[1..], x);
      assert xs[0] !in multiset(xs[1..]);
    }
  }

  lemma DistinctSameMultiset<T>(a: seq<T>, b: seq<T>)
    requires Distinct(a) && Distinct(b) && forall x :: x in a <==> x in b
    ensures multiset(a) == multiset(b)
  {
    forall x
      ensures multiset(a)[x] == multiset(b)[x]
    {
      CountDistinct(a, x);
      CountDistinct(b, x);
      assert x in multiset(a) <==> x in a;
      assert x in multiset(b) <==> x in b;
    }
  }

  lemma KeysDistinct(xs: seq<string>, s: set<string>)
    requires SortedKeys(xs, s)
    ensures Distinct(xs)
  {
    forall i, j | 0 <= i < j < |xs|
      ensures xs[i] != xs[j]
    {
      StrLessIrreflexive(xs[i]);
    }
  }
}
