/** Filtering, summing, mapping and sorting of sequences, and what each does to the multiset of elements. */
module Sequences {

  function Filter<T>(s: seq<T>, p: T -> bool): seq<T> {
    if s == [] then [] else (if p(s[0]) then [s[0]] else []) + Filter(s[1..], p)
  }

  function Map<T, U>(s: seq<T>, f: T -> U): seq<U> {
    if s == [] then [] else [f(s[0])] + Map(s[1..], f)
  }

  function Sum<T>(s: seq<T>, f: T -> int): int {
    if s == [] then 0 else f(s[0]) + Sum(s[1..], f)
  }

  function Take<T>(s: seq<T>, n: nat): seq<T> {
    if |s| <= n then s else s[..n]
  }

  // ---- Multisets --------------------------------------------------------------------------

  lemma HeadTail<T>(s: seq<T>)
    requires s != []
    ensures multiset(s) == multiset{s[0]} + multiset(s[1..])
  {
    assert s == [s[0]] + s[1..];
  }

  lemma Cancel<T>(x: T, a: multiset<T>, b: multiset<T>)
    ensures multiset{x} + a <= multiset{x} + b ==> a <= b
    ensures multiset{x} + a == multiset{x} + b ==> a == b
  {
    if multiset{x} + a <= multiset{x} + b {
      forall y | y in a
        ensures a[y] <= b[y]
      {
        assert (multiset{x} + a)[y] <= (multiset{x} + b)[y];
      }
    }
    if multiset{x} + a == multiset{x} + b {
      forall y
        ensures a[y] == b[y]
      {
        assert (multiset{x} + a)[y] == (multiset{x} + b)[y];
      }
    }
  }

  lemma {:induction false} FilterMultiplicity<T>(s: seq<T>, p: T -> bool, x: T)
    ensures multiset(Filter(s, p))[x] == if p(x) then multiset(s)[x] else 0
  {
    if s != [] {
      HeadTail(s);
      FilterMultiplicity(s[1..], p, x);
    }
  }

  lemma FilterMember<T>(s: seq<T>, p: T -> bool, x: T)
    ensures x in Filter(s, p) <==> x in s && p(x)
  {
    FilterMultiplicity(s, p, x);
    assert x in Filter(s, p) <==> multiset(Filter(s, p))[x] > 0;
    assert x in s <==> multiset(s)[x] > 0;
  }

  /** Filtering respects inclusion of multisets, hence permutation. */
  lemma FilterSub<T>(a: seq<T>, b: seq<T>, p: T -> bool)
    requires multiset(a) <= multiset(b)
    ensures multiset(Filter(a, p)) <= multiset(Filter(b, p))
  {
    forall x | x in multiset(Filter(a, p))
      ensures multiset(Filter(a, p))[x] <= multiset(Filter(b, p))[x]
    {
      FilterMultiplicity(a, p, x);
      FilterMultiplicity(b, p, x);
    }
  }

  lemma FilterPerm<T>(a: seq<T>, b: seq<T>, p: T -> bool)
    requires multiset(a) == multiset(b)
    ensures multiset(Filter(a, p)) == multiset(Filter(b, p))
  {
    FilterSub(a, b, p);
    FilterSub(b, a, p);
    assert multiset(Filter(a, p)) <= multiset(Filter(b, p)) <= multiset(Filter(a, p));
  }

  lemma {:induction false} FilterConcat<T>(a: seq<T>, b: seq<T>, p: T -> bool)
    ensures Filter(a + b, p) == Filter(a, p) + Filter(b, p)
  {
    if a == [] {
      assert a + b == b;
    } else {
      var head := if p(a[0]) then [a[0]] else [];
      assert (a + b)[1..] == a[1..] + b;
      FilterConcat(a[1..], b, p);
      assert Filter(a + b, p) == head + (Filter(a[1..], p) + Filter(b, p));
      assert Filter(a, p) == head + Filter(a[1..], p);
    }
  }

  lemma SizeSub<T>(a: seq<T>, b: seq<T>)
    requires multiset(a) <= multiset(b)
    ensures |a| <= |b|
  {
    assert |multiset(a)| == |a| && |multiset(b)| == |b|;
    var rest := multiset(b) - multiset(a);
    assert multiset(b) == multiset(a) + rest;
  }

  lemma SizePerm<T>(a: seq<T>, b: seq<T>)
    requires multiset(a) == multiset(b)
    ensures |a| == |b|
  {
    SizeSub(a, b);
    SizeSub(b, a);
  }

  function Without<T>(s: seq<T>, i: nat): seq<T>
    requires i < |s|
  {
    s[..i] + s[i + 1..]
  }

  lemma WithoutMultiset<T>(s: seq<T>, i: nat)
    requires i < |s|
    ensures multiset(s) == multiset{s[i]} + multiset(Without(s, i))
  {
    assert s == s[..i] + [s[i]] + s[i + 1..];
  }

  lemma {:induction false} SumConcat<T>(a: seq<T>, b: seq<T>, f: T -> int)
    ensures Sum(a + b, f) == Sum(a, f) + Sum(b, f)
  {
    if a == [] {
      assert a + b == b;
    } else {
      assert (a + b)[1..] == a[1..] + b;
      SumConcat(a[1..], b, f);
    }
  }

  lemma SumPrepend<T>(x: T, s: seq<T>, f: T -> int)
    ensures Sum([x] + s, f) == f(x) + Sum(s, f)
  {
    assert ([x] + s)[1..] == s;
  }

  lemma SumWithout<T>(s: seq<T>, i: nat, f: T -> int)
    requires i < |s|
    ensures Sum(s, f) == f(s[i]) + Sum(Without(s, i), f)
  {
    hide Sum;
    var l, r := s[..i], s[i + 1..];
    assert s == l + ([s[i]] + r);
    SumConcat(l, [s[i]] + r, f);
    SumPrepend(s[i], r, f);
    SumConcat(l, r, f);
  }

  lemma {:induction false} SumNonNegative<T>(s: seq<T>, f: T -> int)
    requires forall x :: x in s ==> f(x) >= 0
    ensures Sum(s, f) >= 0
  {
    if s != [] {
      assert s[0] in s;
      assert forall x :: x in s[1..] ==> x in s;
      SumNonNegative(s[1..], f);
    }
  }

  /** A smaller multiset of non-negative terms has no larger sum. */
  lemma {:induction false} SumSub<T>(a: seq<T>, b: seq<T>, f: T -> int)
    requires multiset(a) <= multiset(b) && forall x :: x in b ==> f(x) >= 0
    ensures Sum(a, f) <= Sum(b, f)
  {
    if a == [] {
      SumNonNegative(b, f);
    } else {
      HeadTail(a);
      assert a[0] in multiset(b);
      var i :| 0 <= i < |b| && b[i] == a[0];
      WithoutMultiset(b, i);
      SumWithout(b, i, f);
      assert forall x :: x in Without(b, i) ==> x in b;
      Cancel(a[0], multiset(a[1..]), multiset(Without(b, i)));
      SumSub(a[1..], Without(b, i), f);
    }
  }

  lemma SumPerm<T>(a: seq<T>, b: seq<T>, f: T -> int)
    requires multiset(a) == multiset(b) && forall x :: x in b ==> f(x) >= 0
    ensures Sum(a, f) == Sum(b, f)
  {
    forall x | x in a
      ensures f(x) >= 0
    {
      assert x in multiset(a);
    }
    SumSub(a, b, f);
    SumSub(b, a, f);
  }

  lemma {:induction false} MapConcat<T, U>(a: seq<T>, b: seq<T>, f: T -> U)
    ensures Map(a + b, f) == Map(a, f) + Map(b, f)
  {
    if a == [] {
      assert a + b == b;
    } else {
      assert (a + b)[1..] == a[1..] + b;
      MapConcat(a[1..], b, f);
    }
  }

  lemma {:induction false} MapIndex<T, U>(s: seq<T>, f: T -> U)
    ensures |Map(s, f)| == |s|
    ensures forall i :: 0 <= i < |s| ==> Map(s, f)[i] == f(s[i])
  {
    if s != [] {
      MapIndex(s[1..], f);
    }
  }

  lemma MapPrepend<T, U>(x: T, s: seq<T>, f: T -> U)
    ensures Map([x] + s, f) == [f(x)] + Map(s, f)
  {
    assert ([x] + s)[1..] == s;
  }

  lemma MapWithout<T, U>(s: seq<T>, i: nat, f: T -> U)
    requires i < |s|
    ensures multiset(Map(s, f)) == multiset{f(s[i])} + multiset(Map(Without(s, i), f))
  {
    hide Map;
    var l, r := s[..i], s[i + 1..];
    assert s == l + ([s[i]] + r);
    MapConcat(l, [s[i]] + r, f);
    MapPrepend(s[i], r, f);
    MapConcat(l, r, f);
    assert multiset([f(s[i])] + Map(r, f)) == multiset{f(s[i])} + multiset(Map(r, f));
  }

  lemma {:induction false} MapPerm<T, U>(a: seq<T>, b: seq<T>, f: T -> U)
    requires multiset(a) == multiset(b)
    ensures multiset(Map(a, f)) == multiset(Map(b, f))
  {
    SizePerm(a, b);
    if a != [] {
      HeadTail(a);
      assert a[0] in multiset(b);
      var i :| 0 <= i < |b| && b[i] == a[0];
      WithoutMultiset(b, i);
      Cancel(a[0], multiset(a[1..]), multiset(Without(b, i)));
      MapPerm(a[1..], Without(b, i), f);
      MapWithout(b, i, f);
      assert Map(a, f) == [f(a[0])] + Map(a[1..], f);
    }
  }

  lemma MemberPerm<T>(a: seq<T>, b: seq<T>, x: T)
    requires multiset(a) <= multiset(b) && x in a
    ensures x in b
  {
    assert x in multiset(a);
  }

  lemma {:induction false} FilterLength<T>(s: seq<T>, p: T -> bool)
    ensures |Filter(s, p)| <= |s|
  {
    if s != [] {
      FilterLength(s[1..], p);
    }
  }

  lemma {:induction false} FilterNone<T>(s: seq<T>, p: T -> bool)
    requires forall x :: x in s ==> !p(x)
    ensures Filter(s, p) == []
  {
    if s != [] {
      assert s[0] in s;
      assert forall x :: x in s[1..] ==> x in s;
      FilterNone(s[1..], p);
    }
  }

  lemma {:induction false} FilterAll<T>(s: seq<T>, p: T -> bool)
    requires forall x :: x in s ==> p(x)
    ensures Filter(s, p) == s
  {
    if s != [] {
      assert s[0] in s && forall x :: x in s[1..] ==> x in s;
      FilterAll(s[1..], p);
    }
  }

  lemma FilterWithin<T>(s: seq<T>, p: T -> bool)
    ensures multiset(Filter(s, p)) <= multiset(s)
  {
    forall x | x in multiset(Filter(s, p))
      ensures multiset(Filter(s, p))[x] <= multiset(s)[x]
    {
      FilterMultiplicity(s, p, x);
    }
  }

  lemma SubOfSameSize<T>(a: seq<T>, b: seq<T>)
    requires multiset(a) <= multiset(b) && |a| >= |b|
    ensures multiset(a) == multiset(b)
  {
    var rest := multiset(b) - multiset(a);
    assert multiset(b) == multiset(a) + rest;
    assert |rest| == 0;
  }

  /** Filtering by a stronger condition keeps no more. */
  lemma {:induction false} FilterWeaker<T>(s: seq<T>, p: T -> bool, q: T -> bool)
    requires forall x :: x in s && p(x) ==> q(x)
    ensures multiset(Filter(s, p)) <= multiset(Filter(s, q))
  {
    forall x | x in multiset(Filter(s, p))
      ensures multiset(Filter(s, p))[x] <= multiset(Filter(s, q))[x]
    {
      FilterMultiplicity(s, p, x);
      FilterMultiplicity(s, q, x);
    }
  }

  // ---- Sorting ----------------------------------------------------------------------------

  ghost predicate Ordering<T(!new)>(leq: (T, T) -> bool) {
    && (forall x, y :: leq(x, y) || leq(y, x))
    && (forall x, y, z :: leq(x, y) && leq(y, z) ==> leq(x, z))
  }

  predicate SortedBy<T>(s: seq<T>, leq: (T, T) -> bool) {
    forall i, j :: 0 <= i < j < |s| ==> leq(s[i], s[j])
  }

  function Insert<T>(x: T, s: seq<T>, leq: (T, T) -> bool): (r: seq<T>)
    ensures |r| == |s| + 1
  {
    if s == [] || leq(x, s[0]) then [x] + s else [s[0]] + Insert(x, s[1..], leq)
  }

  function Sort<T>(s: seq<T>, leq: (T, T) -> bool): (r: seq<T>)
    ensures |r| == |s|
  {
    if s == [] then [] else Insert(s[0], Sort(s[1..], leq), leq)
  }

  lemma {:induction false} InsertMultiset<T>(x: T, s: seq<T>, leq: (T, T) -> bool)
    ensures multiset(Insert(x, s, leq)) == multiset{x} + multiset(s)
  {
    if s != [] && !leq(x, s[0]) {
      HeadTail(s);
      InsertMultiset(x, s[1..], leq);
      assert multiset([s[0]] + Insert(x, s[1..], leq)) == multiset{s[0]} + multiset(Insert(x, s[1..], leq));
    }
  }

  lemma PrependSorted<T>(x: T, s: seq<T>, leq: (T, T) -> bool)
    requires SortedBy(s, leq) && forall y :: y in s ==> leq(x, y)
    ensures SortedBy([x] + s, leq)
  {
  }

  lemma {:induction false} InsertSorted<T(!new)>(x: T, s: seq<T>, leq: (T, T) -> bool)
    requires Ordering(leq) && SortedBy(s, leq)
    ensures SortedBy(Insert(x, s, leq), leq)
  {
    if s == [] || leq(x, s[0]) {
      forall y | y in s
        ensures leq(x, y)
      {
        var j :| 0 <= j < |s| && s[j] == y;
        assert j > 0 ==> leq(s[0], s[j]);
      }
      PrependSorted(x, s, leq);
    } else {
      var rest := Insert(x, s[1..], leq);
      InsertSorted(x, s[1..], leq);
      InsertMultiset(x, s[1..], leq);
      forall y | y in rest
        ensures leq(s[0], y)
      {
        assert y in multiset(rest);
        if y != x {
          assert y in s[1..];
        }
      }
      PrependSorted(s[0], rest, leq);
    }
  }

  lemma {:induction false} SortSorts<T(!new)>(s: seq<T>, leq: (T, T) -> bool)
    requires Ordering(leq)
    ensures SortedBy(Sort(s, leq), leq) && multiset(Sort(s, leq)) == multiset(s)
  {
    if s != [] {
      HeadTail(s);
      SortSorts(s[1..], leq);
      InsertSorted(s[0], Sort(s[1..], leq), leq);
      InsertMultiset(s[0], Sort(s[1..], leq), leq);
    }
  }

  lemma HeadIsLeast<T(!new)>(s: seq<T>, leq: (T, T) -> bool, x: T)
    requires Ordering(leq) && SortedBy(s, leq) && x in multiset(s)
    ensures s != [] && leq(s[0], x)
  {
    assert x in s;
    var i :| 0 <= i < |s| && s[i] == x;
    assert i == 0 || leq(s[0], s[i]);
    assert leq(s[0], s[0]);
  }

  lemma TailIsSorted<T>(s: seq<T>, leq: (T, T) -> bool)
    requires s != [] && SortedBy(s, leq)
    ensures SortedBy(s[1..], leq) && multiset(s) == multiset{s[0]} + multiset(s[1..])
    ensures s[0] in multiset(s) && s == [s[0]] + s[1..] && forall x :: x in s[1..] ==> x in s
  {
    HeadTail(s);
  }

  /** Where the order never ties two different elements, a multiset has one sorted listing. */
  lemma {:induction false} SortedUnique<T(!new)>(a: seq<T>, b: seq<T>, leq: (T, T) -> bool)
    requires Ordering(leq) && SortedBy(a, leq) && SortedBy(b, leq) && multiset(a) == multiset(b)
    requires forall x, y :: x in a && y in a && leq(x, y) && leq(y, x) ==> x == y
    ensures a == b
    decreases |a|
  {
    hide Ordering, SortedBy;
    SizePerm(a, b);
    if a != [] {
      TailIsSorted(a, leq);
      TailIsSorted(b, leq);
      HeadIsLeast(a, leq, b[0]);
      HeadIsLeast(b, leq, a[0]);
      assert b[0] in a;
      Cancel(a[0], multiset(a[1..]), multiset(b[1..]));
      SortedUnique(a[1..], b[1..], leq);
    }
  }

  lemma SortPerm<T(!new)>(a: seq<T>, b: seq<T>, leq: (T, T) -> bool)
    requires Ordering(leq) && multiset(a) == multiset(b)
    requires forall x, y :: x in a && y in a && leq(x, y) && leq(y, x) ==> x == y
    ensures Sort(a, leq) == Sort(b, leq)
  {
    SortSorts(a, leq);
    SortSorts(b, leq);
    forall x | x in Sort(a, leq)
      ensures x in a
    {
      MemberPerm(Sort(a, leq), a, x);
    }
    SortedUnique(Sort(a, leq), Sort(b, leq), leq);
  }
}
