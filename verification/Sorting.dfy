/** Stable insertion sort by a comparison (Python's `sorted`), and when its result is independent of the input order. */
module Sorting {
  import opened Core

  function InsertBy<T>(x: T, sorted: seq<T>, le: (T, T) -> bool): seq<T> {
    if sorted == [] || !le(sorted[0], x) then [x] + sorted else [sorted[0]] + InsertBy(x, sorted[1..], le)
  }

  function SortBy<T>(xs: seq<T>, le: (T, T) -> bool): seq<T> {
    if xs == [] then [] else InsertBy(xs[|xs| - 1], SortBy(xs[..|xs| - 1], le), le)
  }

  predicate SortedBy<T>(xs: seq<T>, le: (T, T) -> bool) {
    forall i, j :: 0 <= i < j < |xs| ==> le(xs[i], xs[j])
  }

  ghost predicate TotalPreorder<T(!new)>(le: (T, T) -> bool) {
    && (forall a, b :: le(a, b) || le(b, a))
    && (forall a, b, c :: le(a, b) && le(b, c) ==> le(a, c))
  }

  /** Elements that compare both ways are equal. */
  ghost predicate Antisymmetric<T>(xs: seq<T>, le: (T, T) -> bool) {
    forall i, j :: 0 <= i < |xs| && 0 <= j < |xs| && le(xs[i], xs[j]) && le(xs[j], xs[i]) ==> xs[i] == xs[j]
  }

  lemma {:induction false} InsertByMultiset<T>(x: T, sorted: seq<T>, le: (T, T) -> bool)
    ensures multiset(InsertBy(x, sorted, le)) == multiset{x} + multiset(sorted)
  {
    if sorted != [] && le(sorted[0], x) {
      InsertByMultiset(x, sorted[1..], le);
      assert sorted == [sorted[0]] + sorted[1..];
    }
  }

  /** Sorting permutes. */
  lemma {:induction false} SortByMultiset<T>(xs: seq<T>, le: (T, T) -> bool)
    ensures multiset(SortBy(xs, le)) == multiset(xs)
  {
    if xs != [] {
      var n := |xs| - 1;
      SortByMultiset(xs[..n], le);
      InsertByMultiset(xs[n], SortBy(xs[..n], le), le);
      assert xs == xs[..n] + [xs[n]];
    }
  }

  lemma {:induction false} InsertBySorted<T(!new)>(x: T, sorted: seq<T>, le: (T, T) -> bool)
    requires TotalPreorder(le) && SortedBy(sorted, le)
    ensures SortedBy(InsertBy(x, sorted, le), le)
  {
    if sorted == [] {
    } else if le(sorted[0], x) {
      var rest := InsertBy(x, sorted[1..], le);
      InsertBySorted(x, sorted[1..], le);
      InsertByMultiset(x, sorted[1..], le);
      forall i | 0 <= i < |rest|
        ensures le(sorted[0], rest[i])
      {
        assert rest[i] in multiset(rest);
        assert rest[i] == x || rest[i] in sorted[1..];
      }
    } else {
      assert le(x, sorted[0]);
    }
  }

  lemma {:induction false} SortBySorted<T(!new)>(xs: seq<T>, le: (T, T) -> bool)
    requires TotalPreorder(le)
    ensures SortedBy(SortBy(xs, le), le)
  {
    if xs != [] {
      SortBySorted(xs[..|xs| - 1], le);
      InsertBySorted(xs[|xs| - 1], SortBy(xs[..|xs| - 1], le), le);
    }
  }

  lemma RemoveAt<T>(xs: seq<T>, i: nat)
    requires i < |xs|
    ensures multiset(xs[..i] + xs[i + 1..]) == multiset(xs) - multiset{xs[i]}
  {
    assert xs == xs[..i] + [xs[i]] + xs[i + 1..];
  }

  lemma RemoveFirst<T>(xs: seq<T>)
    requires xs != []
    ensures multiset(xs[1..]) == multiset(xs) - multiset{xs[0]}
  {
    RemoveAt(xs, 0);
    assert xs[..0] + xs[1..] == xs[1..];
  }

  lemma SameLeast<T(!new)>(xs: seq<T>, ys: seq<T>, le: (T, T) -> bool)
    requires TotalPreorder(le) && SortedBy(xs, le) && SortedBy(ys, le) && Antisymmetric(xs, le)
    requires xs != [] && ys != [] && xs[0] in ys && ys[0] in xs
    ensures xs[0] == ys[0]
  {
  }

  /** A sorted sequence without ties is determined by its elements. */
  lemma {:induction false} SortedPermutationUnique<T(!new)>(xs: seq<T>, ys: seq<T>, le: (T, T) -> bool)
    requires TotalPreorder(le) && SortedBy(xs, le) && SortedBy(ys, le)
    requires multiset(xs) == multiset(ys) && Antisymmetric(xs, le)
    ensures xs == ys
  {
    assert |xs| == |multiset(xs)| == |multiset(ys)| == |ys|;
    if xs != [] {
      assert xs[0] in multiset(xs) && ys[0] in multiset(ys);
      SameLeast(xs, ys, le);
      RemoveFirst(xs);
      RemoveFirst(ys);
      hide TotalPreorder;
      assert SortedBy(xs[1..], le) && SortedBy(ys[1..], le) && Antisymmetric(xs[1..], le);
      SortedPermutationUnique(xs[1..], ys[1..], le);
    }
  }

  lemma AntisymmetricPermutation<T(!new)>(xs: seq<T>, ys: seq<T>, le: (T, T) -> bool)
    requires multiset(xs) == multiset(ys) && Antisymmetric(xs, le)
    ensures Antisymmetric(ys, le)
  {
    forall i, j | 0 <= i < |ys| && 0 <= j < |ys| && le(ys[i], ys[j]) && le(ys[j], ys[i])
      ensures ys[i] == ys[j]
    {
      assert ys[i] in multiset(xs) && ys[j] in multiset(xs);
      var k :| 0 <= k < |xs| && xs[k] == ys[i];
      var l :| 0 <= l < |xs| && xs[l] == ys[j];
    }
  }

  /** Sorting forgets the input order exactly: equal results mean permuted inputs, and conversely when no two
      different elements tie. */
  lemma SortByForgetsOrder<T(!new)>(xs: seq<T>, ys: seq<T>, le: (T, T) -> bool)
    requires TotalPreorder(le) && Antisymmetric(xs, le)
    ensures SortBy(xs, le) == SortBy(ys, le) <==> multiset(xs) == multiset(ys)
  {
    SortByMultiset(xs, le);
    SortByMultiset(ys, le);
    if multiset(xs) == multiset(ys) {
      SortBySorted(xs, le);
      SortBySorted(ys, le);
      AntisymmetricPermutation(xs, SortBy(xs, le), le);
      SortedPermutationUnique(SortBy(xs, le), SortBy(ys, le), le);
    }
  }

  // ----- strings

  /** Code-point order, as Python compares strings. */
  predicate StringLe(a: string, b: string) {
    a == "" || (b != "" && (a[0] < b[0] || (a[0] == b[0] && StringLe(a[1..], b[1..]))))
  }

  lemma {:induction false} StringLeTotal(a: string, b: string)
    ensures StringLe(a, b) || StringLe(b, a)
  {
    if a != "" && b != "" {
      StringLeTotal(a[1..], b[1..]);
    }
  }

  lemma {:induction false} StringLeTransitive(a: string, b: string, c: string)
    requires StringLe(a, b) && StringLe(b, c)
    ensures StringLe(a, c)
  {
    if a != "" && a[0] == b[0] == c[0] {
      StringLeTransitive(a[1..], b[1..], c[1..]);
    }
  }

  lemma {:induction false} StringLeAntisymmetric(a: string, b: string)
    requires StringLe(a, b) && StringLe(b, a)
    ensures a == b
  {
    if a != "" && b != "" {
      StringLeAntisymmetric(a[1..], b[1..]);
      assert a == [a[0]] + a[1..] && b == [b[0]] + b[1..];
    }
  }

  lemma StringOrder(xs: seq<string>)
    ensures TotalPreorder(StringLe) && Antisymmetric(xs, StringLe)
  {
    forall a, b
      ensures StringLe(a, b) || StringLe(b, a)
    {
      StringLeTotal(a, b);
    }
    forall a, b, c | StringLe(a, b) && StringLe(b, c)
      ensures StringLe(a, c)
    {
      StringLeTransitive(a, b, c);
    }
    forall i, j | 0 <= i < |xs| && 0 <= j < |xs| && StringLe(xs[i], xs[j]) && StringLe(xs[j], xs[i])
      ensures xs[i] == xs[j]
    {
      StringLeAntisymmetric(xs[i], xs[j]);
    }
  }

  // ----- permutations through filters and maps

  lemma {:induction false} FilterCounts<A(!new)>(p: A -> bool, xs: seq<A>, a: A)
    ensures multiset(Filter(p, xs))[a] == if p(a) then multiset(xs)[a] else 0
  {
    if xs != [] {
      FilterCounts(p, xs[1..], a);
      assert xs == [xs[0]] + xs[1..];
    }
  }

  lemma FilterPermutation<A(!new)>(p: A -> bool, xs: seq<A>, ys: seq<A>)
    requires multiset(xs) == multiset(ys)
    ensures multiset(Filter(p, xs)) == multiset(Filter(p, ys))
  {
    forall a
      ensures multiset(Filter(p, xs))[a] == multiset(Filter(p, ys))[a]
    {
      FilterCounts(p, xs, a);
      FilterCounts(p, ys, a);
    }
  }

  ghost predicate Injective<A(!new), B>(f: A -> B) {
    forall a, b :: f(a) == f(b) ==> a == b
  }

  lemma {:induction false} MapCounts<A(!new), B(!new)>(f: A -> B, xs: seq<A>, a: A)
    requires Injective(f)
    ensures multiset(Map(f, xs))[f(a)] == multiset(xs)[a]
  {
    if xs == [] {
      assert Map(f, xs) == [];
    } else {
      var n := |xs| - 1;
      MapCounts(f, xs[..n], a);
      assert xs == xs[..n] + [xs[n]];
      assert Map(f, xs) == Map(f, xs[..n]) + [f(xs[n])];
    }
  }

  /** An injective encoding keeps and reflects permutations. */
  lemma MapReflectsPermutation<A(!new), B(!new)>(f: A -> B, xs: seq<A>, ys: seq<A>)
    requires Injective(f)
    ensures multiset(Map(f, xs)) == multiset(Map(f, ys)) <==> multiset(xs) == multiset(ys)
  {
    if multiset(xs) == multiset(ys) {
      forall b
        ensures multiset(Map(f, xs))[b] == multiset(Map(f, ys))[b]
      {
        SameImageCount(f, xs, ys, b);
      }
    }
    if multiset(Map(f, xs)) == multiset(Map(f, ys)) {
      forall a
        ensures multiset(xs)[a] == multiset(ys)[a]
      {
        MapCounts(f, xs, a);
        MapCounts(f, ys, a);
      }
    }
  }

  lemma SameImageCount<A(!new), B(!new)>(f: A -> B, xs: seq<A>, ys: seq<A>, b: B)
    requires Injective(f) && multiset(xs) == multiset(ys)
    ensures multiset(Map(f, xs))[b] == multiset(Map(f, ys))[b]
  {
    if a :| f(a) == b {
      MapCounts(f, xs, a);
      MapCounts(f, ys, a);
    } else {
      assert b !in Map(f, xs) && b !in Map(f, ys);
      assert b !in multiset(Map(f, xs)) && b !in multiset(Map(f, ys));
    }
  }
}
