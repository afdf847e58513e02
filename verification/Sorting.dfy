/**
 * sort.SliceStable as a function. Any stable sorting of the same sequence by the same strict weak
 * order gives the same result, so nothing depends on the algorithm the library uses.
 */
module Sorting {

  ghost predicate StrictWeak<T(!new)>(less: (T, T) -> bool) {
    && (forall a :: !less(a, a))
    && (forall a, b, c :: less(a, b) && less(b, c) ==> less(a, c))
    && (forall a, b, c :: !less(a, b) && !less(b, c) ==> !less(a, c))
  }

  /** Neither comes first. */
  predicate Level<T>(less: (T, T) -> bool, a: T, b: T) {
    !less(a, b) && !less(b, a)
  }

  function Insert<T>(x: T, s: seq<T>, less: (T, T) -> bool): seq<T> {
    if s != [] && less(s[0], x) then [s[0]] + Insert(x, s[1..], less) else [x] + s
  }

  function StableSort<T>(s: seq<T>, less: (T, T) -> bool): seq<T> {
    if s == [] then [] else Insert(s[0], StableSort(s[1..], less), less)
  }

  ghost predicate Sorted<T>(s: seq<T>, less: (T, T) -> bool) {
    forall i, j | 0 <= i < j < |s| :: !less(s[j], s[i])
  }

  /** The elements level with c, in their order. */
  function LevelWith<T>(s: seq<T>, c: T, less: (T, T) -> bool): seq<T> {
    if s == [] then [] else
    (if Level(less, s[0], c) then [s[0]] else []) + LevelWith(s[1..], c, less)
  }

  lemma {:induction false} InsertKeepsElements<T>(x: T, s: seq<T>, less: (T, T) -> bool)
    ensures multiset(Insert(x, s, less)) == multiset{x} + multiset(s)
  {
    if s != [] && less(s[0], x) {
      InsertKeepsElements(x, s[1..], less);
      assert s == [s[0]] + s[1..];
    }
  }

  lemma {:induction false} InsertSorts<T(!new)>(x: T, s: seq<T>, less: (T, T) -> bool)
    requires StrictWeak(less) && Sorted(s, less)
    ensures Sorted(Insert(x, s, less), less)
  {
    if s != [] && less(s[0], x) {
      var rest := Insert(x, s[1..], less);
      InsertSorts(x, s[1..], less);
      InsertKeepsElements(x, s[1..], less);
      forall y | y in rest
        ensures !less(y, s[0])
      {
        assert y in multiset(rest);
        assert y == x || y in s[1..];
      }
    }
  }

  /** The result is in order. */
  lemma {:induction false} StableSortSorts<T(!new)>(s: seq<T>, less: (T, T) -> bool)
    requires StrictWeak(less)
    ensures Sorted(StableSort(s, less), less)
  {
    if s != [] {
      StableSortSorts(s[1..], less);
      InsertSorts(s[0], StableSort(s[1..], less), less);
    }
  }

  /** And a permutation of what was given. */
  lemma {:induction false} StableSortPermutes<T>(s: seq<T>, less: (T, T) -> bool)
    ensures multiset(StableSort(s, less)) == multiset(s)
  {
    if s != [] {
      StableSortPermutes(s[1..], less);
      InsertKeepsElements(s[0], StableSort(s[1..], less), less);
      assert s == [s[0]] + s[1..];
    }
  }

  lemma {:induction false} InsertIsStable<T(!new)>(x: T, s: seq<T>, c: T, less: (T, T) -> bool)
    requires StrictWeak(less)
    ensures LevelWith(Insert(x, s, less), c, less) == LevelWith([x] + s, c, less)
  {
    if s != [] && less(s[0], x) {
      InsertIsStable(x, s[1..], c, less);
      assert ([s[0]] + Insert(x, s[1..], less))[1..] == Insert(x, s[1..], less);
      assert ([x] + s)[1..] == s && ([x] + s[1..])[1..] == s[1..];
    }
  }

  /** Elements that are level keep their order. */
  lemma {:induction false} StableSortIsStable<T(!new)>(s: seq<T>, c: T, less: (T, T) -> bool)
    requires StrictWeak(less)
    ensures LevelWith(StableSort(s, less), c, less) == LevelWith(s, c, less)
  {
    if s != [] {
      StableSortIsStable(s[1..], c, less);
      InsertIsStable(s[0], StableSort(s[1..], less), c, less);
      assert ([s[0]] + StableSort(s[1..], less))[1..] == StableSort(s[1..], less);
    }
  }

  lemma {:induction false} LevelWithMember<T>(s: seq<T>, c: T, x: T, less: (T, T) -> bool)
    requires x in LevelWith(s, c, less)
    ensures x in s && Level(less, x, c)
  {
    if !(Level(less, s[0], c) && x == s[0]) { LevelWithMember(s[1..], c, x, less); }
  }

  /** Being sorted and having the same level runs leaves no freedom at all. */
  lemma {:induction false} SortedStableIsUnique<T(!new)>(a: seq<T>, b: seq<T>, less: (T, T) -> bool)
    requires StrictWeak(less) && Sorted(a, less) && Sorted(b, less)
    requires forall c :: LevelWith(a, c, less) == LevelWith(b, c, less)
    ensures a == b
  {
    if b != [] {
      assert LevelWith(b, b[0], less)[0] == b[0];
      LevelWithMember(a, b[0], b[0], less);
    }
    if a != [] {
      assert LevelWith(a, a[0], less)[0] == a[0];
      LevelWithMember(b, a[0], a[0], less);
      assert Level(less, b[0], a[0]);
      assert LevelWith(b, a[0], less)[0] == b[0];
      forall c
        ensures LevelWith(a[1..], c, less) == LevelWith(b[1..], c, less)
      {
        assert LevelWith(a, c, less) == LevelWith(b, c, less);
        var front := if Level(less, a[0], c) then [a[0]] else [];
        assert LevelWith(a, c, less) == front + LevelWith(a[1..], c, less);
        assert LevelWith(b, c, less) == front + LevelWith(b[1..], c, less);
        assert LevelWith(a[1..], c, less) == LevelWith(a, c, less)[|front|..];
        assert LevelWith(b[1..], c, less) == LevelWith(b, c, less)[|front|..];
      }
      SortedStableIsUnique(a[1..], b[1..], less);
      assert a == [a[0]] + a[1..] && b == [b[0]] + b[1..];
    }
  }

  /** So whatever sorts stably sorts like this. */
  lemma AnyStableSortIsThisOne<T(!new)>(s: seq<T>, sorted: seq<T>, less: (T, T) -> bool)
    requires StrictWeak(less) && Sorted(sorted, less)
    requires forall c :: LevelWith(sorted, c, less) == LevelWith(s, c, less)
    ensures sorted == StableSort(s, less)
  {
    StableSortSorts(s, less);
    forall c
      ensures LevelWith(sorted, c, less) == LevelWith(StableSort(s, less), c, less)
    {
      StableSortIsStable(s, c, less);
    }
    SortedStableIsUnique(sorted, StableSort(s, less), less);
  }

  /** Under a total order the multiset alone decides: level runs are copies of one element. */
  lemma {:induction false} LevelRunIsCopies<T(!new)>(s: seq<T>, c: T, less: (T, T) -> bool)
    requires forall a, b :: Level(less, a, b) ==> a == b
    requires StrictWeak(less)
    ensures LevelWith(s, c, less) == seq(multiset(s)[c], _ => c)
  {
    if s != [] {
      LevelRunIsCopies(s[1..], c, less);
      assert s == [s[0]] + s[1..];
      assert multiset(s)[c] == (if s[0] == c then 1 else 0) + multiset(s[1..])[c];
    }
  }

  lemma TotalSortDependsOnElements<T(!new)>(s: seq<T>, t: seq<T>, less: (T, T) -> bool)
    requires StrictWeak(less)
    requires forall a, b :: Level(less, a, b) ==> a == b
    ensures multiset(s) == multiset(t) <==> StableSort(s, less) == StableSort(t, less)
  {
    StableSortPermutes(s, less);
    StableSortPermutes(t, less);
    if multiset(s) == multiset(t) {
      StableSortSorts(s, less);
      forall c
        ensures LevelWith(StableSort(s, less), c, less) == LevelWith(t, c, less)
      {
        StableSortIsStable(s, c, less);
        LevelRunIsCopies(s, c, less);
        LevelRunIsCopies(t, c, less);
      }
      AnyStableSortIsThisOne(t, StableSort(s, less), less);
    }
  }
}
