/** Sums over sequences: order does not matter, and grouping loses nothing. */
module Sums {

  function SumSeq<T>(s: seq<T>, f: T -> int): int {
    if s == [] then 0 else SumSeq(s[..|s| - 1], f) + f(s[|s| - 1])
  }

  lemma SumSnoc<T>(s: seq<T>, x: T, f: T -> int)
    ensures SumSeq(s + [x], f) == SumSeq(s, f) + f(x)
  {
    assert (s + [x])[..|s|] == s;
  }

  lemma {:induction false} SumConcat<T>(s: seq<T>, t: seq<T>, f: T -> int)
    ensures SumSeq(s + t, f) == SumSeq(s, f) + SumSeq(t, f)
  {
    if t == [] {
      assert s + t == s;
    } else {
      assert (s + t)[..|s + t| - 1] == s + t[..|t| - 1];
      SumConcat(s, t[..|t| - 1], f);
    }
  }

  lemma {:induction false} SumSame<T>(s: seq<T>, f: T -> int, g: T -> int)
    requires forall x | x in s :: f(x) == g(x)
    ensures SumSeq(s, f) == SumSeq(s, g)
  {
    if s != [] { SumSame(s[..|s| - 1], f, g); }
  }

  lemma {:induction false} SumAtMost<T>(s: seq<T>, f: T -> int, g: T -> int, h: T -> int)
    requires forall x | x in s :: f(x) <= g(x) + h(x)
    ensures SumSeq(s, f) <= SumSeq(s, g) + SumSeq(s, h)
  {
    if s != [] { SumAtMost(s[..|s| - 1], f, g, h); }
  }

  lemma SumAround<T>(a: seq<T>, x: T, b: seq<T>, f: T -> int)
    ensures SumSeq(a + [x] + b, f) == SumSeq(a + b, f) + f(x)
  {
    hide SumSeq;
    SumConcat(a, b, f);
    SumConcat(a + [x], b, f);
    SumSnoc(a, x, f);
  }

  lemma SumWithout<T>(t: seq<T>, i: nat, f: T -> int)
    requires i < |t|
    ensures SumSeq(t, f) == SumSeq(t[..i] + t[i + 1..], f) + f(t[i])
  {
    hide SumSeq;
    assert t == t[..i] + [t[i]] + t[i + 1..];
    SumAround(t[..i], t[i], t[i + 1..], f);
  }

  lemma ElementsWithout<T>(t: seq<T>, i: nat)
    requires i < |t|
    ensures multiset(t[..i] + t[i + 1..]) == multiset(t) - multiset{t[i]}
  {
    assert t == t[..i] + [t[i]] + t[i + 1..];
  }

  /** Permuting the terms does not change the sum. */
  lemma {:induction false} SumPermutes<T>(s: seq<T>, t: seq<T>, f: T -> int)
    requires multiset(s) == multiset(t)
    ensures SumSeq(s, f) == SumSeq(t, f)
  {
    if s == [] {
      assert |multiset(t)| == 0;
    } else {
      hide SumSeq;
      var n := |s| - 1;
      assert s[n] in multiset(t);
      var i :| 0 <= i < |t| && t[i] == s[n];
      SumWithout(t, i, f);
      SumWithout(s, n, f);
      ElementsWithout(t, i);
      ElementsWithout(s, n);
      assert s[..n] + s[n + 1..] == s[..n];
      SumPermutes(s[..n], t[..i] + t[i + 1..], f);
    }
  }

  /** The value of an element if it belongs to k, and nothing otherwise. */
  function Belonging<T, K(==)>(keyOf: T -> K, value: T -> int, k: K): T -> int {
    t => if keyOf(t) == k then value(t) else 0
  }

  /** What belongs to each key. */
  function Grouped<T, K(==)>(s: seq<T>, keyOf: T -> K, value: T -> int): K -> int {
    k => SumSeq(s, Belonging(keyOf, value, k))
  }

  ghost predicate Distinct<K>(keys: seq<K>) {
    forall i, j | 0 <= i < j < |keys| :: keys[i] != keys[j]
  }

  function OnlyAt<K(==)>(k: K, v: int): K -> int {
    j => if j == k then v else 0
  }

  lemma {:induction false} SumOnlyAt<K>(keys: seq<K>, k: K, v: int)
    requires Distinct(keys)
    ensures SumSeq(keys, OnlyAt(k, v)) == if k in keys then v else 0
  {
    if keys != [] {
      var front := keys[..|keys| - 1];
      SumOnlyAt(front, k, v);
      assert keys == front + [keys[|keys| - 1]];
    }
  }

  lemma {:induction false} SumAdds<K>(keys: seq<K>, f: K -> int, g: K -> int, h: K -> int)
    requires forall k | k in keys :: h(k) == f(k) + g(k)
    ensures SumSeq(keys, h) == SumSeq(keys, f) + SumSeq(keys, g)
  {
    if keys != [] { SumAdds(keys[..|keys| - 1], f, g, h); }
  }

  /** Grouping by keys that cover every element conserves the sum. */
  lemma {:induction false} GroupingConserves<T, K>(s: seq<T>, keys: seq<K>, keyOf: T -> K, value: T -> int)
    requires Distinct(keys)
    requires forall t | t in s :: keyOf(t) in keys
    ensures SumSeq(keys, Grouped(s, keyOf, value)) == SumSeq(s, value)
  {
    if s == [] {
      SumOfZeros(keys, Grouped(s, keyOf, value));
    } else {
      var front, x := s[..|s| - 1], s[|s| - 1];
      GroupingConserves(front, keys, keyOf, value);
      SumOnlyAt(keys, keyOf(x), value(x));
      SumAdds(keys, Grouped(front, keyOf, value), OnlyAt(keyOf(x), value(x)), Grouped(s, keyOf, value));
    }
  }

  lemma {:induction false} SumOfZeros<K>(keys: seq<K>, f: K -> int)
    requires forall k | k in keys :: f(k) == 0
    ensures SumSeq(keys, f) == 0
  {
    if keys != [] { SumOfZeros(keys[..|keys| - 1], f); }
  }

  /** A map applied along a sequence. */
  function Mapped<T, U>(s: seq<T>, f: T -> U): (r: seq<U>)
    ensures |r| == |s| && forall i | 0 <= i < |s| :: r[i] == f(s[i])
  {
    seq(|s|, i requires 0 <= i < |s| => f(s[i]))
  }

  /** Two sequences that agree place by place have the same sum. */
  lemma {:induction false} SumAlong<T, U>(s: seq<T>, t: seq<U>, f: T -> int, g: U -> int)
    requires |s| == |t| && forall i | 0 <= i < |s| :: f(s[i]) == g(t[i])
    ensures SumSeq(s, f) == SumSeq(t, g)
  {
    if s != [] { SumAlong(s[..|s| - 1], t[..|t| - 1], f, g); }
  }

  // ----- grouping -----

  /** The keys of s in the order they are first met. */
  function KeysOf<T, K(==)>(s: seq<T>, keyOf: T -> K): seq<K> {
    if s == [] then [] else
    var keys := KeysOf(s[..|s| - 1], keyOf);
    var k := keyOf(s[|s| - 1]);
    if k in keys then keys else keys + [k]
  }

  /** Each key once, and exactly the keys there are. */
  lemma {:induction false} KeysOfIsExact<T(!new), K(!new)>(s: seq<T>, keyOf: T -> K)
    ensures Distinct(KeysOf(s, keyOf))
    ensures forall t | t in s :: keyOf(t) in KeysOf(s, keyOf)
    ensures forall k | k in KeysOf(s, keyOf) :: exists t :: t in s && keyOf(t) == k
  {
    if s != [] {
      var front, x := s[..|s| - 1], s[|s| - 1];
      KeysOfIsExact(front, keyOf);
      assert s == front + [x];
      forall k | k in KeysOf(s, keyOf)
        ensures exists t :: t in s && keyOf(t) == k
      {
        if k in KeysOf(front, keyOf) {
          var t :| t in front && keyOf(t) == k;
          assert t in s;
        } else {
          assert x in s;
        }
      }
    }
  }

  /** The elements with key k, in their order. */
  function Those<T, K(==)>(s: seq<T>, keyOf: T -> K, k: K): seq<T> {
    if s == [] then [] else
    Those(s[..|s| - 1], keyOf, k) + (if keyOf(s[|s| - 1]) == k then [s[|s| - 1]] else [])
  }

  lemma {:induction false} ThoseAreThere<T, K>(s: seq<T>, keyOf: T -> K, k: K)
    ensures Those(s, keyOf, k) != [] <==> k in KeysOf(s, keyOf)
    ensures forall t | t in Those(s, keyOf, k) :: t in s && keyOf(t) == k
  {
    if s != [] {
      ThoseAreThere(s[..|s| - 1], keyOf, k);
    }
  }

  /** Summing one key's elements is summing what belongs to it. */
  lemma {:induction false} ThoseSum<T, K>(s: seq<T>, keyOf: T -> K, k: K, value: T -> int)
    ensures SumSeq(Those(s, keyOf, k), value) == Grouped(s, keyOf, value)(k)
  {
    if s != [] {
      ThoseSum(s[..|s| - 1], keyOf, k, value);
      SumConcat(Those(s[..|s| - 1], keyOf, k), if keyOf(s[|s| - 1]) == k then [s[|s| - 1]] else [], value);
    }
  }

  lemma {:induction false} ThoseCount<T, K>(s: seq<T>, keyOf: T -> K, k: K, t: T)
    ensures multiset(Those(s, keyOf, k))[t] == if keyOf(t) == k then multiset(s)[t] else 0
  {
    if s != [] {
      ThoseCount(s[..|s| - 1], keyOf, k, t);
      assert s == s[..|s| - 1] + [s[|s| - 1]];
    }
  }

  /** A group has the same elements however the whole is arranged. */
  lemma ThosePermute<T(!new), K(!new)>(s: seq<T>, t: seq<T>, keyOf: T -> K, k: K)
    requires multiset(s) == multiset(t)
    ensures multiset(Those(s, keyOf, k)) == multiset(Those(t, keyOf, k))
  {
    forall x
      ensures multiset(Those(s, keyOf, k))[x] == multiset(Those(t, keyOf, k))[x]
    {
      ThoseCount(s, keyOf, k, x);
      ThoseCount(t, keyOf, k, x);
    }
  }

  lemma {:induction false} NoneOfThose<T, K>(s: seq<T>, keyOf: T -> K, k: K)
    requires forall t | t in s :: keyOf(t) != k
    ensures Those(s, keyOf, k) == []
  {
    if s != [] { NoneOfThose(s[..|s| - 1], keyOf, k); }
  }

  /** The first of a group is the first element of the whole with that key. */
  lemma {:induction false} FirstOfThose<T, K>(s: seq<T>, keyOf: T -> K, i: nat)
    requires i < |s| && forall j | 0 <= j < i :: keyOf(s[j]) != keyOf(s[i])
    ensures Those(s, keyOf, keyOf(s[i])) != [] && Those(s, keyOf, keyOf(s[i]))[0] == s[i]
  {
    var front := s[..|s| - 1];
    if i < |front| {
      FirstOfThose(front, keyOf, i);
    } else {
      NoneOfThose(front, keyOf, keyOf(s[i]));
    }
  }

  /** Summing group by group, the groups taken in any order, conserves the sum. */
  lemma GroupSumsConserve<T(!new), K(!new)>(s: seq<T>, keyOf: T -> K, value: T -> int, sums: K -> int)
    requires forall k | k in KeysOf(s, keyOf) :: sums(k) == SumSeq(Those(s, keyOf, k), value)
    ensures SumSeq(KeysOf(s, keyOf), sums) == SumSeq(s, value)
  {
    KeysOfIsExact(s, keyOf);
    forall k | k in KeysOf(s, keyOf)
      ensures sums(k) == Grouped(s, keyOf, value)(k)
    {
      ThoseSum(s, keyOf, k, value);
    }
    SumSame(KeysOf(s, keyOf), sums, Grouped(s, keyOf, value));
    GroupingConserves(s, KeysOf(s, keyOf), keyOf, value);
  }
}
