/** Shared vocabulary: optional values, results, and sums over finite sets. */
module Prelude {

  datatype Option<+T> = None | Some(value: T)

  datatype Result<+T, +E> = Ok(value: T) | Err(error: E)

  /** A column of a PATCH: the value sent, or the one that was there. */
  function Or<T>(sent: Option<T>, kept: T): T {
    if sent.Some? then sent.value else kept
  }

  /** The sum of f over a finite set, in whatever order the elements come. */
  ghost function SumOver<K(!new)>(s: set<K>, f: K -> int): int {
    if s == {} then 0 else
    var k :| k in s;
    f(k) + SumOver(s - {k}, f)
  }

  /** Any element may be split off first. */
  lemma {:induction false} SumSplit<K(!new)>(s: set<K>, k: K, f: K -> int)
    requires k in s
    ensures SumOver(s, f) == f(k) + SumOver(s - {k}, f)
    decreases s
  {
    var first :| first in s && SumOver(s, f) == f(first) + SumOver(s - {first}, f);
    if first != k {
      SumSplit(s - {first}, k, f);
      SumSplit(s - {k}, first, f);
      assert s - {first} - {k} == s - {k} - {first};
    }
  }

  /** Functions that agree on the set have the same sum over it. */
  lemma {:induction false} SumCongruent<K(!new)>(s: set<K>, f: K -> int, g: K -> int)
    requires forall k | k in s :: f(k) == g(k)
    ensures SumOver(s, f) == SumOver(s, g)
    decreases s
  {
    if s != {} {
      var k :| k in s;
      SumSplit(s, k, f);
      SumSplit(s, k, g);
      SumCongruent(s - {k}, f, g);
    }
  }
}
