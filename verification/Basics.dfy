/** Small collections helpers shared by the model: options, sums over finite maps,
    order-preserving subsequences and filters. */
module Basics {

  datatype Option<+T> = None | Some(value: T)

  function Max(a: int, b: int): int { if a < b then b else a }

  /** The sum of the values of a finite map. */
  ghost function SumMap<K(!new)>(m: map<K, nat>): nat
    decreases |m|
  {
    if m == map[] then 0 else
      var k :| k in m;
      m[k] + SumMap(m - {k})
  }

  lemma {:induction false} SumMapRemove<K(!new)>(m: map<K, nat>, k: K)
    requires k in m
    ensures SumMap(m) == m[k] + SumMap(m - {k})
    decreases |m|
  {
    var j :| j in m && SumMap(m) == m[j] + SumMap(m - {j});
    if j != k {
      SumMapRemove(m - {j}, k);
      SumMapRemove(m - {k}, j);
      assert m - {j} - {k} == m - {k} - {j};
    }
  }

  lemma SumMapSet<K(!new)>(m: map<K, nat>, k: K, v: nat)
    ensures SumMap(m[k := v]) == SumMap(m) + v - (if k in m then m[k] else 0)
  {
    var m' := m[k := v];
    SumMapRemove(m', k);
    if k in m {
      SumMapRemove(m, k);
      assert m' - {k} == m - {k};
    } else {
      assert m' - {k} == m;
    }
  }

  lemma {:induction false} SumMapZero<K(!new)>(m: map<K, nat>)
    ensures SumMap(m) == 0 <==> forall k :: k in m ==> m[k] == 0
    decreases |m|
  {
    if m != map[] {
      var j :| j in m && SumMap(m) == m[j] + SumMap(m - {j});
      SumMapZero(m - {j});
      assert forall k :: k in m ==> k == j || k in m - {j};
    }
  }

  /** `a` arises from `b` by deleting elements, keeping the order of the rest. */
  ghost predicate Subsequence<T(!new)>(a: seq<T>, b: seq<T>) {
    a == [] || (b != [] &&
      ((a[|a| - 1] == b[|b| - 1] && Subsequence(a[..|a| - 1], b[..|b| - 1]))
       || Subsequence(a, b[..|b| - 1])))
  }

  lemma {:induction false} SubsequencePrefix<T(!new)>(a: seq<T>, b: seq<T>, k: nat)
    requires Subsequence(a, b) && k <= |a|
    ensures Subsequence(a[..k], b)
    decreases |b|
  {
    if k == |a| {
      assert a[..k] == a;
    } else if k > 0 {
      if a[|a| - 1] == b[|b| - 1] && Subsequence(a[..|a| - 1], b[..|b| - 1]) {
        SubsequencePrefix(a[..|a| - 1], b[..|b| - 1], k);
        assert a[..|a| - 1][..k] == a[..k];
      } else {
        SubsequencePrefix(a, b[..|b| - 1], k);
      }
      assert Subsequence(a[..k], b[..|b| - 1]);
    }
  }

  lemma {:induction false} SubsequenceSuffix<T(!new)>(a: seq<T>, b: seq<T>, k: nat)
    requires Subsequence(a, b) && k <= |a|
    ensures Subsequence(a[k..], b)
    decreases |b|
  {
    if k < |a| {
      var a' := a[k..];
      if a[|a| - 1] == b[|b| - 1] && Subsequence(a[..|a| - 1], b[..|b| - 1]) {
        SubsequenceSuffix(a[..|a| - 1], b[..|b| - 1], k);
        assert a[..|a| - 1][k..] == a'[..|a'| - 1];
      } else {
        SubsequenceSuffix(a, b[..|b| - 1], k);
      }
    }
  }

  lemma SubsequenceAppend<T(!new)>(a: seq<T>, b: seq<T>, x: T)
    requires Subsequence(a, b)
    ensures Subsequence(a, b + [x]) && Subsequence(a + [x], b + [x])
  {
    assert (b + [x])[..|b|] == b && (a + [x])[..|a|] == a;
  }

  // ----- multiplicities -----

  lemma MultisetSnoc<T>(s: seq<T>, x: T, y: T)
    ensures multiset(s + [x])[y] == multiset(s)[y] + (if x == y then 1 else 0)
  {
  }

  /** Elementwise images under an injective function keep multiplicities. */
  lemma {:induction false} ImageCounts<T, U>(f: T -> U, s: seq<T>, t: seq<U>, x: T)
    requires |t| == |s| && (forall i :: 0 <= i < |s| ==> t[i] == f(s[i]))
    requires forall y :: f(y) == f(x) ==> y == x
    ensures multiset(t)[f(x)] == multiset(s)[x]
  {
    if s != [] {
      var k := |s| - 1;
      assert s == s[..k] + [s[k]] && t == t[..k] + [t[k]];
      ImageCounts(f, s[..k], t[..k], x);
      MultisetSnoc(s[..k], s[k], x);
      MultisetSnoc(t[..k], t[k], f(x));
    }
  }
}
