/**
 * Iteration over a `HashMap`: every key once, in an order the model does
 * not fix.
 */
module Maps {

  predicate Distinct<K(==)>(s: seq<K>)
  {
    forall i, j :: 0 <= i < j < |s| ==> s[i] != s[j]
  }

  /** A distinct sequence holds each value at most once. */
  lemma {:induction false} DistinctAtMostOnce<T>(s: seq<T>, x: T)
    requires Distinct(s)
    ensures multiset(s)[x] <= 1
  {
    if s != [] {
      var rest := s[1..];
      assert s == [s[0]] + rest;
      assert forall i :: 0 <= i < |rest| ==> rest[i] == s[i + 1];
      DistinctAtMostOnce(rest, x);
      assert s[0] !in rest;
    }
  }

  /** A reordering of a distinct sequence is distinct. */
  lemma DistinctPermutation<T>(a: seq<T>, b: seq<T>)
    requires Distinct(a) && multiset(a) == multiset(b)
    ensures Distinct(b)
  {
    forall i, j | 0 <= i < j < |b|
      ensures b[i] != b[j]
    {
      DistinctAtMostOnce(a, b[i]);
      assert b == b[..i] + [b[i]] + b[i + 1..j] + [b[j]] + b[j + 1..];
      assert multiset([b[i], b[j]]) <= multiset(b);
    }
  }

  /** The keys of `m` in some order, each exactly once. */
  method KeysInSomeOrder<K, V>(m: map<K, V>) returns (keys: seq<K>)
    ensures Distinct(keys)
    ensures forall k :: k in keys <==> k in m
  {
    keys := [];
    var todo := m.Keys;
    while todo != {}
      invariant todo <= m.Keys
      invariant Distinct(keys)
      invariant forall k :: k in keys <==> k in m && k !in todo
      decreases |todo|
    {
      var k :| k in todo;
      keys := keys + [k];
      todo := todo - {k};
    }
  }
}
