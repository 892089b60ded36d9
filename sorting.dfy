/**
 * The `sort_by` calls of the Rust code all order by a small integer tier
 * first (ascending) and then by a size, a memory figure or a count
 * (descending).  `SortBy` is a stable insertion sort over that order, as
 * `slice::sort_by` is stable; `Take` is `truncate` / `take(n)`.
 */
module Sorting {

  /** Sort key: lower `tier` first; within a tier, higher `weight` first. */
  datatype Rank = Rank(tier: nat, weight: int)

  /** `a` may be placed before `b`. */
  predicate Precedes(a: Rank, b: Rank)
  {
    a.tier < b.tier || (a.tier == b.tier && a.weight >= b.weight)
  }

  predicate SortedBy<T>(s: seq<T>, rank: T -> Rank)
  {
    forall i, j :: 0 <= i < j < |s| ==> Precedes(rank(s[i]), rank(s[j]))
  }

  /** Puts `x` in front of the first element it may precede. */
  function Insert<T>(x: T, s: seq<T>, rank: T -> Rank): (r: seq<T>)
    ensures multiset(r) == multiset(s) + multiset{x}
    ensures SortedBy(s, rank) ==> SortedBy(r, rank)
  {
    if s == [] then [x]
    else if Precedes(rank(x), rank(s[0])) then
      PrependSorted(x, s, rank);
      [x] + s
    else
      var tail := Insert(x, s[1..], rank);
      assert s == [s[0]] + s[1..];
      ConsSorted(s[0], s[1..], x, tail, rank);
      [s[0]] + tail
  }

  lemma PrependSorted<T>(x: T, s: seq<T>, rank: T -> Rank)
    requires s != [] && Precedes(rank(x), rank(s[0]))
    ensures SortedBy(s, rank) ==> SortedBy([x] + s, rank)
  {
    if SortedBy(s, rank) {
      forall i, j | 0 <= i < j < |[x] + s|
        ensures Precedes(rank(([x] + s)[i]), rank(([x] + s)[j]))
      {
        if i == 0 && j > 1 {
          assert Precedes(rank(s[0]), rank(s[j - 1]));
        }
      }
    }
  }

  /** Keeping `y` in front of a sorted tail that gained `x`, when `x` may not precede `y`. */
  lemma ConsSorted<T>(y: T, rest: seq<T>, x: T, tail: seq<T>, rank: T -> Rank)
    requires !Precedes(rank(x), rank(y))
    requires multiset(tail) == multiset(rest) + multiset{x}
    requires SortedBy(rest, rank) ==> SortedBy(tail, rank)
    ensures SortedBy([y] + rest, rank) ==> SortedBy([y] + tail, rank)
  {
    if SortedBy([y] + rest, rank) {
      assert SortedBy(rest, rank) by {
        forall i, j | 0 <= i < j < |rest|
          ensures Precedes(rank(rest[i]), rank(rest[j]))
        {
          assert rest[i] == ([y] + rest)[i + 1] && rest[j] == ([y] + rest)[j + 1];
        }
      }
      forall z | z in tail
        ensures Precedes(rank(y), rank(z))
      {
        assert z in multiset(tail);
        if z != x {
          assert z in multiset(rest);
          var k :| 0 <= k < |rest| && rest[k] == z;
          assert ([y] + rest)[0] == y && ([y] + rest)[k + 1] == z;
          assert Precedes(rank(([y] + rest)[0]), rank(([y] + rest)[k + 1]));
        }
      }
      forall i, j | 0 <= i < j < |[y] + tail|
        ensures Precedes(rank(([y] + tail)[i]), rank(([y] + tail)[j]))
      {
        if i == 0 {
          assert ([y] + tail)[j] == tail[j - 1];
          assert tail[j - 1] in tail;
        } else {
          assert ([y] + tail)[i] == tail[i - 1] && ([y] + tail)[j] == tail[j - 1];
        }
      }
    }
  }

  /** Stable sort by `rank` (stability is `SortByStable`). */
  function SortBy<T>(s: seq<T>, rank: T -> Rank): (r: seq<T>)
    ensures SortedBy(r, rank)
    ensures multiset(r) == multiset(s)
    ensures |r| == |s|
  {
    if s == [] then []
    else
      assert s == [s[0]] + s[1..];
      Insert(s[0], SortBy(s[1..], rank), rank)
  }

  /** The elements of `s` whose rank is `v`, in their order in `s`. */
  function WithRank<T>(s: seq<T>, rank: T -> Rank, v: Rank): seq<T>
  {
    if s == [] then [] else (if rank(s[0]) == v then [s[0]] else []) + WithRank(s[1..], rank, v)
  }

  /**
   * Inserting `x` passes over only elements of another rank, so among the
   * elements of any one rank `x` comes first and the others keep their order.
   */
  lemma {:induction false} InsertStable<T>(x: T, t: seq<T>, rank: T -> Rank, v: Rank)
    ensures WithRank(Insert(x, t, rank), rank, v) == (if rank(x) == v then [x] else []) + WithRank(t, rank, v)
  {
    if t == [] {
      WithRankCons(x, [], rank, v);
      assert [x] + [] == [x];
    } else if Precedes(rank(x), rank(t[0])) {
      WithRankCons(x, t, rank, v);
    } else {
      InsertStable(x, t[1..], rank, v);
      InsertPastStable(x, t, rank, v);
    }
  }

  /** `InsertStable` when `x` goes past the head of `t`, given that it holds for the tail. */
  lemma InsertPastStable<T>(x: T, t: seq<T>, rank: T -> Rank, v: Rank)
    requires t != [] && !Precedes(rank(x), rank(t[0]))
    requires WithRank(Insert(x, t[1..], rank), rank, v) == (if rank(x) == v then [x] else []) + WithRank(t[1..], rank, v)
    ensures WithRank(Insert(x, t, rank), rank, v) == (if rank(x) == v then [x] else []) + WithRank(t, rank, v)
  {
    var tail := Insert(x, t[1..], rank);
    InsertPast(x, t, rank);
    WithRankCons(t[0], tail, rank, v);
    assert rank(t[0]) != rank(x);
    if rank(x) == v {
      assert WithRank(Insert(x, t, rank), rank, v) == WithRank(tail, rank, v);
      assert WithRank(t, rank, v) == WithRank(t[1..], rank, v);
    } else {
      assert WithRank(tail, rank, v) == WithRank(t[1..], rank, v);
    }
  }

  /** When `x` may not precede the head of `t`, the head stays in front. */
  lemma InsertPast<T>(x: T, t: seq<T>, rank: T -> Rank)
    requires t != [] && !Precedes(rank(x), rank(t[0]))
    ensures Insert(x, t, rank) == [t[0]] + Insert(x, t[1..], rank)
  {
  }

  lemma WithRankCons<T>(y: T, t: seq<T>, rank: T -> Rank, v: Rank)
    ensures WithRank([y] + t, rank, v) == (if rank(y) == v then [y] else []) + WithRank(t, rank, v)
  {
    assert ([y] + t)[0] == y && ([y] + t)[1..] == t;
  }

  /**
   * `SortBy` is stable: for every rank, the elements of that rank appear in
   * the result in the order they had in the input.
   */
  lemma {:induction false} SortByStable<T>(s: seq<T>, rank: T -> Rank, v: Rank)
    ensures WithRank(SortBy(s, rank), rank, v) == WithRank(s, rank, v)
  {
    if s != [] {
      SortByStable(s[1..], rank, v);
      InsertStable(s[0], SortBy(s[1..], rank), rank, v);
    }
  }

  /** `truncate(n)` and `into_iter().take(n)`: the first `n` elements, or all of them. */
  function Take<T>(s: seq<T>, n: nat): (r: seq<T>)
  {
    if |s| <= n then s else s[..n]
  }

  lemma TakeSorted<T>(s: seq<T>, n: nat, rank: T -> Rank)
    requires SortedBy(s, rank)
    ensures SortedBy(Take(s, n), rank)
  {
  }

  /** Sum of `f` over a sequence. */
  function Sum<T>(s: seq<T>, f: T -> int): int
  {
    if s == [] then 0 else f(s[0]) + Sum(s[1..], f)
  }

  lemma {:induction false} SumConcat<T>(a: seq<T>, b: seq<T>, f: T -> int)
    ensures Sum(a + b, f) == Sum(a, f) + Sum(b, f)
  {
    if a != [] {
      assert (a + b)[1..] == a[1..] + b;
      SumConcat(a[1..], b, f);
    } else {
      assert a + b == b;
    }
  }

  /** Removing one element takes its value out of the sum. */
  lemma SumRemove<T>(s: seq<T>, i: nat, f: T -> int)
    requires i < |s|
    ensures Sum(s, f) == f(s[i]) + Sum(s[..i] + s[i + 1..], f)
  {
    assert s == s[..i] + [s[i]] + s[i + 1..];
    SumConcat(s[..i] + [s[i]], s[i + 1..], f);
    SumConcat(s[..i], [s[i]], f);
    SumConcat(s[..i], s[i + 1..], f);
  }

  lemma MultisetRemove<T>(b: seq<T>, i: nat)
    requires i < |b|
    ensures multiset(b[..i] + b[i + 1..]) == multiset(b) - multiset{b[i]}
  {
    assert b == b[..i] + [b[i]] + b[i + 1..];
  }

  /** Reordering does not change a sum. */
  lemma {:induction false} SumPermutation<T>(a: seq<T>, b: seq<T>, f: T -> int)
    requires multiset(a) == multiset(b)
    ensures Sum(a, f) == Sum(b, f)
    decreases |a|
  {
    if a == [] {
      assert |b| == |multiset(b)| == 0;
    } else {
      assert a[0] in multiset(b);
      var i :| 0 <= i < |b| && b[i] == a[0];
      var b' := b[..i] + b[i + 1..];
      MultisetRemove(b, i);
      assert a == [a[0]] + a[1..];
      assert multiset(a[1..]) == multiset(a) - multiset{a[0]};
      SumPermutation(a[1..], b', f);
      SumRemove(b, i, f);
    }
  }
}
