/** Sequence operations on the ticket pool: the index-filter that removes the
    drawn ticket, duplicate-freedom, and the mapping of a random fraction to
    an index of the pool. */
module Pool {

  /** No element occurs twice in `s`. */
  predicate Distinct<T(==)>(s: seq<T>) {
    forall i, j :: 0 <= i < j < |s| ==> s[i] != s[j]
  }

  /** The elements `s[k]` whose position `from + k` differs from `drop`, in
      their original order: `s.filter((_, idx) => idx !== drop)` when `from`
      is 0, with `from` the position of `s[0]` in the array being filtered. */
  function FilterIndex<T>(s: seq<T>, drop: int, from: int): (r: seq<T>)
    ensures |r| <= |s|
    decreases |s|
  {
    if s == [] then []
    else (if from == drop then [] else [s[0]]) + FilterIndex(s[1..], drop, from + 1)
  }

  /** The array filter of the draw: every element except the one at index `i`.
      A valid index is cut out of the pool; any other index removes nothing. */
  function RemoveAt<T>(s: seq<T>, i: int): (r: seq<T>)
    ensures 0 <= i < |s| ==> r == s[..i] + s[i + 1..]
    ensures i < 0 || |s| <= i ==> r == s
  {
    if 0 <= i < |s| then
      FilterIndexCut(s, i, 0);
      FilterIndex(s, i, 0)
    else
      FilterIndexMiss(s, i, 0);
      FilterIndex(s, i, 0)
  }

  /** Filtering out a position that lies outside the window keeps everything. */
  lemma {:induction false} FilterIndexMiss<T>(s: seq<T>, drop: int, from: int)
    requires drop < from || from + |s| <= drop
    ensures FilterIndex(s, drop, from) == s
    decreases |s|
  {
    if s != [] {
      FilterIndexMiss(s[1..], drop, from + 1);
      assert [s[0]] + s[1..] == s;
    }
  }

  /** Filtering out a position inside the window cuts out exactly that element. */
  lemma {:induction false} FilterIndexCut<T>(s: seq<T>, drop: int, from: int)
    requires from <= drop < from + |s|
    ensures FilterIndex(s, drop, from) == s[..drop - from] + s[drop - from + 1..]
    decreases |s|
  {
    if from == drop {
      FilterIndexMiss(s[1..], drop, from + 1);
    } else {
      FilterIndexCut(s[1..], drop, from + 1);
      assert s[1..][..drop - from - 1] == s[1..drop - from];
      assert s[1..][drop - from..] == s[drop - from + 1..];
      assert [s[0]] + s[1..drop - from] == s[..drop - from];
    }
  }

  /** The filter with a valid index equals the slice-based reference definition:
      the prefix before `i` followed by the suffix after it. */
  lemma RemoveAtIsSlice<T>(s: seq<T>, i: int)
    requires 0 <= i < |s|
    ensures RemoveAt(s, i) == s[..i] + s[i + 1..]
  {
    FilterIndexCut(s, i, 0);
  }

  /** The filter with an index outside the pool removes nothing. */
  lemma RemoveAtOutOfRange<T>(s: seq<T>, i: int)
    requires i < 0 || |s| <= i
    ensures RemoveAt(s, i) == s
  {
    FilterIndexMiss(s, i, 0);
  }

  /** Removing index `i` shortens the pool by one, keeps the other elements in
      order, and takes exactly one copy of `s[i]` out of the multiset. */
  lemma RemoveAtFacts<T>(s: seq<T>, i: int)
    requires 0 <= i < |s|
    ensures |RemoveAt(s, i)| == |s| - 1
    ensures forall k :: 0 <= k < i ==> RemoveAt(s, i)[k] == s[k]
    ensures forall k :: i <= k < |s| - 1 ==> RemoveAt(s, i)[k] == s[k + 1]
    ensures multiset(RemoveAt(s, i)) + multiset{s[i]} == multiset(s)
  {
    RemoveAtIsSlice(s, i);
    assert s == s[..i] + [s[i]] + s[i + 1..];
  }

  /** On a duplicate-free pool, the removed element is gone and the rest stays
      duplicate-free. */
  lemma RemoveAtDistinct<T>(s: seq<T>, i: int)
    requires 0 <= i < |s| && Distinct(s)
    ensures Distinct(RemoveAt(s, i))
    ensures s[i] !in RemoveAt(s, i)
    ensures forall x :: x in RemoveAt(s, i) ==> x in s
  {
    RemoveAtFacts(s, i);
    var r := RemoveAt(s, i);
    // position k of r holds the element at position k (before i) or k + 1 (from i on) of s
    forall k | 0 <= k < |r|
      ensures r[k] == s[if k < i then k else k + 1]
    {
    }
    forall x | x in r
      ensures x in s && x != s[i]
    {
      var k :| 0 <= k < |r| && r[k] == x;
      assert r[k] == s[if k < i then k else k + 1];
    }
    forall a, b | 0 <= a < b < |r|
      ensures r[a] != r[b]
    {
      assert r[a] == s[if a < i then a else a + 1];
      assert r[b] == s[if b < i then b else b + 1];
    }
  }

  /** `Math.floor(Math.random() * n)` with `rand` standing for the value of
      `Math.random()`, a number in [0, 1). */
  function RandomIndex(rand: real, n: nat): (i: nat)
    requires 0.0 <= rand < 1.0 && 0 < n
    ensures i < n
  {
    var x := rand * n as real;
    assert 0.0 <= x < n as real by {
      ProductBelow(rand, n as real);
    }
    x.Floor
  }

  /** A fraction below one scales a positive number down. */
  lemma ProductBelow(a: real, b: real)
    requires 0.0 <= a < 1.0 && 0.0 < b
    ensures 0.0 <= a * b < b
  {
  }

  /** Every index of a non-empty pool is reached by some random fraction, so no
      ticket is excluded from the draw. */
  lemma RandomIndexReachesEvery(i: nat, n: nat)
    requires i < n
    ensures 0.0 <= i as real / n as real < 1.0
    ensures RandomIndex(i as real / n as real, n) == i
  {
    var rand := i as real / n as real;
    assert rand * n as real == i as real;
  }

  /** A duplicate-free sequence holds at most one copy of each element. */
  lemma {:induction false} DistinctHasSingleCopies<T>(a: seq<T>)
    requires Distinct(a)
    ensures forall x :: multiset(a)[x] <= 1
  {
    if a != [] {
      DistinctHasSingleCopies(a[1..]);
      assert a == [a[0]] + a[1..];
      assert a[0] !in a[1..];
    }
  }

  lemma CopiesOfPair<T>(b: seq<T>, i: nat, j: nat)
    requires i < j < |b|
    ensures multiset(b)[b[i]] >= if b[i] == b[j] then 2 else 1
  {
    assert b == b[..i] + [b[i]] + b[i + 1..j] + [b[j]] + b[j + 1..];
  }

  /** A sequence with at most one copy of each element is duplicate-free. */
  lemma SingleCopiesAreDistinct<T>(b: seq<T>)
    requires forall x :: multiset(b)[x] <= 1
    ensures Distinct(b)
  {
    forall i, j | 0 <= i < j < |b|
      ensures b[i] != b[j]
    {
      CopiesOfPair(b, i, j);
    }
  }

  /** If `a + b` is a permutation of a duplicate-free `p`, then `a` is
      duplicate-free and each element of `a` is in `p` but not in `b`. */
  lemma SplitOfDistinct<T>(a: seq<T>, b: seq<T>, p: seq<T>)
    requires multiset(a + b) == multiset(p) && Distinct(p)
    ensures Distinct(a)
    ensures forall x :: x in a ==> x in p && x !in b
  {
    DistinctHasSingleCopies(p);
    SingleCopiesAreDistinct(a + b);
    forall i, j | 0 <= i < j < |a|
      ensures a[i] != a[j]
    {
      assert (a + b)[i] == a[i] && (a + b)[j] == a[j];
    }
    forall x | x in a
      ensures x in p && x !in b
    {
      assert x in multiset(a + b);
    }
  }
}
