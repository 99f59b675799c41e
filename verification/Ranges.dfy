/** Consecutive cluster ranges of given lengths, numbered from 2 on. */
module Ranges {
  /** The value of `next_cluster` after the first `n` nodes of the walk. */
  function Start(sizes: seq<nat>, n: nat): (c: nat)
    requires n <= |sizes|
    ensures c >= 2
  {
    if n == 0 then 2 else Start(sizes, n - 1) + sizes[n - 1]
  }

  ghost predicate InRange(sizes: seq<nat>, i: int, c: int)
  {
    0 <= i < |sizes| && Start(sizes, i) <= c < Start(sizes, i) + sizes[i]
  }

  ghost predicate Covered(sizes: seq<nat>, c: int) { exists i :: InRange(sizes, i, c) }

  lemma {:induction false} StartMonotone(sizes: seq<nat>, i: nat, j: nat)
    requires i <= j <= |sizes|
    ensures Start(sizes, i) <= Start(sizes, j)
  {
    if i < j { StartMonotone(sizes, i, j - 1); }
  }

  lemma {:induction false} CoveredBelow(sizes: seq<nat>, n: nat, c: int)
    requires n <= |sizes| && 2 <= c < Start(sizes, n)
    ensures Covered(sizes, c)
  {
    if c < Start(sizes, n - 1) {
      CoveredBelow(sizes, n - 1, c);
    } else {
      assert InRange(sizes, n - 1, c);
    }
  }

  lemma {:induction false} RangeBounds(sizes: seq<nat>, i: nat)
    requires i < |sizes|
    ensures 2 <= Start(sizes, i) <= Start(sizes, i) + sizes[i] <= Start(sizes, |sizes|)
  {
    StartMonotone(sizes, i + 1, |sizes|);
  }

  lemma {:induction false} RangesApart(sizes: seq<nat>, i: nat, j: nat)
    requires i < j < |sizes|
    ensures Start(sizes, i) + sizes[i] <= Start(sizes, j)
  {
    StartMonotone(sizes, i + 1, j);
  }

  /** The ranges are pairwise disjoint and together exactly [2, next). */
  lemma {:induction false} RangesPartition(sizes: seq<nat>)
    ensures forall c :: Covered(sizes, c) <==> 2 <= c < Start(sizes, |sizes|)
    ensures forall i, j, c :: InRange(sizes, i, c) && InRange(sizes, j, c) ==> i == j
  {
    forall c ensures Covered(sizes, c) <==> 2 <= c < Start(sizes, |sizes|) {
      if 2 <= c < Start(sizes, |sizes|) { CoveredBelow(sizes, |sizes|, c); }
      if i :| InRange(sizes, i, c) { RangeBounds(sizes, i); }
    }
    forall i, j, c | InRange(sizes, i, c) && InRange(sizes, j, c) ensures i == j {
      if i < j { RangesApart(sizes, i, j); }
      if j < i { RangesApart(sizes, j, i); }
    }
  }
}
