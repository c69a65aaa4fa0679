/** The index partition both executors use (Assets/Scripts/ECS/Tasks/SubtaskExecutor.cs
    and Assets/Scripts/ECS/Tasks/TaskExecuteHandle.cs): the loop
    `for (i = 0; i < n; i += batchSize)` hands out the inclusive range from `i`
    to `i + batchSize - 1`, cut back to `n - 1` for the last batch. */
module Batching {
  import opened Common

  /** An inclusive index range `[min, max]`. */
  datatype Range = Range(min: int, max: int)

  /** The range the loop hands out at `start`. */
  function BatchAt(start: int, n: int, batchSize: int): (r: Range)
    requires 0 <= start < n && batchSize > 0
    ensures r.min == start <= r.max < n && r.max - r.min < batchSize
    ensures r.max == n - 1 || r.max - r.min == batchSize - 1
  {
    var end := start + (batchSize - 1);
    Range(start, if end >= n then n - 1 else end)
  }

  /** The ranges the loop hands out from `start` on. */
  function BatchesFrom(start: nat, n: nat, batchSize: nat): seq<Range>
    requires batchSize > 0
    decreases n - start
  {
    if start >= n then []
    else [BatchAt(start, n, batchSize)] + BatchesFrom(start + batchSize, n, batchSize)
  }

  /** Every range handed out for `n` subtasks in batches of `batchSize`. */
  function Batches(n: nat, batchSize: nat): seq<Range>
    requires batchSize > 0
  {
    BatchesFrom(0, n, batchSize)
  }

  /** `(subtaskCount - 1) / batchSize + 1`: the number of batches, which the
      integer-division trick makes `n / batchSize` rounded up. */
  function BatchCount(n: nat, batchSize: nat): (r: nat)
    requires n > 0 && batchSize > 0
    ensures (r - 1) * batchSize < n <= r * batchSize
  {
    CDiv(n - 1, batchSize) + 1
  }

  /** The loop hands out exactly `BatchCount` ranges. */
  lemma {:induction false} BatchesFromLength(start: nat, n: nat, batchSize: nat)
    requires batchSize > 0 && start < n
    ensures |BatchesFrom(start, n, batchSize)| == BatchCount(n - start, batchSize)
    decreases n - start
  {
    var c := BatchCount(n - start, batchSize);
    if start + batchSize < n {
      BatchesFromLength(start + batchSize, n, batchSize);
      var c' := BatchCount(n - start - batchSize, batchSize);
      assert (c' - 1) * batchSize < n - start - batchSize <= c' * batchSize;
      assert c' * batchSize < n - start <= (c' + 1) * batchSize;
      CountUnique(n - start, batchSize, c, c' + 1);
    } else {
      assert (c - 1) * batchSize < n - start <= batchSize;
      CountUnique(n - start, batchSize, c, 1);
    }
  }

  /** Only one count `c` has `(c - 1) * b < m <= c * b`. */
  lemma CountUnique(m: int, b: int, c1: int, c2: int)
    requires b > 0
    requires (c1 - 1) * b < m <= c1 * b
    requires (c2 - 1) * b < m <= c2 * b
    ensures c1 == c2
  {
  }

  lemma BatchesLength(n: nat, batchSize: nat)
    requires batchSize > 0
    ensures n == 0 ==> Batches(n, batchSize) == []
    ensures n > 0 ==> |Batches(n, batchSize)| == BatchCount(n, batchSize)
  {
    if n > 0 {
      BatchesFromLength(0, n, batchSize);
    }
  }

  /** The ranges are non-empty, lie in `[start, n)`, are at most
      `batchSize` long, each begins right after the previous one ends, and
      together they run from `start` to `n - 1`. */
  lemma {:induction false} BatchesFromShape(start: nat, n: nat, batchSize: nat)
    requires batchSize > 0
    ensures var s := BatchesFrom(start, n, batchSize);
      && (start < n <==> |s| > 0)
      && (|s| > 0 ==> s[0].min == start && s[|s| - 1].max == n - 1)
      && (forall k :: 0 <= k < |s| ==> start <= s[k].min <= s[k].max < n && s[k].max - s[k].min < batchSize)
      && (forall k :: 0 <= k < |s| - 1 ==> s[k + 1].min == s[k].max + 1)
    decreases n - start
  {
    if start < n {
      BatchesFromShape(start + batchSize, n, batchSize);
      var rest := BatchesFrom(start + batchSize, n, batchSize);
      var s := BatchesFrom(start, n, batchSize);
      assert s == [BatchAt(start, n, batchSize)] + rest;
      if |rest| > 0 {
        assert s[1] == rest[0];
      }
      assert forall k :: 1 <= k < |s| ==> s[k] == rest[k - 1];
    }
  }

  /** Range `k` of the loop: it starts where the previous one stopped (at 0
      for the first), lies in `[0, n)`, and only the last one ends at
      `n - 1`. */
  lemma BatchesAt(n: nat, batchSize: nat, k: int)
    requires batchSize > 0 && 0 <= k < |Batches(n, batchSize)|
    ensures var s := Batches(n, batchSize);
      && s[k].min == (if k == 0 then 0 else s[k - 1].max + 1)
      && 0 <= s[k].min <= s[k].max < n
      && (s[k].max == n - 1 <==> k == |s| - 1)
  {
    var s := Batches(n, batchSize);
    BatchesFromShape(0, n, batchSize);
    if k < |s| - 1 {
      assert s[k + 1].min == s[k].max + 1;
    }
  }

  /** Consecutive ranges are ordered: a later range starts after every
      earlier one ends, so no index is in two ranges. */
  lemma {:induction false} BatchesDisjoint(n: nat, batchSize: nat)
    requires batchSize > 0
    ensures var s := Batches(n, batchSize);
      forall k1, k2 :: 0 <= k1 < k2 < |s| ==> s[k1].max < s[k2].min
  {
    var s := Batches(n, batchSize);
    BatchesFromShape(0, n, batchSize);
    forall k1, k2 | 0 <= k1 < k2 < |s| ensures s[k1].max < s[k2].min {
      var k := k1;
      while k < k2
        invariant k1 <= k <= k2
        invariant s[k1].max <= s[k].max
        invariant k > k1 ==> s[k1].max < s[k].min
      {
        k := k + 1;
      }
    }
  }

  /** Every index below `n` is in some range. */
  lemma {:induction false} BatchesCover(n: nat, batchSize: nat, x: int)
    requires batchSize > 0 && 0 <= x < n
    ensures exists k :: (0 <= k < |Batches(n, batchSize)| &&
      Batches(n, batchSize)[k].min <= x <= Batches(n, batchSize)[k].max)
  {
    var s := Batches(n, batchSize);
    BatchesFromShape(0, n, batchSize);
    var k := 0;
    while s[k].max < x
      invariant 0 <= k < |s| && s[k].min <= x
      decreases |s| - k
    {
      k := k + 1;
    }
  }
}
