/** src/main.rs, lines 129-151: how the requested count is split into one
    contiguous range of indices per worker thread. Pure `usize` arithmetic. */
module Partition {

  function Min(a: nat, b: nat): nat { if a <= b then a else b }

  /** `a.saturating_sub(b)` on unsigned integers. */
  function SaturatingSub(a: nat, b: nat): (r: nat)
    ensures r == 0 <==> a <= b
    ensures a > b ==> r + b == a
  {
    if a > b then a - b else 0
  }

  /** `(count + num_threads - 1) / num_threads`: the ceiling of `count / numThreads`. */
  function WalletsPerThread(count: nat, numThreads: nat): nat
    requires numThreads >= 1
  {
    (count + numThreads - 1) / numThreads
  }

  /** `wallets_per_thread` is the least `w` with `w * numThreads >= count`. */
  lemma WalletsPerThreadIsCeiling(count: nat, numThreads: nat)
    requires numThreads >= 1
    ensures WalletsPerThread(count, numThreads) * numThreads >= count
    ensures WalletsPerThread(count, numThreads) > 0 ==> (WalletsPerThread(count, numThreads) - 1) * numThreads < count
  {
    var wpt := WalletsPerThread(count, numThreads);
    var r := (count + numThreads - 1) % numThreads;
    assert count + numThreads - 1 == wpt * numThreads + r;
  }

  /** `start_idx = thread_id * wallets_per_thread`. */
  function ThreadStart(count: nat, numThreads: nat, threadId: nat): nat
    requires numThreads >= 1
  {
    threadId * WalletsPerThread(count, numThreads)
  }

  /** The number of indices thread `threadId` generates: the last thread takes
      whatever is left, every other thread at most `wallets_per_thread`. */
  function ThreadCount(count: nat, numThreads: nat, threadId: nat): nat
    requires numThreads >= 1 && threadId < numThreads
  {
    var startIdx := ThreadStart(count, numThreads, threadId);
    if threadId == numThreads - 1 then SaturatingSub(count, startIdx)
    else Min(WalletsPerThread(count, numThreads), SaturatingSub(count, startIdx))
  }

  /** Where the ranges of threads `0 .. t` end: `min(t * wpt, count)`. */
  function Boundary(count: nat, numThreads: nat, t: nat): nat
    requires numThreads >= 1
  {
    Min(t * WalletsPerThread(count, numThreads), count)
  }

  /** Thread `t` covers `[Boundary(t), Boundary(t + 1))`: its count is the
      difference, and a non-empty range starts at `Boundary(t)`. */
  lemma ThreadSlice(count: nat, numThreads: nat, threadId: nat)
    requires numThreads >= 1 && threadId < numThreads
    ensures ThreadCount(count, numThreads, threadId)
         == Boundary(count, numThreads, threadId + 1) - Boundary(count, numThreads, threadId)
    ensures ThreadCount(count, numThreads, threadId) > 0 ==>
      ThreadStart(count, numThreads, threadId) == Boundary(count, numThreads, threadId)
  {
    ThreadRange(count, numThreads, threadId);
  }

  /** Thread `t` covers exactly `[min(t * wpt, count), min((t + 1) * wpt, count))`,
      the last thread included: consecutive ranges touch and never overlap. */
  lemma ThreadRange(count: nat, numThreads: nat, threadId: nat)
    requires numThreads >= 1 && threadId < numThreads
    ensures var wpt := WalletsPerThread(count, numThreads);
      ThreadCount(count, numThreads, threadId) == Min((threadId + 1) * wpt, count) - Min(threadId * wpt, count)
  {
    var wpt := WalletsPerThread(count, numThreads);
    WalletsPerThreadIsCeiling(count, numThreads);
    if threadId == numThreads - 1 {
      assert (threadId + 1) * wpt == wpt * numThreads;
    }
  }

  /** Each thread's range lies inside `[0, count)`, holds at most
      `wallets_per_thread` indices, and is empty once its start reaches `count`. */
  lemma ThreadRangeBounds(count: nat, numThreads: nat, threadId: nat)
    requires numThreads >= 1 && threadId < numThreads
    ensures ThreadStart(count, numThreads, threadId) + ThreadCount(count, numThreads, threadId) <= count
         || ThreadCount(count, numThreads, threadId) == 0
    ensures ThreadCount(count, numThreads, threadId) <= WalletsPerThread(count, numThreads)
    ensures ThreadStart(count, numThreads, threadId) >= count ==> ThreadCount(count, numThreads, threadId) == 0
  {
    var wpt := WalletsPerThread(count, numThreads);
    ThreadRange(count, numThreads, threadId);
    assert (threadId + 1) * wpt == threadId * wpt + wpt;
  }

  /** Sum of the counts of threads `0 .. k`. */
  function CountsUpTo(count: nat, numThreads: nat, k: nat): nat
    requires numThreads >= 1 && k <= numThreads
  {
    if k == 0 then 0 else CountsUpTo(count, numThreads, k - 1) + ThreadCount(count, numThreads, k - 1)
  }

  /** The first `k` threads together cover `[0, min(k * wpt, count))`. */
  lemma {:induction false} CountsUpToPrefix(count: nat, numThreads: nat, k: nat)
    requires numThreads >= 1 && k <= numThreads
    ensures CountsUpTo(count, numThreads, k) == Boundary(count, numThreads, k)
  {
    if k > 0 {
      CountsUpToPrefix(count, numThreads, k - 1);
      ThreadSlice(count, numThreads, k - 1);
    }
  }

  /** The per-thread counts add up to the requested count. */
  lemma CountsSumToTotal(count: nat, numThreads: nat)
    requires numThreads >= 1
    ensures CountsUpTo(count, numThreads, numThreads) == count
  {
    var wpt := WalletsPerThread(count, numThreads);
    CountsUpToPrefix(count, numThreads, numThreads);
    assert numThreads * wpt == wpt * numThreads;
  }

  lemma MulMonotone(a: nat, b: nat, w: nat)
    requires a <= b
    ensures a * w <= b * w
  {
  }

  lemma DivBounds(index: nat, wpt: nat)
    requires wpt > 0
    ensures (index / wpt) * wpt <= index < (index / wpt + 1) * wpt
  {
    var q, r := index / wpt, index % wpt;
    assert index == q * wpt + r;
    assert (q + 1) * wpt == q * wpt + wpt;
  }

  /** Every index below `count` belongs to exactly one thread, `index / wpt`. */
  lemma CoveredByExactlyOne(count: nat, numThreads: nat, index: nat, threadId: nat)
    requires numThreads >= 1 && index < count && threadId < numThreads
    ensures var wpt := WalletsPerThread(count, numThreads);
      wpt > 0 && index / wpt < numThreads &&
      (ThreadStart(count, numThreads, threadId) <= index
         < ThreadStart(count, numThreads, threadId) + ThreadCount(count, numThreads, threadId)
       <==> threadId == index / wpt)
  {
    var wpt := WalletsPerThread(count, numThreads);
    WalletsPerThreadIsCeiling(count, numThreads);
    var t := index / wpt;
    DivBounds(index, wpt);
    if t >= numThreads {
      MulMonotone(numThreads, t, wpt);
      assert false;
    }
    ThreadRange(count, numThreads, threadId);
    var lo := threadId * wpt;
    var hi := (threadId + 1) * wpt;
    assert lo <= index < hi <==> threadId == t by {
      if threadId < t {
        MulMonotone(threadId + 1, t, wpt);
      } else if threadId > t {
        MulMonotone(t + 1, threadId, wpt);
      }
    }
  }

  /** With nothing requested, or with more threads than wallets, the surplus
      threads get empty ranges. */
  lemma EmptyRanges(count: nat, numThreads: nat, threadId: nat)
    requires numThreads >= 1 && threadId < numThreads
    requires count == 0 || threadId >= count
    ensures ThreadCount(count, numThreads, threadId) == 0
  {
    var wpt := WalletsPerThread(count, numThreads);
    if count > 0 {
      assert threadId * wpt >= threadId;
    }
  }
}
