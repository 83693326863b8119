/** src/main.rs, lines 122 and 129-151: every thread runs one batch over its
    range, and the outputs are concatenated in `thread_id` order. The rayon
    pool is modelled as a loop over the thread ids, one after the other. */
module Orchestrator {
  import opened Wrappers
  import opened Text
  import opened Primitives
  import opened WalletTypes
  import opened Generator
  import opened Partition

  /** What thread `threadId` contributes when every index runs `at`: nothing
      for an empty range, otherwise the batch over its range. */
  function ThreadOutput(at: nat -> Option<Wallet>, count: nat, numThreads: nat, threadId: nat): seq<Wallet>
    requires numThreads >= 1 && threadId < numThreads
  {
    var n := ThreadCount(count, numThreads, threadId);
    if n == 0 then [] else Collect(at, ThreadStart(count, numThreads, threadId), n)
  }

  /** The outputs of threads `0 .. k`, concatenated in thread order. */
  function OutputsUpTo(at: nat -> Option<Wallet>, count: nat, numThreads: nat, k: nat): seq<Wallet>
    requires numThreads >= 1 && k <= numThreads
  {
    if k == 0 then []
    else OutputsUpTo(at, count, numThreads, k - 1) + ThreadOutput(at, count, numThreads, k - 1)
  }

  /** What thread `threadId` adds to the progress counter. */
  function ThreadProgress(count: nat, numThreads: nat, threadId: nat): nat
    requires numThreads >= 1 && threadId < numThreads
  {
    var n := ThreadCount(count, numThreads, threadId);
    if n == 0 then 0 else BatchProgress(n)
  }

  function ProgressUpTo(count: nat, numThreads: nat, k: nat): nat
    requires numThreads >= 1 && k <= numThreads
  {
    if k == 0 then 0 else ProgressUpTo(count, numThreads, k - 1) + ThreadProgress(count, numThreads, k - 1)
  }

  /** The progress thread's exit test `current_count >= args.count`. */
  predicate PollerStops(current: nat, count: nat) {
    current >= count
  }

  /** Appending thread `t`'s output to the results over `[0, Boundary(t))`
      gives the results over `[0, Boundary(t + 1))`. */
  lemma AppendThread(at: nat -> Option<Wallet>, count: nat, numThreads: nat, t: nat)
    requires numThreads >= 1 && t < numThreads
    ensures Collect(at, 0, Boundary(count, numThreads, t)) + ThreadOutput(at, count, numThreads, t)
         == Collect(at, 0, Boundary(count, numThreads, t + 1))
  {
    ThreadSlice(count, numThreads, t);
    var a := Boundary(count, numThreads, t);
    var n := ThreadCount(count, numThreads, t);
    if n > 0 {
      CollectSplit(at, 0, a, n);
    } else {
      assert Collect(at, 0, a) + [] == Collect(at, 0, a);
    }
  }

  /** The first `k` threads together produce the results over `[0, min(k * wpt, count))`. */
  lemma {:induction false} OutputsUpToPrefix(at: nat -> Option<Wallet>, count: nat, numThreads: nat, k: nat)
    requires numThreads >= 1 && k <= numThreads
    ensures OutputsUpTo(at, count, numThreads, k) == Collect(at, 0, Boundary(count, numThreads, k))
  {
    if k > 0 {
      OutputsUpToPrefix(at, count, numThreads, k - 1);
      OutputsUpToStep(at, count, numThreads, k);
    }
  }

  lemma OutputsUpToStep(at: nat -> Option<Wallet>, count: nat, numThreads: nat, k: nat)
    requires numThreads >= 1 && 0 < k <= numThreads
    requires OutputsUpTo(at, count, numThreads, k - 1) == Collect(at, 0, Boundary(count, numThreads, k - 1))
    ensures OutputsUpTo(at, count, numThreads, k) == Collect(at, 0, Boundary(count, numThreads, k))
  {
    AppendThread(at, count, numThreads, k - 1);
  }

  /** The concatenated output is the single sequential batch over `[0, count)`. */
  lemma AllOutputsAreOneBatch(c: Crypto, seed: seq<byte>, count: nat, numThreads: nat,
                              prefix: string, keyType: KeyType)
    requires numThreads >= 1
    ensures OutputsUpTo(Pipeline(c, seed, prefix, keyType), count, numThreads, numThreads)
         == BatchSpec(c, seed, 0, count, prefix, keyType)
  {
    OutputsUpToPrefix(Pipeline(c, seed, prefix, keyType), count, numThreads, numThreads);
    CountsUpToPrefix(count, numThreads, numThreads);
    CountsSumToTotal(count, numThreads);
  }

  /** The output does not depend on how many threads produced it. */
  lemma ThreadCountIrrelevant(c: Crypto, seed: seq<byte>, count: nat, n1: nat, n2: nat,
                              prefix: string, keyType: KeyType)
    requires n1 >= 1 && n2 >= 1
    ensures OutputsUpTo(Pipeline(c, seed, prefix, keyType), count, n1, n1)
         == OutputsUpTo(Pipeline(c, seed, prefix, keyType), count, n2, n2)
  {
    AllOutputsAreOneBatch(c, seed, count, n1, prefix, keyType);
    AllOutputsAreOneBatch(c, seed, count, n2, prefix, keyType);
  }

  /** The final wallet list: indices strictly ascending within `[0, count)`,
      at most `count` wallets, each the pipeline's wallet for its index, and
      every index whose pipeline succeeds present. */
  lemma AllOutputsOrderedAndComplete(c: Crypto, seed: seq<byte>, count: nat, numThreads: nat,
                                     prefix: string, keyType: KeyType)
    requires numThreads >= 1
    ensures var all := OutputsUpTo(Pipeline(c, seed, prefix, keyType), count, numThreads, numThreads);
      |all| <= count &&
      IndicesWithin(all, IndexOf, 0, count) &&
      StrictlyAscending(all, IndexOf) &&
      (forall j :: 0 <= j < |all| ==> WalletAt(c, seed, IndexOf(all[j]), prefix, keyType) == Some(all[j])) &&
      (forall i: nat :: i < count && WalletAt(c, seed, i, prefix, keyType).Some? ==>
         WalletAt(c, seed, i, prefix, keyType).value in all)
  {
    AllOutputsAreOneBatch(c, seed, count, numThreads, prefix, keyType);
    BatchLength(c, seed, 0, count, prefix, keyType);
    BatchSound(c, seed, 0, count, prefix, keyType);
    forall i: nat | i < count && WalletAt(c, seed, i, prefix, keyType).Some?
      ensures WalletAt(c, seed, i, prefix, keyType).value in BatchSpec(c, seed, 0, count, prefix, keyType)
    {
      BatchComplete(c, seed, 0, count, prefix, keyType, i);
    }
  }

  lemma {:induction false} ProgressCoversCounts(count: nat, numThreads: nat, k: nat)
    requires numThreads >= 1 && k <= numThreads
    ensures ProgressUpTo(count, numThreads, k) >= CountsUpTo(count, numThreads, k)
  {
    if k > 0 {
      ProgressCoversCounts(count, numThreads, k - 1);
      BatchProgressBounds(ThreadCount(count, numThreads, k - 1));
    }
  }

  /** Once every thread has finished, the counter is at least the requested
      count, so the progress thread's exit test holds. */
  lemma PollerTerminates(count: nat, numThreads: nat)
    requires numThreads >= 1
    ensures PollerStops(ProgressUpTo(count, numThreads, numThreads), count)
  {
    ProgressCoversCounts(count, numThreads, numThreads);
    CountsSumToTotal(count, numThreads);
  }

  /** The `(0..num_threads).flat_map(..).collect()` of lines 135-151, run one thread after another. */
  method GenerateAllWallets(c: Crypto, seed: seq<byte>, count: nat, numThreads: nat, prefix: string,
                            keyType: KeyType, progress: ProgressCounter)
    returns (all: seq<Wallet>)
    requires numThreads >= 1
    requires count == 0 || c.isValidHrp(prefix)
    requires DerivedKeysValid(c, seed)
    modifies progress
    ensures all == OutputsUpTo(Pipeline(c, seed, prefix, keyType), count, numThreads, numThreads)
    ensures progress.value == old(progress.value) + ProgressUpTo(count, numThreads, numThreads)
  {
    all := [];
    var threadId := 0;
    while threadId < numThreads
      invariant threadId <= numThreads
      invariant all == OutputsUpTo(Pipeline(c, seed, prefix, keyType), count, numThreads, threadId)
      invariant progress.value == old(progress.value) + ProgressUpTo(count, numThreads, threadId)
    {
      var startIdx := ThreadStart(count, numThreads, threadId);
      var n := ThreadCount(count, numThreads, threadId);
      var output: seq<Wallet>;
      if n == 0 {
        output := [];
      } else {
        ThreadRangeBounds(count, numThreads, threadId);
        output := GenerateWalletsBatch(c, seed, startIdx, n, prefix, keyType, progress);
      }
      assert output == ThreadOutput(Pipeline(c, seed, prefix, keyType), count, numThreads, threadId);
      assert progress.value == old(progress.value) + ProgressUpTo(count, numThreads, threadId + 1);
      all := all + output;
      threadId := threadId + 1;
    }
    assert threadId == numThreads;
  }
}
