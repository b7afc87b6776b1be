/** The sampling loop of the throughput measurement: ten timed hashes at each
    block count 0..16, averaged in place, with a progress counter beside it. */
module Throughput {
  import opened Common
  import opened HashTimer

  /** Number of distinct block counts measured (the length of `results`). */
  const SizeCount := 17

  /** Timed samples taken per block count. */
  const SamplesPerSize := 10

  /** Device calls made by a run that does not fail. */
  const CallCount := SizeCount * SamplesPerSize

  /** The total the progress bar is created with: (0 + 1 + ... + 16) * 10. */
  const ProgressTotal := 136 * SamplesPerSize

  /** The block count hashed by the `t`-th device call: calls are grouped by
      size, ten per size, in increasing size order. */
  function BlocksOfCall(t: nat): (n: nat)
    ensures n * SamplesPerSize <= t < n * SamplesPerSize + SamplesPerSize
  {
    t / SamplesPerSize
  }

  /** The `i`-th call of the group for block count `n` hashes `n` blocks. */
  lemma BlocksOfCallAt(n: nat, i: nat)
    requires i < SamplesPerSize
    ensures BlocksOfCall(n * SamplesPerSize + i) == n
  {
  }

  /** The outcome of the `t`-th call of the loop. */
  function Sample(device: Device, t: nat): Result<int>
  {
    Hash(device, t, BlocksOfCall(t))
  }

  /** The microseconds reported by the `t`-th call (0 when it failed). */
  function Micros(device: Device, t: nat): int
  {
    match Sample(device, t)
    case Ok(us) => us
    case Err(_) => 0
  }

  /** The sum of the first `j` samples taken at block count `n`. */
  function SampleSum(device: Device, n: nat, j: nat): int
  {
    if j == 0 then 0
    else SampleSum(device, n, j - 1) + Micros(device, n * SamplesPerSize + j - 1)
  }

  /** The mean elapsed time at block count `n` over its ten samples. */
  function Mean(device: Device, n: nat): real
  {
    SampleSum(device, n, SamplesPerSize) as real / SamplesPerSize as real
  }

  /** Progress after `k` completed calls: each call adds its block count. */
  function ProgressOf(k: nat): nat
  {
    if k == 0 then 0 else ProgressOf(k - 1) + BlocksOfCall(k - 1)
  }

  /** Within the ten calls at block count `n`, each completed call adds `n`. */
  lemma {:induction false} ProgressWithinSize(n: nat, j: nat)
    requires j <= SamplesPerSize
    ensures ProgressOf(n * SamplesPerSize + j) == ProgressOf(n * SamplesPerSize) + j * n
  {
    if j > 0 {
      var k := n * SamplesPerSize + (j - 1);
      var before := ProgressOf(k);
      ProgressWithinSize(n, j - 1);
      assert before == ProgressOf(n * SamplesPerSize) + (j - 1) * n;
      BlocksOfCallAt(n, j - 1);
      assert ProgressOf(k + 1) == before + n;
      assert (j - 1) * n + n == j * n;
    }
  }

  /** After every call at block counts 0..n-1 the counter holds 10 * (0 + ... + n-1). */
  lemma {:induction false} ProgressOfSizes(n: nat)
    ensures 2 * ProgressOf(n * SamplesPerSize) == SamplesPerSize * n * (n - 1)
  {
    if n > 0 {
      var m := n - 1;
      var before := ProgressOf(m * SamplesPerSize);
      ProgressOfSizes(m);
      assert 2 * before == SamplesPerSize * m * (m - 1);
      ProgressWithinSize(m, SamplesPerSize);
      assert m * SamplesPerSize + SamplesPerSize == n * SamplesPerSize;
      assert ProgressOf(n * SamplesPerSize) == before + SamplesPerSize * m;
      assert SamplesPerSize * m * (m - 1) + 2 * SamplesPerSize * m == SamplesPerSize * n * m;
    }
  }

  /** A complete run reaches exactly the total the progress bar declares. */
  lemma ProgressReachesTotal()
    ensures ProgressOf(CallCount) == ProgressTotal
  {
    ProgressOfSizes(SizeCount);
  }

  /** Block counts are visited in non-decreasing order. */
  lemma BlocksOfCallMonotone(s: nat, t: nat)
    requires s <= t
    ensures BlocksOfCall(s) <= BlocksOfCall(t)
  {
  }

  /** The first `k` calls all succeeded. */
  predicate SucceededUpTo(device: Device, k: nat)
  {
    forall t | 0 <= t < k :: Sample(device, t).Ok?
  }

  /** `visited` is the block-count trace of the first |visited| calls. */
  predicate IsCallTrace(visited: seq<nat>)
  {
    forall t | 0 <= t < |visited| :: visited[t] == BlocksOfCall(t)
  }

  /** Takes the samples in order and averages them per size into a 17-entry
      array. The first failing call ends the run: no further call is made and
      nothing is averaged. `visited` records the block count of each call made,
      `progress` the counter the progress bar was advanced to. */
  method GetHashPerformance(device: Device) returns (r: Result<seq<real>>, visited: seq<nat>, progress: nat)
    ensures 0 < |visited| <= CallCount && IsCallTrace(visited)
    ensures forall s, t | 0 <= s <= t < |visited| :: visited[s] <= visited[t]
    ensures SucceededUpTo(device, |visited| - 1)
    ensures r.Ok? <==> SucceededUpTo(device, CallCount)
    ensures r.Err? ==> Sample(device, |visited| - 1) == Err(r.error) && r.error == HashFailed
    ensures r.Err? ==> progress == ProgressOf(|visited| - 1)
    ensures r.Ok? ==> |visited| == CallCount && progress == ProgressTotal
    ensures r.Ok? ==> |r.value| == SizeCount
    ensures r.Ok? ==> forall n | 0 <= n < SizeCount :: r.value[n] == Mean(device, n)
  {
    var results := new real[SizeCount];
    forall i | 0 <= i < results.Length {
      results[i] := 0.0;
    }
    visited, progress := [], 0;
    var hashBlocks := 0;
    while hashBlocks < results.Length
      invariant 0 <= hashBlocks <= results.Length
      invariant |visited| == hashBlocks * SamplesPerSize
      invariant IsCallTrace(visited) && SucceededUpTo(device, |visited|)
      invariant forall m | 0 <= m < hashBlocks :: results[m] == Mean(device, m)
      invariant forall m | hashBlocks <= m < results.Length :: results[m] == 0.0
      invariant progress == ProgressOf(|visited|)
    {
      var failed;
      failed, visited, progress := SampleOneSize(device, results, hashBlocks, visited, progress);
      if failed {
        assert |visited| <= CallCount by {
          assert hashBlocks * SamplesPerSize <= (SizeCount - 1) * SamplesPerSize;
        }
        r := Err(HashFailed);
        BlocksOfCallMonotoneAll(visited);
        return;
      }
      hashBlocks := hashBlocks + 1;
    }
    ProgressReachesTotal();
    BlocksOfCallMonotoneAll(visited);
    r := Ok(results[..]);
  }

  /** The body of the outer loop for one block count: ten samples added into
      `results[hashBlocks]`, then divided by ten. On the first failure it stops
      at once, with the failing call as the last entry of the trace. */
  method SampleOneSize(device: Device, results: array<real>, hashBlocks: nat, visited0: seq<nat>, progress0: nat)
    returns (failed: bool, visited: seq<nat>, progress: nat)
    requires results.Length == SizeCount && hashBlocks < SizeCount && results[hashBlocks] == 0.0
    requires |visited0| == hashBlocks * SamplesPerSize && IsCallTrace(visited0) && SucceededUpTo(device, |visited0|)
    requires progress0 == ProgressOf(|visited0|)
    modifies results
    ensures forall m | 0 <= m < results.Length && m != hashBlocks :: results[m] == old(results[m])
    ensures IsCallTrace(visited) && visited0 <= visited
    ensures !failed ==> |visited| == |visited0| + SamplesPerSize && SucceededUpTo(device, |visited|)
    ensures !failed ==> results[hashBlocks] == Mean(device, hashBlocks)
    ensures !failed ==> progress == ProgressOf(|visited|)
    ensures failed ==> |visited0| < |visited| <= |visited0| + SamplesPerSize && SucceededUpTo(device, |visited| - 1)
    ensures failed ==> Sample(device, |visited| - 1) == Err(HashFailed)
    ensures failed ==> progress == ProgressOf(|visited| - 1)
  {
    visited, progress := visited0, progress0;
    var j := 0;
    while j < SamplesPerSize
      invariant 0 <= j <= SamplesPerSize
      invariant |visited| == hashBlocks * SamplesPerSize + j && visited0 <= visited
      invariant IsCallTrace(visited) && SucceededUpTo(device, |visited|)
      invariant results[hashBlocks] == SampleSum(device, hashBlocks, j) as real
      invariant forall m | 0 <= m < results.Length && m != hashBlocks :: results[m] == old(results[m])
      invariant progress == ProgressOf(|visited|)
    {
      var call := |visited|;
      BlocksOfCallAt(hashBlocks, j);
      TraceExtends(visited, hashBlocks);
      visited := visited + [hashBlocks];
      var thisIteration := Hash(device, call, hashBlocks);
      assert Sample(device, call) == thisIteration;
      if thisIteration.Err? {
        return true, visited, progress;
      }
      SampleStep(device, hashBlocks, j, thisIteration.value);
      SuccessExtends(device, call);
      results[hashBlocks] := results[hashBlocks] + thisIteration.value as real;
      progress := progress + hashBlocks;
      j := j + 1;
    }
    results[hashBlocks] := results[hashBlocks] / SamplesPerSize as real;
    failed := false;
  }

  /** One successful sample, the `j`-th at size `n`: it adds its time to the
      sum at that size and `n` to the progress counter. */
  lemma SampleStep(device: Device, n: nat, j: nat, micros: int)
    requires j < SamplesPerSize
    requires Sample(device, n * SamplesPerSize + j) == Ok(micros)
    ensures SampleSum(device, n, j + 1) == SampleSum(device, n, j) + micros
    ensures ProgressOf(n * SamplesPerSize + j + 1) == ProgressOf(n * SamplesPerSize + j) + n
  {
    BlocksOfCallAt(n, j);
  }

  /** Appending the block count of the next call keeps a call trace. */
  lemma TraceExtends(visited: seq<nat>, n: nat)
    requires IsCallTrace(visited) && BlocksOfCall(|visited|) == n
    ensures IsCallTrace(visited + [n])
  {
  }

  /** One more successful call extends the run of successes. */
  lemma SuccessExtends(device: Device, k: nat)
    requires SucceededUpTo(device, k) && Sample(device, k).Ok?
    ensures SucceededUpTo(device, k + 1)
  {
  }

  /** A trace of block counts taken from `BlocksOfCall` is sorted. */
  lemma BlocksOfCallMonotoneAll(visited: seq<nat>)
    requires IsCallTrace(visited)
    ensures forall s, t | 0 <= s <= t < |visited| :: visited[s] <= visited[t]
  {
    forall s, t | 0 <= s <= t < |visited|
      ensures visited[s] <= visited[t]
    {
      BlocksOfCallMonotone(s, t);
    }
  }
}
