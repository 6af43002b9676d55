/**
 The storage of one rank: key array, bucket metadata, and the frequency and cumulative tables,
 which are indexed by key through a view shifted by the smallest key of the rank's interval.
 */
module Workspace {
  import opened Histograms

  /** What an iteration changes in the key array of rank 0. */
  function ChangedKeys(keys: seq<int>, iteration: nat, maxIterations: nat, maxKeyBound: nat): (changed: seq<int>)
    requires iteration + maxIterations < |keys|
    ensures |changed| == |keys| && changed[iteration + maxIterations] == maxKeyBound - iteration
    ensures maxIterations > 0 ==> changed[iteration] == iteration
  {
    keys[iteration := iteration][iteration + maxIterations := maxKeyBound - iteration]
  }

  class IntegerSortWorkspace {
    const keys: array<int>
    const frequencyStorage: array<int>
    const cumulativeStorage: array<int>
    const localBucketCounts: array<int>
    const globalBucketCounts: array<int>
    const firstBucketByRank: array<int>
    const lastBucketByRank: array<int>
    const bucketToRank: array<int>

    constructor (workBufferSize: nat, bucketWorkspaceSize: nat)
      ensures Separate()
      ensures keys.Length == frequencyStorage.Length == cumulativeStorage.Length == workBufferSize
      ensures localBucketCounts.Length == bucketWorkspaceSize
    {
      keys := new int[workBufferSize];
      frequencyStorage := new int[workBufferSize];
      cumulativeStorage := new int[workBufferSize];
      localBucketCounts := new int[bucketWorkspaceSize];
      globalBucketCounts := new int[bucketWorkspaceSize];
      firstBucketByRank := new int[bucketWorkspaceSize];
      lastBucketByRank := new int[bucketWorkspaceSize];
      bucketToRank := new int[bucketWorkspaceSize];
    }

    /** No two arrays are the same, and all metadata has one size. */
    ghost predicate Separate()
    {
      && keys !in {frequencyStorage, cumulativeStorage} && frequencyStorage != cumulativeStorage
      && localBucketCounts !in {globalBucketCounts, firstBucketByRank, lastBucketByRank, bucketToRank}
      && globalBucketCounts !in {firstBucketByRank, lastBucketByRank, bucketToRank}
      && firstBucketByRank !in {lastBucketByRank, bucketToRank} && lastBucketByRank != bucketToRank
      && {keys, frequencyStorage, cumulativeStorage}
         !! {localBucketCounts, globalBucketCounts, firstBucketByRank, lastBucketByRank, bucketToRank}
      && localBucketCounts.Length == globalBucketCounts.Length == firstBucketByRank.Length
      && firstBucketByRank.Length == lastBucketByRank.Length == bucketToRank.Length
    }

    /** The planner and the counters start from zeros everywhere. */
    method ClearBucketMetadata()
      requires Separate()
      modifies localBucketCounts, globalBucketCounts, firstBucketByRank, lastBucketByRank, bucketToRank
      ensures forall i :: 0 <= i < localBucketCounts.Length ==>
                && localBucketCounts[i] == 0 && globalBucketCounts[i] == 0 && firstBucketByRank[i] == 0
                && lastBucketByRank[i] == 0 && bucketToRank[i] == 0
    {
      for i := 0 to localBucketCounts.Length
        invariant forall j :: 0 <= j < i ==> localBucketCounts[j] == 0 && globalBucketCounts[j] == 0
        invariant forall j :: 0 <= j < i ==> firstBucketByRank[j] == 0 && lastBucketByRank[j] == 0
        invariant forall j :: 0 <= j < i ==> bucketToRank[j] == 0
      {
        localBucketCounts[i] := 0;
        globalBucketCounts[i] := 0;
        firstBucketByRank[i] := 0;
        lastBucketByRank[i] := 0;
        bucketToRank[i] := 0;
      }
    }

    /** After clearing the rank's range, the frequency table represents no keys at all. */
    method ClearFrequencyRange(minKey: int, maxKey: int)
      requires Separate() && maxKey - minKey + 1 <= frequencyStorage.Length == cumulativeStorage.Length
      modifies frequencyStorage, cumulativeStorage
      ensures IsFrequencyTable(frequencyStorage[..], multiset{}, minKey, maxKey)
      ensures forall i :: 0 <= i < maxKey - minKey + 1 ==> cumulativeStorage[i] == 0
      ensures maxKey < minKey ==>
                frequencyStorage[..] == old(frequencyStorage[..]) && cumulativeStorage[..] == old(cumulativeStorage[..])
    {
      if maxKey < minKey {
        return;
      }
      for i := 0 to maxKey - minKey + 1
        invariant forall j :: 0 <= j < i ==> frequencyStorage[j] == 0 && cumulativeStorage[j] == 0
      {
        frequencyStorage[i] := 0;
        cumulativeStorage[i] := 0;
      }
    }

    /** The handler of the redistribution: one more of this key, nothing else. */
    method CountKey(key: int, minKey: int, maxKey: int, ghost h: multiset<int>)
      requires minKey <= key <= maxKey && IsFrequencyTable(frequencyStorage[..], h, minKey, maxKey)
      modifies frequencyStorage
      ensures IsFrequencyTable(frequencyStorage[..], h + multiset{key}, minKey, maxKey)
      ensures forall i :: 0 <= i < frequencyStorage.Length && i != key - minKey ==>
                frequencyStorage[i] == old(frequencyStorage[i])
    {
      frequencyStorage[key - minKey] := frequencyStorage[key - minKey] + 1;
    }

    /** Two keys of rank 0 change in every iteration; all keys stay in range. */
    method ApplyIterationKeyChanges(iteration: nat, myRank: nat, maxIterations: nat, maxKeyBound: nat,
                                    localKeyCount: nat)
      requires 1 <= iteration <= maxIterations < maxKeyBound
      requires iteration + maxIterations < localKeyCount <= keys.Length
      requires forall i :: 0 <= i < localKeyCount ==> 0 <= keys[i] < maxKeyBound
      modifies keys
      ensures forall i :: 0 <= i < localKeyCount ==> 0 <= keys[i] < maxKeyBound
      ensures myRank == 0 ==> keys[iteration] == iteration && keys[iteration + maxIterations] == maxKeyBound - iteration
      ensures forall i :: 0 <= i < keys.Length ==>
                (myRank == 0 && (i == iteration || i == iteration + maxIterations)) || keys[i] == old(keys[i])
      ensures myRank == 0 ==> keys[..] == ChangedKeys(old(keys[..]), iteration, maxIterations, maxKeyBound)
    {
      if myRank == 0 {
        keys[iteration] := iteration;
        keys[iteration + maxIterations] := maxKeyBound - iteration;
      }
    }
  }
}
