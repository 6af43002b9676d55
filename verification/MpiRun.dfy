/**
 The MPI baseline after the exchange: ranking and scattering what a rank has received leaves the
 key array that the active-message version expands from its histogram.
 */
module MpiRun {
  import opened Collections
  import opened BucketPlan
  import opened AmProtocol
  import opened AmSafety
  import opened IntegerSort
  import opened MpiBaseline
  import opened MpiRanking
  import opened FullVerify

  /** One rank after the vector exchange: every segment sent to it lies at its displacement. */
  ghost predicate Exchanged(received: seq<int>, recvDispl: seq<int>, segments: seq<seq<int>>)
  {
    && |segments| <= |recvDispl|
    && (forall r :: 0 <= r < |segments| ==> recvDispl[r] == |Concat(segments[..r])|)
    && (forall r :: 0 <= r < |segments| ==> ReceivedAt(received, recvDispl[r], segments[r]))
  }

  lemma ReceivedFront(received: seq<int>, recvDispl: seq<int>, segments: seq<seq<int>>)
    requires Exchanged(received, recvDispl, segments)
    ensures |Concat(segments)| <= |received| && received[..|Concat(segments)|] == Concat(segments)
  {
    ExchangeIsConcatenation(received, recvDispl, segments, |segments|);
    assert segments[..|segments|] == segments;
  }

  /** What rank d has to rank: the plan's number of keys at the front of its receive buffer. */
  ghost predicate HasReceived(c: Config, p: nat, plan: SortPlan, d: nat, received: seq<int>, total: int)
  {
    && IsSortPhase(c, p, plan) && d < c.rankCount
    && total == IntervalKeys(plan.counts, plan.first[d], plan.last[d])
    && 0 <= total <= |received| && multiset(received[..total]) == Total(c, p, d)
  }

  lemma PlannedKeys(c: Config, p: nat, plan: SortPlan, d: nat)
    requires IsSortPhase(c, p, plan) && d < c.rankCount
    ensures |Total(c, p, d)| == IntervalKeys(plan.counts, plan.first[d], plan.last[d])
  {
    DeliveredByPlan(c, p, plan, d);
  }

  /** The local key count that a rank reads off the plan is the number of keys it has received. */
  lemma ReceivesPlannedKeys(c: Config, p: nat, plan: SortPlan, keys: seq<seq<nat>>, local: seq<seq<int>>,
                            sendCount: seq<seq<int>>, sendDispl: seq<seq<int>>, d: nat,
                            received: seq<int>, recvDispl: seq<int>)
    requires IsSortPhase(c, p, plan) && d < c.rankCount
    requires forall g :: 0 <= g < |c.home| ==> c.home[g] < c.rankCount
    requires AllSegmented(c, p, plan, keys, local, sendCount, sendDispl)
    requires Exchanged(received, recvDispl, SentTo(plan, keys, sendCount, sendDispl, d))
    ensures HasReceived(c, p, plan, d, received, IntervalKeys(plan.counts, plan.first[d], plan.last[d]))
  {
    var sent := Concat(SentTo(plan, keys, sendCount, sendDispl, d));
    BaselineAgrees(c, p, plan, keys, local, sendCount, sendDispl, d);
    ReceivedFront(received, recvDispl, SentTo(plan, keys, sendCount, sendDispl, d));
    PlannedKeys(c, p, plan, d);
    assert |sent| == |multiset(sent)|;
  }

  lemma IntervalIsOrdered(c: Config, p: nat, plan: SortPlan, d: nat)
    requires IsSortPhase(c, p, plan) && d < c.rankCount
    ensures plan.MinKey(d) <= plan.MaxKey(d) + 1
  {
    if d < plan.used {
      assert GreedyInterval(plan.counts, plan.average, plan.first, plan.last, d);
    }
    MulOrder(plan.first[d], plan.last[d] + 1, plan.width);
  }

  lemma ReceivedInInterval(c: Config, p: nat, plan: SortPlan, d: nat, received: seq<int>, total: int, k: int)
    requires HasReceived(c, p, plan, d, received, total) && k in received[..total]
    ensures plan.MinKey(d) <= k <= plan.MaxKey(d)
  {
    assert k in multiset(received[..total]);
    DeliveredInInterval(c, p, plan, d, k);
  }

  /**
   Ranking and sorting on rank d: counts the received keys, adds up their populations and scatters
   them into the key array. The result is the snapshot that the active-message version expands.
   */
  method SortReceived(received: seq<int>, total: nat, minKey: int, maxKey: int, work: array<int>, keyArray: array<int>,
                      ghost c: Config, ghost p: nat, ghost plan: SortPlan, ghost d: nat)
    requires HasReceived(c, p, plan, d, received, total)
    requires minKey == plan.MinKey(d) && maxKey == plan.MaxKey(d)
    requires work != keyArray && maxKey - minKey + 1 <= work.Length && total <= keyArray.Length
    modifies work, keyArray
    ensures |LocalKeys(plan, Total(c, p, d), d)| == total
    ensures keyArray[..] == Snapshot(old(keyArray[..]), LocalKeys(plan, Total(c, p, d), d)).KeyArray()
  {
    IntervalIsOrdered(c, p, plan, d);
    ghost var before := keyArray[..];
    var keyBuff2 := received[..total];
    forall k | k in keyBuff2 ensures minKey <= k <= maxKey {
      ReceivedInInterval(c, p, plan, d, received, total, k);
    }
    AllKeysInRange(keyBuff2, minKey, maxKey - minKey + 1);
    CountKeys(keyBuff2, minKey, maxKey, work);
    AccumulatePopulation(minKey, maxKey, work, multiset(keyBuff2));
    ghost var slots := ScatterKeys(keyBuff2, minKey, maxKey, work, keyArray);
    assert keyArray[..] == keyArray[..total] + keyArray[..][total..];
  }
}
