/**
 The MPI baseline from the plan to the sorted keys, and its agreement with the active-message
 version: the same bucket intervals, the same keys on every rank, the same sorted arrays.
 */
module MpiBaseline {
  import opened Collections
  import opened Histograms
  import opened BucketPlan
  import opened MpiBucketSort
  import opened AmProtocol
  import opened AmSafety
  import opened IntegerSort
  import opened SortPipeline

  // ---------- the plan ----------

  /** The segment of rank j in the send buffer: its buckets of the local bucket sort. */
  ghost predicate Segment(local: seq<int>, first: seq<int>, last: seq<int>,
                          sendCount: seq<int>, sendDispl: seq<int>, j: nat)
    requires j < |first| && j < |last| && j < |sendCount| && j < |sendDispl|
  {
    && 0 <= first[j] <= last[j] < |local|
    && sendDispl[j] == Prefix(local, first[j])
    && sendDispl[j] + sendCount[j] == Prefix(local, last[j] + 1)
  }

  /** A bucket that reaches the share closes rank j's interval and its segment of the send buffer. */
  method CloseSegment(first: array<int>, last: array<int>, sendCount: array<int>, sendDispl: array<int>,
                      j: nat, i: nat, localAccumulator: int,
                      ghost counts: seq<int>, ghost numKeys: nat, ghost toRank: seq<int>, ghost local: seq<int>)
    requires first != last && sendCount !in {first, last, sendDispl} && sendDispl !in {first, last}
    requires j < first.Length && j < last.Length && j < sendCount.Length && j < sendDispl.Length
    requires Planning(counts, numKeys, first[..], last[..], j, i) && i < |counts| == |local|
    requires i < |toRank| && Owners(toRank, first[..], last[..], j, i + 1)
    requires Prefix(counts, i + 1) >= Share(j + 1, numKeys)
    requires forall r :: 0 <= r < j ==> Segment(local, first[..], last[..], sendCount[..], sendDispl[..], r)
    requires localAccumulator == Prefix(local, i + 1) - Prefix(local, Start(last[..], j))
    requires j == 0 ==> first[0] == 0 && sendDispl[0] == 0
    modifies first, last, sendCount, sendDispl
    ensures Planning(counts, numKeys, first[..], last[..], j + 1, i + 1)
    ensures Owners(toRank, first[..], last[..], j + 1, i + 1)
    ensures last[..] == old(last[..])[j := i]
    ensures forall r :: 0 <= r <= j ==> Segment(local, first[..], last[..], sendCount[..], sendDispl[..], r)
  {
    assert j > 0 ==> Segment(local, first[..], last[..], sendCount[..], sendDispl[..], j - 1);
    sendCount[j] := localAccumulator;
    if j != 0 {
      sendDispl[j] := sendDispl[j - 1] + sendCount[j - 1];
    }
    ghost var first', last', displ := first[..], last[..], sendDispl[..];
    assert sendDispl[j] == Prefix(local, Start(last', j));
    CloseAt(first, last, j, i, counts, numKeys, toRank);
    forall r | 0 <= r < j ensures Segment(local, first[..], last[..], sendCount[..], sendDispl[..], r) {
      assert Segment(local, old(first[..]), old(last[..]), old(sendCount[..]), old(sendDispl[..]), r);
    }
  }

  /** The redistribution loop of rank() over the buckets. */
  method AssignSegments(totals: array<int>, bucketSize: array<int>, first: array<int>, last: array<int>,
                        sendCount: array<int>, sendDispl: array<int>, commSize: nat, numBuckets: nat, numKeys: nat)
    returns (j: nat, ghost toRank: seq<int>)
    requires 0 < numBuckets <= totals.Length && numBuckets <= bucketSize.Length
    requires 0 < commSize <= first.Length && commSize <= last.Length && numKeys > 0
    requires commSize <= sendCount.Length && commSize <= sendDispl.Length
    requires Counts(totals[..numBuckets]) && Sum(totals[..numBuckets]) == Share(commSize, numKeys)
    requires first != last && first != totals && last != totals && first != bucketSize && last != bucketSize
    requires sendCount !in {totals, bucketSize, first, last} && sendDispl !in {totals, bucketSize, first, last}
    requires sendCount != sendDispl
    modifies first, last, sendCount, sendDispl
    ensures j <= commSize && |toRank| == numBuckets
    ensures Planning(totals[..numBuckets], numKeys, first[..], last[..], j, numBuckets)
    ensures Owners(toRank, first[..], last[..], j, numBuckets)
    ensures forall r :: 0 <= r < j ==>
              Segment(bucketSize[..numBuckets], first[..], last[..], sendCount[..], sendDispl[..], r)
    ensures forall r :: j <= r < last.Length ==> last[r] == old(last[r])
  {
    ghost var counts, local := totals[..numBuckets], bucketSize[..numBuckets];
    var accumulator, localAccumulator := 0, 0;
    sendDispl[0] := 0;
    first[0] := 0;
    j := 0;
    toRank := seq(numBuckets, _ => 0);
    for i := 0 to numBuckets
      invariant j <= commSize && |toRank| == numBuckets
      invariant totals[..numBuckets] == counts && bucketSize[..numBuckets] == local
      invariant Planning(counts, numKeys, first[..], last[..], j, i)
      invariant Owners(toRank, first[..], last[..], j, i)
      invariant forall r :: 0 <= r < j ==> Segment(local, first[..], last[..], sendCount[..], sendDispl[..], r)
      invariant forall r :: j <= r < last.Length ==> last[r] == old(last[r])
      invariant j == 0 ==> first[0] == 0 && sendDispl[0] == 0
      invariant accumulator == Prefix(counts, i)
      invariant localAccumulator == Prefix(local, i) - Prefix(local, Start(last[..], j))
    {
      SumStep(counts, i);
      SumStep(local, i);
      accumulator := accumulator + totals[i];
      localAccumulator := localAccumulator + bucketSize[i];
      OwnBucket(toRank, counts, numKeys, first[..], last[..], j, i);
      toRank := toRank[i := j];
      if accumulator >= Share(j + 1, numKeys) {
        WithinShares(counts, commSize, j, numKeys, i);
        CloseSegment(first, last, sendCount, sendDispl, j, i, localAccumulator, counts, numKeys, toRank, local);
        j := j + 1;
        localAccumulator := 0;
      } else {
        StayOpen(counts, numKeys, first[..], last[..], j, i);
      }
    }
  }

  /** Ranks that get no buckets. */
  method MarkIdleRanks(first: array<int>, sendCount: array<int>, used: nat, commSize: nat)
    requires used <= commSize <= first.Length && commSize <= sendCount.Length && first != sendCount
    modifies first, sendCount
    ensures forall r :: 0 <= r < used ==> first[r] == old(first[r]) && sendCount[r] == old(sendCount[r])
    ensures forall r :: used <= r < commSize ==> first[r] == 1 && sendCount[r] == 0
  {
    var j := used;
    while j < commSize
      invariant used <= j <= commSize
      invariant forall r :: 0 <= r < used ==> first[r] == old(first[r]) && sendCount[r] == old(sendCount[r])
      invariant forall r :: used <= r < j ==> first[r] == 1 && sendCount[r] == 0
    {
      sendCount[j] := 0;
      first[j] := 1;
      j := j + 1;
    }
  }

  /**
   The redistribution plan of rank(), on cleared bucket metadata. A rank without buckets sends
   nothing; its displacement is left as it was.
   */
  method PlanSegments(totals: array<int>, bucketSize: array<int>, first: array<int>, last: array<int>,
                      sendCount: array<int>, sendDispl: array<int>, commSize: nat, numBuckets: nat, numKeys: nat)
    returns (ghost used: nat, ghost toRank: seq<int>)
    requires 0 < numBuckets <= totals.Length && numBuckets <= bucketSize.Length
    requires 0 < commSize <= first.Length && commSize <= last.Length && numKeys > 0
    requires commSize <= sendCount.Length && commSize <= sendDispl.Length
    requires Counts(totals[..numBuckets]) && Sum(totals[..numBuckets]) == Share(commSize, numKeys)
    requires forall r :: 0 <= r < commSize ==> last[r] == 0
    requires first != last && first != totals && last != totals && first != bucketSize && last != bucketSize
    requires sendCount !in {totals, bucketSize, first, last} && sendDispl !in {totals, bucketSize, first, last}
    requires sendCount != sendDispl
    modifies first, last, sendCount, sendDispl
    ensures |toRank| == numBuckets
    ensures GreedyPlan(totals[..numBuckets], numKeys, commSize, first[..], last[..], used)
    ensures Owners(toRank, first[..], last[..], used, numBuckets)
    ensures forall r :: 0 <= r < used ==>
              Segment(bucketSize[..numBuckets], first[..], last[..], sendCount[..], sendDispl[..], r)
    ensures forall r :: used <= r < commSize ==> sendCount[r] == 0
  {
    ghost var counts := totals[..numBuckets];
    var j;
    j, toRank := AssignSegments(totals, bucketSize, first, last, sendCount, sendDispl, commSize, numBuckets, numKeys);
    used := j;
    PlanningEnds(counts, numKeys, commSize, first[..], last[..], used);
    ghost var first', count' := first[..], sendCount[..];
    MarkIdleRanks(first, sendCount, j, commSize);
    TailCompletesPlan(counts, numKeys, commSize, first', first[..], last[..], used);
    forall r | 0 <= r < used
      ensures Segment(bucketSize[..numBuckets], first[..], last[..], sendCount[..], sendDispl[..], r)
    {
      assert Segment(bucketSize[..numBuckets], first', last[..], count', sendDispl[..], r);
    }
  }

  // ---------- the exchange ----------

  /** What a count and a displacement select; with a count of zero the displacement does not matter. */
  function SegmentOf(buffer: seq<int>, displ: int, count: int): seq<int>
  {
    if 0 <= displ && 0 < count && displ + count <= |buffer| then buffer[displ..displ + count] else []
  }

  lemma {:induction false} LocalPrefix(keys: seq<nat>, width: nat, local: seq<int>, b: nat)
    requires width > 0 && b <= |local|
    requires forall i :: 0 <= i < |local| ==> local[i] == |BucketKeys(keys, width, i)|
    ensures Prefix(local, b) == BucketStart(keys, width, b)
  {
    if b > 0 {
      LocalPrefix(keys, width, local, b - 1);
      SumStep(local, b - 1);
    }
  }

  /** A run of buckets of the local bucket sort. */
  lemma BucketRun(keys: seq<nat>, width: nat, n: nat, lo: nat, hi: nat, k: nat)
    requires width > 0 && lo <= hi <= n
    ensures BucketStart(keys, width, lo) <= BucketStart(keys, width, hi) <= BucketStart(keys, width, n)
    ensures multiset(BucketSorted(keys, width, n)[BucketStart(keys, width, lo)..BucketStart(keys, width, hi)])[k]
         == if lo <= BucketOf(k, width) < hi then multiset(keys)[k] else 0
  {
    StartsGrow(keys, width, lo, hi);
    StartsGrow(keys, width, hi, n);
    LowBucketsFirst(keys, width, hi, n);
    SliceMultiplicity(keys, width, lo, hi, k);
    assert BucketSorted(keys, width, n)[BucketStart(keys, width, lo)..BucketStart(keys, width, hi)]
        == BucketSorted(keys, width, hi)[BucketStart(keys, width, lo)..];
  }

  lemma SegmentBounds(keys: seq<nat>, width: nat, local: seq<int>, first: seq<int>, last: seq<int>,
                      sendCount: seq<int>, sendDispl: seq<int>, j: nat)
    requires width > 0 && forall b :: 0 <= b < |local| ==> local[b] == |BucketKeys(keys, width, b)|
    requires j < |first| && j < |last| && j < |sendCount| && j < |sendDispl|
    requires Segment(local, first, last, sendCount, sendDispl, j)
    ensures 0 <= sendDispl[j] && 0 <= sendCount[j]
    ensures sendDispl[j] + sendCount[j] <= BucketStart(keys, width, |local|)
    ensures BucketStart(keys, width, first[j]) <= BucketStart(keys, width, last[j] + 1)
         <= BucketStart(keys, width, |local|)
    ensures SegmentOf(BucketSorted(keys, width, |local|), sendDispl[j], sendCount[j])
         == BucketSorted(keys, width, |local|)
            [BucketStart(keys, width, first[j])..BucketStart(keys, width, last[j] + 1)]
  {
    LocalPrefix(keys, width, local, first[j]);
    LocalPrefix(keys, width, local, last[j] + 1);
    StartsGrow(keys, width, first[j], last[j] + 1);
    StartsGrow(keys, width, last[j] + 1, |local|);
  }

  /** A used rank's segment holds the local keys of its bucket interval. */
  lemma SegmentMultiplicity(keys: seq<nat>, width: nat, local: seq<int>, first: seq<int>, last: seq<int>,
                            sendCount: seq<int>, sendDispl: seq<int>, j: nat, k: nat)
    requires width > 0 && forall b :: 0 <= b < |local| ==> local[b] == |BucketKeys(keys, width, b)|
    requires j < |first| && j < |last| && j < |sendCount| && j < |sendDispl|
    requires Segment(local, first, last, sendCount, sendDispl, j)
    ensures multiset(SegmentOf(BucketSorted(keys, width, |local|), sendDispl[j], sendCount[j]))[k]
         == if first[j] <= BucketOf(k, width) <= last[j] then multiset(keys)[k] else 0
  {
    SegmentBounds(keys, width, local, first, last, sendCount, sendDispl, j);
    BucketRun(keys, width, |local|, first[j], last[j] + 1, k);
  }

  /** The key's owner is rank j exactly if its bucket is in rank j's interval; an unused rank owns no key. */
  lemma OwnerOfKey(plan: SortPlan, commSize: nat, j: nat, k: nat)
    requires plan.width > 0 && j < commSize
    requires GreedyPlan(plan.counts, plan.average, commSize, plan.first, plan.last, plan.used)
    requires |plan.counts| <= |plan.toRank| && Owners(plan.toRank, plan.first, plan.last, plan.used, |plan.counts|)
    requires BucketOf(k, plan.width) < |plan.counts|
    ensures plan.toRank[BucketOf(k, plan.width)] == j
       <==> j < plan.used && plan.first[j] <= BucketOf(k, plan.width) <= plan.last[j]
  {
    var b := BucketOf(k, plan.width);
    BucketsArePartitioned(plan.counts, plan.average, commSize, plan.toRank, plan.first, plan.last, plan.used, b);
    assert plan.toRank[b] == j <==> plan.first[j] <= b <= plan.last[j];
  }

  /** The segments of one rank's send buffer, planned by PlanSegments from its own bucket counts. */
  ghost predicate Segmented(keys: seq<nat>, plan: SortPlan, commSize: nat, local: seq<int>,
                            sendCount: seq<int>, sendDispl: seq<int>)
    requires plan.width > 0
  {
    && commSize <= |sendCount| && commSize <= |sendDispl| && commSize <= |plan.first| && commSize <= |plan.last|
    && |local| == |plan.counts| && (forall b :: 0 <= b < |local| ==> local[b] == |BucketKeys(keys, plan.width, b)|)
    && (forall j :: 0 <= j < commSize && j < plan.used ==>
          Segment(local, plan.first, plan.last, sendCount, sendDispl, j))
    && (forall j :: 0 <= j < commSize && j >= plan.used ==> sendCount[j] == 0)
  }

  /** How often a key occurs in the segment for rank j: all its local copies or none. */
  lemma KeyInSegment(keys: seq<nat>, plan: SortPlan, commSize: nat, local: seq<int>,
                     sendCount: seq<int>, sendDispl: seq<int>, j: nat, k: nat)
    requires plan.width > 0 && j < commSize
    requires GreedyPlan(plan.counts, plan.average, commSize, plan.first, plan.last, plan.used)
    requires |plan.counts| <= |plan.toRank| && Owners(plan.toRank, plan.first, plan.last, plan.used, |plan.counts|)
    requires Segmented(keys, plan, commSize, local, sendCount, sendDispl)
    requires k in keys ==> BucketOf(k, plan.width) < |plan.counts|
    ensures multiset(SegmentOf(BucketSorted(keys, plan.width, |local|), sendDispl[j], sendCount[j]))[k]
         == if k in keys && plan.toRank[BucketOf(k, plan.width)] == j then multiset(keys)[k] else 0
  {
    if k in keys {
      OwnerOfKey(plan, commSize, j, k);
    }
    if j < plan.used {
      SegmentMultiplicity(keys, plan.width, local, plan.first, plan.last, sendCount, sendDispl, j, k);
    }
  }

  lemma SegmentsHoldNaturals(keys: seq<nat>, width: nat, n: nat, displ: int, count: int, k: int)
    requires width > 0 && k < 0
    ensures multiset(SegmentOf(BucketSorted(keys, width, n), displ, count))[k] == 0
  {
    assert forall i :: 0 <= i < |SegmentOf(BucketSorted(keys, width, n), displ, count)| ==>
             SegmentOf(BucketSorted(keys, width, n), displ, count)[i] >= 0;
  }

  /**
   The segment of every rank, also of one that gets nothing, is the multiset of local keys that
   the active-message version routes to it.
   */
  lemma SegmentIsRouted(keys: seq<nat>, plan: SortPlan, commSize: nat, local: seq<int>,
                        sendCount: seq<int>, sendDispl: seq<int>, route: Key -> nat, j: nat)
    requires plan.width > 0 && j < commSize
    requires GreedyPlan(plan.counts, plan.average, commSize, plan.first, plan.last, plan.used)
    requires |plan.counts| <= |plan.toRank| && Owners(plan.toRank, plan.first, plan.last, plan.used, |plan.counts|)
    requires Segmented(keys, plan, commSize, local, sendCount, sendDispl)
    requires forall k :: k in keys ==>
               BucketOf(k, plan.width) < |plan.counts| && route(k) == plan.toRank[BucketOf(k, plan.width)]
    ensures multiset(SegmentOf(BucketSorted(keys, plan.width, |local|), sendDispl[j], sendCount[j]))
         == DestinedTo(keys, route, j)
  {
    var segment := SegmentOf(BucketSorted(keys, plan.width, |local|), sendDispl[j], sendCount[j]);
    forall k ensures multiset(segment)[k] == DestinedTo(keys, route, j)[k] {
      DestinedCount(keys, route, j, k);
      if k >= 0 {
        KeyInSegment(keys, plan, commSize, local, sendCount, sendDispl, j, k);
      } else {
        SegmentsHoldNaturals(keys, plan.width, |local|, sendDispl[j], sendCount[j], k);
      }
    }
  }

  /** The receive displacements, from the counts that the all-to-all exchange delivered. */
  method ReceiveDisplacements(recvCount: seq<int>, recvDispl: array<int>, commSize: nat, ghost segments: seq<seq<int>>)
    requires 0 < commSize <= recvDispl.Length && commSize == |recvCount| == |segments|
    requires forall r :: 0 <= r < commSize ==> recvCount[r] == |segments[r]|
    modifies recvDispl
    ensures forall r :: 0 <= r < commSize ==> recvDispl[r] == |Concat(segments[..r])|
  {
    recvDispl[0] := 0;
    for i := 1 to commSize
      invariant forall r :: 0 <= r < i ==> recvDispl[r] == |Concat(segments[..r])|
    {
      ConcatStep(segments, i);
      recvDispl[i] := recvDispl[i - 1] + recvCount[i - 1];
    }
  }

  /** A segment lies at its displacement in the receive buffer. */
  ghost predicate ReceivedAt(received: seq<int>, recvDispl: int, segment: seq<int>)
  {
    0 <= recvDispl && recvDispl + |segment| <= |received| && received[recvDispl..recvDispl + |segment|] == segment
  }

  lemma JoinSlices(s: seq<int>, at: nat, end: nat)
    requires at <= end <= |s|
    ensures s[..end] == s[..at] + s[at..end]
  {
  }

  /** A vector exchange that puts every segment at its displacement delivers the segments in rank order. */
  lemma {:induction false} ExchangeIsConcatenation(received: seq<int>, recvDispl: seq<int>, segments: seq<seq<int>>,
                                                  n: nat)
    requires n <= |segments| <= |recvDispl|
    requires forall r :: 0 <= r < |segments| ==> recvDispl[r] == |Concat(segments[..r])|
    requires forall r :: 0 <= r < |segments| ==> ReceivedAt(received, recvDispl[r], segments[r])
    ensures |Concat(segments[..n])| <= |received| && received[..|Concat(segments[..n])|] == Concat(segments[..n])
  {
    if n > 0 {
      ExchangeIsConcatenation(received, recvDispl, segments, n - 1);
      ConcatStep(segments, n);
      var at, segment := recvDispl[n - 1], segments[n - 1];
      assert at == |Concat(segments[..n - 1])|;
      assert ReceivedAt(received, at, segment);
      JoinSlices(received, at, at + |segment|);
    }
  }

  lemma {:induction false} ConcatMultiplicity(segments: seq<seq<int>>, held: seq<multiset<Key>>, keep: bool, k: Key)
    requires |segments| == |held|
    requires forall r :: 0 <= r < |held| ==> multiset(segments[r])[k] == if keep then held[r][k] else 0
    ensures multiset(Concat(segments))[k] == if keep then MSum(held)[k] else 0
  {
    if segments != [] {
      ConcatMultiplicity(segments[..|segments| - 1], held[..|held| - 1], keep, k);
    }
  }

  lemma ExchangedKey(keys: seq<seq<nat>>, held: seq<multiset<Key>>, segments: seq<seq<int>>, route: Key -> nat,
                     j: nat, k: Key)
    requires |keys| == |held| == |segments|
    requires forall r :: 0 <= r < |keys| ==> multiset(keys[r]) == held[r]
    requires forall r :: 0 <= r < |keys| ==> multiset(segments[r]) == DestinedTo(keys[r], route, j)
    ensures multiset(Concat(segments))[k] == if route(k) == j then MSum(held)[k] else 0
  {
    forall r | 0 <= r < |held|
      ensures multiset(segments[r])[k] == if route(k) == j then held[r][k] else 0
    {
      DestinedCount(keys[r], route, j, k);
    }
    ConcatMultiplicity(segments, held, route(k) == j, k);
  }

  /**
   The exchange delivers to every rank exactly the keys that the active-message redistribution
   delivers to it.
   */
  lemma ExchangeDeliversTotal(c: Config, p: nat, keys: seq<seq<nat>>, segments: seq<seq<int>>, j: nat)
    requires 0 < p <= |c.phases| && |c.phases[p - 1].work| == |c.home|
    requires forall g :: 0 <= g < |c.home| ==> c.home[g] < c.rankCount
    requires c.rankCount == |segments| == |keys|
    requires forall r :: 0 <= r < c.rankCount ==> multiset(keys[r]) == KeysByRank(c, p)[r]
    requires forall r :: 0 <= r < c.rankCount ==> multiset(segments[r]) == DestinedTo(keys[r], PhaseOf(c, p).route, j)
    ensures multiset(Concat(segments)) == Total(c, p, j)
  {
    RanksHoldAllKeys(c, p);
    forall k ensures multiset(Concat(segments))[k] == Total(c, p, j)[k] {
      ExchangedKey(keys, KeysByRank(c, p), segments, PhaseOf(c, p).route, j, k);
      TotalCount(c, p, j, k);
    }
  }

  /** The local part of every rank: its keys, bucket counts and segments. */
  ghost predicate AllSegmented(c: Config, p: nat, plan: SortPlan, keys: seq<seq<nat>>, local: seq<seq<int>>,
                               sendCount: seq<seq<int>>, sendDispl: seq<seq<int>>)
    requires 0 < p <= |c.phases| && |c.phases[p - 1].work| == |c.home| && plan.width > 0
  {
    && |keys| == |local| == |sendCount| == |sendDispl| == c.rankCount
    && (forall r :: 0 <= r < c.rankCount ==> multiset(keys[r]) == KeysByRank(c, p)[r])
    && (forall r :: 0 <= r < c.rankCount ==>
          Segmented(keys[r], plan, c.rankCount, local[r], sendCount[r], sendDispl[r]))
  }

  /** What all ranks send to rank d, in rank order. */
  function SentTo(plan: SortPlan, keys: seq<seq<nat>>, sendCount: seq<seq<int>>, sendDispl: seq<seq<int>>, d: nat)
    : (segments: seq<seq<int>>)
    requires plan.width > 0 && |keys| == |sendCount| == |sendDispl|
    requires forall r :: 0 <= r < |keys| ==> d < |sendCount[r]| && d < |sendDispl[r]|
    ensures |segments| == |keys|
  {
    seq(|keys|, r requires 0 <= r < |keys| =>
      SegmentOf(BucketSorted(keys[r], plan.width, |plan.counts|), sendDispl[r][d], sendCount[r][d]))
  }

  lemma RankKeysAreRouted(c: Config, p: nat, plan: SortPlan, keys: seq<seq<nat>>, r: nat, k: nat)
    requires IsSortPhase(c, p, plan) && r < c.rankCount == |keys| && k in keys[r]
    requires forall g :: 0 <= g < |c.home| ==> c.home[g] < c.rankCount
    requires multiset(keys[r]) == KeysByRank(c, p)[r]
    ensures BucketOf(k, plan.width) < |plan.counts|
    ensures PhaseOf(c, p).route(k) == plan.toRank[BucketOf(k, plan.width)]
  {
    RanksHoldAllKeys(c, p);
    MSumAround(KeysByRank(c, p), r);
    assert k in multiset(keys[r]);
    assert k in AllKeys(c, p);
    assert Routed(c, p, plan, k);
    BucketInRange(k, |plan.counts|, plan.width);
  }

  /** The two versions agree: the segments sent to rank d are the keys that the protocol delivers to it. */
  lemma BaselineAgrees(c: Config, p: nat, plan: SortPlan, keys: seq<seq<nat>>, local: seq<seq<int>>,
                       sendCount: seq<seq<int>>, sendDispl: seq<seq<int>>, d: nat)
    requires IsSortPhase(c, p, plan) && d < c.rankCount
    requires forall g :: 0 <= g < |c.home| ==> c.home[g] < c.rankCount
    requires AllSegmented(c, p, plan, keys, local, sendCount, sendDispl)
    ensures multiset(Concat(SentTo(plan, keys, sendCount, sendDispl, d))) == Total(c, p, d)
  {
    var segments := SentTo(plan, keys, sendCount, sendDispl, d);
    forall r | 0 <= r < c.rankCount
      ensures multiset(segments[r]) == DestinedTo(keys[r], PhaseOf(c, p).route, d)
    {
      assert Segmented(keys[r], plan, c.rankCount, local[r], sendCount[r], sendDispl[r]);
      forall k | k in keys[r]
        ensures BucketOf(k, plan.width) < |plan.counts|
        ensures PhaseOf(c, p).route(k) == plan.toRank[BucketOf(k, plan.width)]
      {
        RankKeysAreRouted(c, p, plan, keys, r, k);
      }
      SegmentIsRouted(keys[r], plan, c.rankCount, local[r], sendCount[r], sendDispl[r], PhaseOf(c, p).route, d);
    }
    ExchangeDeliversTotal(c, p, keys, segments, d);
  }
}
