/**
 Which ranks a greedy plan leaves without keys, decided on the bucket counts alone: ranks whose
 only bucket is empty, and tail ranks for which no bucket is left.
 */
module IdleRanks {
  import opened Collections
  import opened BucketPlan

  // ---------- where a rank's interval ends ----------

  /** The first bucket from b on that brings the running key count to the target; none if it is |counts|. */
  function Reaches(counts: seq<int>, target: int, b: nat): (at: nat)
    requires b <= |counts|
    ensures b <= at <= |counts|
    ensures at < |counts| ==> Prefix(counts, at + 1) >= target
    ensures forall n :: b < n <= at ==> Prefix(counts, n) < target
    decreases |counts| - b
  {
    if b == |counts| || Prefix(counts, b + 1) >= target then b else Reaches(counts, target, b + 1)
  }

  /** The first bucket that brings the count to the share of rank q, and r - q buckets further. */
  function Pushed(counts: seq<int>, average: nat, q: nat, r: nat): nat
    requires q <= r
  {
    Reaches(counts, Share(q + 1, average), 0) + (r - q)
  }

  /**
   The bucket that closes the interval of rank r, if there were enough buckets: the first one that
   reaches the rank's share, but at least one after its predecessor's.
   */
  function Closing(counts: seq<int>, average: nat, r: nat): nat
  {
    if r == 0 then Pushed(counts, average, r, r)
    else
      var next := Closing(counts, average, r - 1) + 1;
      if next < Pushed(counts, average, r, r) then Pushed(counts, average, r, r) else next
  }

  lemma PushedFurther(counts: seq<int>, average: nat, q: nat, r: nat)
    requires q < r
    ensures Pushed(counts, average, q, r) == Pushed(counts, average, q, r - 1) + 1
  {
  }

  ghost predicate Greatest(counts: seq<int>, average: nat, r: nat, at: nat)
  {
    forall q :: 0 <= q <= r ==> Pushed(counts, average, q, r) <= at
  }

  lemma GreatestStep(counts: seq<int>, average: nat, r: nat, before: nat, at: nat)
    requires r > 0 && Greatest(counts, average, r - 1, before)
    requires before + 1 <= at && Pushed(counts, average, r, r) <= at
    ensures Greatest(counts, average, r, at)
  {
    forall q | 0 <= q < r ensures Pushed(counts, average, q, r) <= at {
      PushedFurther(counts, average, q, r);
    }
  }

  /** Without recursion: the greatest of the buckets that the ranks q <= r reach, pushed r - q further. */
  lemma {:induction false} ClosingIsMaximum(counts: seq<int>, average: nat, r: nat) returns (leader: nat)
    ensures leader <= r && Closing(counts, average, r) == Pushed(counts, average, leader, r)
    ensures Greatest(counts, average, r, Closing(counts, average, r))
  {
    leader := r;
    if r > 0 {
      var before := ClosingIsMaximum(counts, average, r - 1);
      GreatestStep(counts, average, r, Closing(counts, average, r - 1), Closing(counts, average, r));
      if Pushed(counts, average, r, r) <= Closing(counts, average, r - 1) {
        leader := before;
        PushedFurther(counts, average, before, r);
      }
    }
  }

  lemma {:induction false} ReachesNoLater(counts: seq<int>, target: int, b: nat, end: nat)
    requires b <= end < |counts| && Prefix(counts, end + 1) >= target
    ensures Reaches(counts, target, b) <= end
    decreases end - b
  {
    if b < end {
      ReachesNoLater(counts, target, b + 1, end);
    }
  }

  /** An interval that starts at `start` and is the shortest one to reach the target. */
  lemma ShortestInterval(counts: seq<int>, target: int, start: nat, end: nat)
    requires Counts(counts) && start <= end < |counts| && Prefix(counts, end + 1) >= target
    requires forall b :: start < b <= end ==> Prefix(counts, b) < target
    ensures var reached := Reaches(counts, target, 0); end == if start < reached then reached else start
  {
    var reached := Reaches(counts, target, 0);
    ReachesNoLater(counts, target, 0, end);
    if start < end && reached < end {
      PrefixMonotone(counts, reached + 1, end);
    }
  }

  /** The planner closes the intervals exactly there. */
  lemma {:induction false} PlanClosesThere(counts: seq<int>, average: nat, commSize: nat,
                                          first: seq<int>, last: seq<int>, used: nat, r: nat)
    requires GreedyPlan(counts, average, commSize, first, last, used) && Counts(counts) && r < used
    ensures last[r] == Closing(counts, average, r)
  {
    assert GreedyInterval(counts, average, first, last, r);
    ShortestInterval(counts, Share(r + 1, average), first[r], last[r]);
    if r > 0 {
      PlanClosesThere(counts, average, commSize, first, last, used, r - 1);
    }
  }

  /** Tail ranks find no bucket left. */
  lemma {:induction false} NothingLeftForTail(counts: seq<int>, average: nat, commSize: nat,
                                             first: seq<int>, last: seq<int>, used: nat, r: nat)
    requires GreedyPlan(counts, average, commSize, first, last, used) && Counts(counts) && used <= r < commSize
    ensures Closing(counts, average, r) >= |counts|
  {
    if r == used {
      PlanClosesThere(counts, average, commSize, first, last, used, used - 1);
    } else {
      NothingLeftForTail(counts, average, commSize, first, last, used, r - 1);
    }
  }

  /** Every rank closes an interval exactly if there is a bucket left for the last one. */
  lemma NoTail(counts: seq<int>, average: nat, commSize: nat, first: seq<int>, last: seq<int>, used: nat)
    requires GreedyPlan(counts, average, commSize, first, last, used) && Counts(counts)
    ensures used == commSize <==> Closing(counts, average, commSize - 1) < |counts|
  {
    if used == commSize {
      PlanClosesThere(counts, average, commSize, first, last, used, used - 1);
      assert GreedyInterval(counts, average, first, last, used - 1);
    } else {
      NothingLeftForTail(counts, average, commSize, first, last, used, commSize - 1);
    }
  }

  // ---------- ranks without keys ----------

  /** An interval has keys exactly if the bucket that closes it has. */
  lemma ClosingBucketDecides(counts: seq<int>, average: nat, commSize: nat,
                             first: seq<int>, last: seq<int>, used: nat, r: nat)
    requires GreedyPlan(counts, average, commSize, first, last, used) && Counts(counts) && r < used
    ensures 0 <= first[r] <= last[r] < |counts|
    ensures IntervalKeys(counts, first[r], last[r]) > 0 <==> counts[last[r]] > 0
  {
    assert GreedyInterval(counts, average, first, last, r);
    SumStep(counts, last[r]);
    PrefixMonotone(counts, first[r], last[r]);
    if first[r] < last[r] {
      assert Prefix(counts, last[r]) < Share(r + 1, average);
    }
  }

  /** Decidable before planning: there is a bucket left to close the interval of rank r, and it is not empty. */
  predicate Busy(counts: seq<int>, average: nat, r: nat)
  {
    var b := Closing(counts, average, r);
    b < |counts| && counts[b] > 0
  }

  /** Any rank, used or in the tail, is given keys exactly if the counts say so. */
  lemma RankHasKeys(counts: seq<int>, average: nat, commSize: nat,
                    first: seq<int>, last: seq<int>, used: nat, r: nat)
    requires GreedyPlan(counts, average, commSize, first, last, used) && Counts(counts) && r < commSize
    ensures IntervalKeys(counts, first[r], last[r]) > 0 <==> Busy(counts, average, r)
  {
    if r < used {
      PlanClosesThere(counts, average, commSize, first, last, used, r);
      ClosingBucketDecides(counts, average, commSize, first, last, used, r);
    } else {
      NothingLeftForTail(counts, average, commSize, first, last, used, r);
    }
  }

  /** No rank is left idle exactly if every rank's closing bucket exists and holds a key. */
  lemma NoRankIsIdle(counts: seq<int>, average: nat, commSize: nat, first: seq<int>, last: seq<int>, used: nat)
    requires GreedyPlan(counts, average, commSize, first, last, used) && Counts(counts)
    ensures (forall r :: 0 <= r < commSize ==> IntervalKeys(counts, first[r], last[r]) > 0)
       <==> (forall r :: 0 <= r < commSize ==> Busy(counts, average, r))
  {
    forall r | 0 <= r < commSize
      ensures IntervalKeys(counts, first[r], last[r]) > 0 <==> Busy(counts, average, r)
    {
      RankHasKeys(counts, average, commSize, first, last, used, r);
    }
  }

  /**
   A used rank ends up without keys exactly if the keys before its interval already reach its
   share and its one bucket is empty.
   */
  lemma KeylessRank(counts: seq<int>, average: nat, commSize: nat, first: seq<int>, last: seq<int>, used: nat, r: nat)
    requires GreedyPlan(counts, average, commSize, first, last, used) && Counts(counts) && r < used
    ensures 0 <= first[r] <= last[r] < |counts|
    ensures IntervalKeys(counts, first[r], last[r]) == 0
       <==> Prefix(counts, first[r]) >= Share(r + 1, average) && counts[first[r]] == 0
  {
    assert GreedyInterval(counts, average, first, last, r);
    SumStep(counts, first[r]);
    PrefixMonotone(counts, first[r] + 1, last[r] + 1);
  }

  /** When no bucket exceeds the average, no rank starts with its share already reached. */
  lemma {:induction false} OvershootIsOneBucket(counts: seq<int>, average: nat, commSize: nat,
                                               first: seq<int>, last: seq<int>, used: nat, r: nat)
    requires GreedyPlan(counts, average, commSize, first, last, used) && Counts(counts) && r < used && average > 0
    requires forall b :: 0 <= b < |counts| ==> counts[b] <= average
    ensures 0 <= first[r] <= last[r] < |counts|
    ensures Prefix(counts, first[r]) < Share(r + 1, average)
    decreases r
  {
    assert GreedyInterval(counts, average, first, last, r);
    assert Share(r + 1, average) == Share(r, average) + average;
    if r > 0 {
      OvershootIsOneBucket(counts, average, commSize, first, last, used, r - 1);
      assert GreedyInterval(counts, average, first, last, r - 1);
      SumStep(counts, last[r - 1]);
    }
  }

  /** When no bucket holds more keys than the average load, every used rank has keys. */
  lemma SmallBucketsFillUsedRanks(counts: seq<int>, average: nat, commSize: nat, first: seq<int>, last: seq<int>,
                                     used: nat, r: nat)
    requires GreedyPlan(counts, average, commSize, first, last, used) && Counts(counts) && r < used && average > 0
    requires forall b :: 0 <= b < |counts| ==> counts[b] <= average
    ensures IntervalKeys(counts, first[r], last[r]) > 0
  {
    OvershootIsOneBucket(counts, average, commSize, first, last, used, r);
    KeylessRank(counts, average, commSize, first, last, used, r);
    PrefixMonotone(counts, first[r], last[r] + 1);
  }

  /** And then there is no tail: every rank closes an interval. */
  lemma SmallBucketsUseAll(counts: seq<int>, average: nat, commSize: nat, first: seq<int>, last: seq<int>, used: nat)
    requires GreedyPlan(counts, average, commSize, first, last, used) && Counts(counts) && average > 0
    requires Sum(counts) == Share(commSize, average)
    requires forall b :: 0 <= b < |counts| ==> counts[b] <= average
    ensures used == commSize
  {
    if used < commSize {
      var r := used - 1;
      assert GreedyInterval(counts, average, first, last, r);
      OvershootIsOneBucket(counts, average, commSize, first, last, used, r);
      SumStep(counts, last[r]);
      assert counts[..|counts|] == counts;
      assert Share(used + 1, average) == Share(used, average) + average;
      ShareMonotone(commSize, used + 1, average);
    }
  }

  /** When no bucket holds more keys than the average load, no rank is left idle. */
  lemma SmallBucketsLeaveNoRankIdle(counts: seq<int>, average: nat, commSize: nat,
                                    first: seq<int>, last: seq<int>, used: nat, r: nat)
    requires GreedyPlan(counts, average, commSize, first, last, used) && Counts(counts) && average > 0
    requires Sum(counts) == Share(commSize, average) && r < commSize
    requires forall b :: 0 <= b < |counts| ==> counts[b] <= average
    ensures IntervalKeys(counts, first[r], last[r]) > 0 && Busy(counts, average, r)
  {
    SmallBucketsUseAll(counts, average, commSize, first, last, used);
    SmallBucketsFillUsedRanks(counts, average, commSize, first, last, used, r);
    RankHasKeys(counts, average, commSize, first, last, used, r);
  }
}
