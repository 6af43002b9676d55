/**
 Greedy bucket ownership: consecutive buckets go to one rank until the running key count
 reaches that rank's share of the average load.
 */
module BucketPlan {
  import opened Collections
  import opened Powers

  datatype Plan = Plan(expectedRecvCount: int, minKey: int, maxKey: int, lesserKeyCount: int, localKeyCount: int)

  /** The average load of r ranks together. */
  function Share(r: nat, average: nat): nat
  {
    r * average
  }

  ghost predicate Counts(counts: seq<int>)
  {
    forall b :: 0 <= b < |counts| ==> counts[b] >= 0
  }

  /** The first bucket after the intervals of ranks 0 .. r - 1. */
  function Start(last: seq<int>, r: nat): int
    requires r <= |last|
  {
    if r == 0 then 0 else last[r - 1] + 1
  }

  /** Rank r's interval is the shortest one after its predecessor's that brings the prefix to (r + 1) shares. */
  ghost predicate GreedyInterval(counts: seq<int>, average: nat, first: seq<int>, last: seq<int>, r: nat)
    requires r < |first| && r < |last|
  {
    && first[r] == Start(last, r) && 0 <= first[r] <= last[r] < |counts|
    && Prefix(counts, last[r] + 1) >= Share(r + 1, average)
    && forall b :: first[r] < b <= last[r] ==> Prefix(counts, b) < Share(r + 1, average)
  }

  ghost predicate GreedyIntervals(counts: seq<int>, average: nat, first: seq<int>, last: seq<int>, used: nat)
  {
    && used <= |first| && used <= |last|
    && forall r :: 0 <= r < used ==> GreedyInterval(counts, average, first, last, r)
  }

  /** A complete plan: `used` greedy intervals, empty tail ranks, and no key outside the intervals. */
  ghost predicate GreedyPlan(counts: seq<int>, average: nat, commSize: nat, first: seq<int>, last: seq<int>, used: nat)
  {
    && 0 < used <= commSize && commSize <= |first| && commSize <= |last|
    && GreedyIntervals(counts, average, first, last, used)
    && (forall r :: used <= r < commSize ==> first[r] == 1 && last[r] == 0)
    && 0 <= Start(last, used) <= |counts|
    && (used < commSize ==> Start(last, used) == |counts|)
    && (forall b :: Start(last, used) <= b < |counts| ==> counts[b] == 0)
  }

  /** Every bucket in rank r's interval is owned by r; buckets after all intervals are owned by `used`. */
  ghost predicate Owners(toRank: seq<int>, first: seq<int>, last: seq<int>, used: nat, upTo: nat)
    requires used <= |first| && used <= |last| && upTo <= |toRank|
  {
    && (forall r, b :: 0 <= r < used && first[r] <= b <= last[r] && 0 <= b < upTo ==> toRank[b] == r)
    && (forall b :: Start(last, used) <= b < upTo && 0 <= b ==> toRank[b] == used)
  }

  lemma ShareMonotone(r: nat, r': nat, average: nat)
    requires average > 0
    ensures Share(r, average) < Share(r', average) <==> r < r'
  {
    MultipleBounds(r' - r, average);
    assert (r' - r) * average == r' * average - r * average;
  }

  /** The running state of the planning loop before it looks at bucket b. */
  ghost predicate Planning(counts: seq<int>, average: nat, first: seq<int>, last: seq<int>, owner: nat, b: nat)
  {
    && b <= |counts|
    && GreedyIntervals(counts, average, first, last, owner)
    && 0 <= Start(last, owner) <= b
    && forall i :: Start(last, owner) < i <= b ==> Prefix(counts, i) < Share(owner + 1, average)
  }

  /** A bucket that does not reach the share leaves the owner's interval open. */
  lemma StayOpen(counts: seq<int>, average: nat, first: seq<int>, last: seq<int>, owner: nat, b: nat)
    requires Planning(counts, average, first, last, owner, b) && b < |counts|
    requires Prefix(counts, b + 1) < Share(owner + 1, average)
    ensures Planning(counts, average, first, last, owner, b + 1)
  {
  }

  /** A bucket that reaches the share closes the owner's interval. */
  lemma CloseInterval(counts: seq<int>, average: nat, first: seq<int>, last: seq<int>,
                      first': seq<int>, last': seq<int>, owner: nat, b: nat)
    requires Planning(counts, average, first, last, owner, b) && b < |counts|
    requires owner < |first'| == |first| && owner < |last'| == |last|
    requires Prefix(counts, b + 1) >= Share(owner + 1, average)
    requires first' == first[owner := Start(last, owner)] && last' == last[owner := b]
    ensures Planning(counts, average, first', last', owner + 1, b + 1)
  {
    forall r | 0 <= r <= owner
      ensures GreedyInterval(counts, average, first', last', r)
    {
      if r < owner {
        assert GreedyInterval(counts, average, first, last, r);
      }
      assert Start(last', r) == Start(last, r);
    }
  }

  /** After the last bucket the intervals hold every key. */
  lemma PlanningEnds(counts: seq<int>, average: nat, commSize: nat, first: seq<int>, last: seq<int>, owner: nat)
    requires Counts(counts) && |counts| > 0 && average > 0 && commSize > 0
    requires Sum(counts) == Share(commSize, average)
    requires Planning(counts, average, first, last, owner, |counts|) && owner <= commSize
    ensures owner > 0
    ensures owner < commSize ==> Start(last, owner) == |counts|
    ensures forall b :: Start(last, owner) <= b < |counts| ==> counts[b] == 0
  {
    var n, start := |counts|, Start(last, owner);
    assert counts[..n] == counts;
    ShareMonotone(commSize, owner + 1, average);
    if start < n {
      assert Prefix(counts, n) < Share(owner + 1, average);
      assert GreedyInterval(counts, average, first, last, owner - 1);
      SumSplit(counts, start, n);
      SumNonnegative(counts[start..n]);
      forall b | start <= b < n ensures counts[b] == 0 {
        assert counts[b] == counts[start..n][b - start];
      }
    }
  }

  /** The number of keys in buckets first .. last; zero for an empty interval. */
  function IntervalKeys(counts: seq<int>, first: int, last: int): int
  {
    if 0 <= first <= last < |counts| then Prefix(counts, last + 1) - Prefix(counts, first) else 0
  }

  /** The number of keys in the intervals before rank r's. */
  function KeysBefore(counts: seq<int>, last: seq<int>, used: nat, r: nat): int
    requires used <= |last|
  {
    var end := Start(last, if r <= used then r else used);
    if 0 <= end <= |counts| then Prefix(counts, end) else 0
  }

  /** Intervals come one after the other. */
  lemma {:induction false} IntervalsBefore(counts: seq<int>, average: nat, first: seq<int>, last: seq<int>, used: nat)
    requires GreedyIntervals(counts, average, first, last, used)
    ensures forall r :: 0 <= r < used ==> last[r] < Start(last, used)
    ensures forall r, r' :: 0 <= r < r' < used ==> last[r] < first[r']
  {
    if used > 0 {
      IntervalsBefore(counts, average, first, last, used - 1);
      assert GreedyInterval(counts, average, first, last, used - 1);
    }
  }

  /** Giving the owner's bucket b its owner, before the interval may close. */
  lemma OwnBucket(toRank: seq<int>, counts: seq<int>, average: nat, first: seq<int>, last: seq<int>, owner: nat, b: nat)
    requires Planning(counts, average, first, last, owner, b) && b < |toRank|
    requires Owners(toRank, first, last, owner, b)
    ensures Owners(toRank[b := owner], first, last, owner, b + 1)
  {
    IntervalsBefore(counts, average, first, last, owner);
  }

  /** Closes the owner's interval at a bucket that reaches its share. */
  method CloseAt(first: array<int>, last: array<int>, owner: nat, bucket: nat,
                 ghost counts: seq<int>, ghost average: nat, ghost toRank: seq<int>)
    requires first != last && owner < first.Length && owner < last.Length
    requires Planning(counts, average, first[..], last[..], owner, bucket) && bucket < |counts|
    requires bucket < |toRank| && Owners(toRank, first[..], last[..], owner, bucket + 1)
    requires Prefix(counts, bucket + 1) >= Share(owner + 1, average)
    requires owner == 0 ==> first[0] == 0
    modifies first, last
    ensures first[..] == old(first[..])[owner := old(Start(last[..], owner))]
    ensures last[..] == old(last[..])[owner := bucket]
    ensures Planning(counts, average, first[..], last[..], owner + 1, bucket + 1)
    ensures Owners(toRank, first[..], last[..], owner + 1, bucket + 1)
  {
    ghost var first', last' := first[..], last[..];
    if owner != 0 {
      first[owner] := last[owner - 1] + 1;
    }
    last[owner] := bucket;
    CloseInterval(counts, average, first', last', first[..], last[..], owner, bucket);
  }

  /** What rank myRank expects once `owner` intervals are closed. */
  function Expected(counts: seq<int>, first: seq<int>, last: seq<int>, owner: nat, myRank: nat): int
    requires owner <= |first| && owner <= |last|
  {
    if myRank < owner then IntervalKeys(counts, first[myRank], last[myRank]) else 0
  }

  /** Closes the owner's interval; when the owner is this rank, the keys of the interval are what it expects. */
  method CloseOwner(first: array<int>, last: array<int>, owner: nat, bucket: nat, myRank: nat,
                    intervalKeys: int, expected: int,
                    ghost counts: seq<int>, ghost average: nat, ghost toRank: seq<int>)
    returns (expected': int)
    requires first != last && owner < first.Length && owner < last.Length
    requires Planning(counts, average, first[..], last[..], owner, bucket) && bucket < |counts|
    requires bucket < |toRank| && Owners(toRank, first[..], last[..], owner, bucket + 1)
    requires Prefix(counts, bucket + 1) >= Share(owner + 1, average)
    requires owner == 0 ==> first[0] == 0
    requires intervalKeys == Prefix(counts, bucket + 1) - Prefix(counts, Start(last[..], owner))
    requires expected == Expected(counts, first[..], last[..], owner, myRank)
    modifies first, last
    ensures Planning(counts, average, first[..], last[..], owner + 1, bucket + 1)
    ensures Owners(toRank, first[..], last[..], owner + 1, bucket + 1)
    ensures last[..] == old(last[..])[owner := bucket]
    ensures expected' == Expected(counts, first[..], last[..], owner + 1, myRank)
  {
    expected' := expected;
    if owner == myRank {
      expected' := intervalKeys;
    }
    CloseAt(first, last, owner, bucket, counts, average, toRank);
  }

  /** Only the ranks of the communicator can close an interval. */
  lemma WithinShares(counts: seq<int>, commSize: nat, owner: nat, average: nat, b: nat)
    requires Counts(counts) && b < |counts| && average > 0 && Sum(counts) == Share(commSize, average)
    requires Prefix(counts, b + 1) >= Share(owner + 1, average)
    ensures owner < commSize
  {
    assert counts[..|counts|] == counts;
    PrefixMonotone(counts, b + 1, |counts|);
    ShareMonotone(commSize, owner + 1, average);
  }

  /** The loop of build_bucket_plan over the buckets: intervals, owners and this rank's expected records. */
  method AssignBuckets(globalCounts: array<int>, bucketToRank: array<int>, first: array<int>, last: array<int>,
                       commSize: nat, myRank: nat, numBuckets: nat, average: nat)
    returns (ownerRank: nat, expected: int)
    requires 0 < numBuckets <= globalCounts.Length && numBuckets <= bucketToRank.Length
    requires myRank < commSize <= first.Length && commSize <= last.Length && average > 0
    requires Counts(globalCounts[..numBuckets]) && Sum(globalCounts[..numBuckets]) == Share(commSize, average)
    requires first != last && first != bucketToRank && last != bucketToRank
    requires first != globalCounts && last != globalCounts && bucketToRank != globalCounts
    modifies bucketToRank, first, last
    ensures Planning(globalCounts[..numBuckets], average, first[..], last[..], ownerRank, numBuckets)
    ensures ownerRank <= commSize
    ensures Owners(bucketToRank[..], first[..], last[..], ownerRank, numBuckets)
    ensures forall r :: ownerRank <= r < last.Length ==> last[r] == old(last[r])
    ensures expected == Expected(globalCounts[..numBuckets], first[..], last[..], ownerRank, myRank)
  {
    ghost var counts := globalCounts[..numBuckets];
    var accumulator, previous := 0, 0;
    ownerRank, expected := 0, 0;
    first[0] := 0;
    for bucket := 0 to numBuckets
      invariant ownerRank <= commSize && globalCounts[..numBuckets] == counts
      invariant Planning(counts, average, first[..], last[..], ownerRank, bucket)
      invariant Owners(bucketToRank[..], first[..], last[..], ownerRank, bucket)
      invariant forall r :: ownerRank <= r < last.Length ==> last[r] == old(last[r])
      invariant ownerRank == 0 ==> first[0] == 0
      invariant accumulator == Prefix(counts, bucket) && previous == Prefix(counts, Start(last[..], ownerRank))
      invariant expected == Expected(counts, first[..], last[..], ownerRank, myRank)
    {
      SumStep(counts, bucket);
      accumulator := accumulator + globalCounts[bucket];
      OwnBucket(bucketToRank[..], counts, average, first[..], last[..], ownerRank, bucket);
      bucketToRank[bucket] := ownerRank;
      if accumulator >= Share(ownerRank + 1, average) {
        WithinShares(counts, commSize, ownerRank, average, bucket);
        expected := CloseOwner(first, last, ownerRank, bucket, myRank, accumulator - previous, expected,
                               counts, average, bucketToRank[..]);
        ownerRank := ownerRank + 1;
        previous := accumulator;
      } else {
        StayOpen(counts, average, first[..], last[..], ownerRank, bucket);
      }
    }
  }

  // ---------- what a greedy plan means ----------

  lemma {:induction false} Locate(counts: seq<int>, average: nat, first: seq<int>, last: seq<int>, used: nat, b: nat)
    returns (r: nat)
    requires GreedyIntervals(counts, average, first, last, used)
    requires b < Start(last, used)
    ensures r < used && first[r] <= b <= last[r]
  {
    assert GreedyInterval(counts, average, first, last, used - 1);
    if first[used - 1] <= b {
      r := used - 1;
    } else {
      r := Locate(counts, average, first, last, used - 1, b);
    }
  }

  /** A bucket's owner and its interval determine each other; a nonempty bucket has a rank as its owner. */
  lemma BucketsArePartitioned(counts: seq<int>, average: nat, commSize: nat, toRank: seq<int>,
                              first: seq<int>, last: seq<int>, used: nat, b: nat)
    requires GreedyPlan(counts, average, commSize, first, last, used)
    requires |counts| <= |toRank| && Owners(toRank, first, last, used, |counts|) && b < |counts|
    ensures 0 <= toRank[b] <= commSize
    ensures counts[b] > 0 ==> toRank[b] < commSize
    ensures forall r :: 0 <= r < commSize ==> (toRank[b] == r <==> first[r] <= b <= last[r])
    ensures toRank[b] == commSize ==> b >= Start(last, used)
  {
    IntervalsBefore(counts, average, first, last, used);
    if b < Start(last, used) {
      var r := Locate(counts, average, first, last, used, b);
    }
  }

  /** The keys in the buckets below n whose owner lies in lo .. hi - 1. */
  function OwnedKeys(counts: seq<int>, toRank: seq<int>, lo: nat, hi: nat, n: nat): int
    requires n <= |counts| && n <= |toRank|
  {
    if n == 0 then 0
    else OwnedKeys(counts, toRank, lo, hi, n - 1) + if lo <= toRank[n - 1] < hi then counts[n - 1] else 0
  }

  lemma StartMonotone(counts: seq<int>, average: nat, first: seq<int>, last: seq<int>, used: nat, lo: nat, hi: nat)
    requires GreedyIntervals(counts, average, first, last, used) && lo <= hi <= used
    ensures 0 <= Start(last, lo) <= Start(last, hi) <= |counts|
  {
    IntervalsBefore(counts, average, first, last, used);
    if 0 < lo {
      assert GreedyInterval(counts, average, first, last, lo - 1);
    }
    if 0 < hi {
      assert GreedyInterval(counts, average, first, last, hi - 1);
    }
  }

  lemma OwnerWithin(counts: seq<int>, average: nat, commSize: nat, toRank: seq<int>,
                    first: seq<int>, last: seq<int>, used: nat, lo: nat, hi: nat, b: nat)
    requires GreedyPlan(counts, average, commSize, first, last, used)
    requires |counts| <= |toRank| && Owners(toRank, first, last, used, |counts|)
    requires lo <= hi <= used && b < |counts|
    ensures lo <= toRank[b] < hi <==> Start(last, lo) <= b < Start(last, hi)
  {
    IntervalsBefore(counts, average, first, last, used);
    StartMonotone(counts, average, first, last, used, hi, used);
    if b < Start(last, used) {
      var r := Locate(counts, average, first, last, used, b);
      assert GreedyInterval(counts, average, first, last, r);
      assert r < lo ==> last[r] < Start(last, lo) by {
        if r + 1 < lo {
          StartMonotone(counts, average, first, last, used, r + 1, lo);
        }
      }
      assert r < hi ==> last[r] < Start(last, hi) by {
        if r + 1 < hi {
          StartMonotone(counts, average, first, last, used, r + 1, hi);
        }
      }
      assert r >= lo ==> Start(last, lo) <= first[r] by {
        if r >= lo {
          StartMonotone(counts, average, first, last, used, lo, r);
        }
      }
      assert r >= hi ==> Start(last, hi) <= first[r] by {
        if r >= hi {
          StartMonotone(counts, average, first, last, used, hi, r);
        }
      }
    }
  }

  /** The keys owned by consecutive ranks are the keys of consecutive buckets. */
  lemma {:induction false} OwnedKeysAreConsecutive(counts: seq<int>, average: nat, commSize: nat, toRank: seq<int>,
                                                  first: seq<int>, last: seq<int>, used: nat,
                                                  lo: nat, hi: nat, n: nat)
    requires GreedyPlan(counts, average, commSize, first, last, used)
    requires |counts| <= |toRank| && Owners(toRank, first, last, used, |counts|)
    requires lo <= hi <= used && n <= |counts|
    ensures 0 <= Start(last, lo) <= Start(last, hi) <= |counts|
    ensures OwnedKeys(counts, toRank, lo, hi, n) ==
            if n <= Start(last, lo) then 0
            else if n <= Start(last, hi) then Prefix(counts, n) - Prefix(counts, Start(last, lo))
            else Prefix(counts, Start(last, hi)) - Prefix(counts, Start(last, lo))
  {
    StartMonotone(counts, average, first, last, used, lo, hi);
    if n > 0 {
      var b := n - 1;
      OwnedKeysAreConsecutive(counts, average, commSize, toRank, first, last, used, lo, hi, b);
      SumStep(counts, b);
      OwnerWithin(counts, average, commSize, toRank, first, last, used, lo, hi, b);
    }
  }

  /** A used rank reaches its share, and overshoots the average by less than its last bucket. */
  lemma LoadBalance(counts: seq<int>, average: nat, commSize: nat, first: seq<int>, last: seq<int>, used: nat, r: nat)
    requires GreedyPlan(counts, average, commSize, first, last, used) && Counts(counts)
    requires average > 0 && r < used
    ensures 0 <= first[r] <= last[r] < |counts|
    ensures Prefix(counts, last[r] + 1) >= Share(r + 1, average)
    ensures IntervalKeys(counts, first[r], last[r]) < average + counts[last[r]]
  {
    assert GreedyInterval(counts, average, first, last, r);
    SumStep(counts, last[r]);
    assert Share(r + 1, average) == Share(r, average) + average;
    if r > 0 {
      assert GreedyInterval(counts, average, first, last, r - 1);
    } else {
      assert Prefix(counts, 0) == 0 && Share(0, average) == 0;
    }
    assert Prefix(counts, first[r]) >= Share(r, average);
    if first[r] < last[r] {
      assert Prefix(counts, last[r]) < Share(r + 1, average);
    }
  }

  /** The counts and the average leave one greedy plan: any two planners agree. */
  lemma {:induction false} GreedyPlanIsUnique(counts: seq<int>, average: nat, commSize: nat,
                                             first: seq<int>, last: seq<int>, used: nat,
                                             first': seq<int>, last': seq<int>, used': nat, r: nat)
    requires GreedyPlan(counts, average, commSize, first, last, used)
    requires GreedyPlan(counts, average, commSize, first', last', used')
    requires r <= used && r <= used'
    ensures first[..r] == first'[..r] && last[..r] == last'[..r]
  {
    if r > 0 {
      GreedyPlanIsUnique(counts, average, commSize, first, last, used, first', last', used', r - 1);
      assert GreedyInterval(counts, average, first, last, r - 1);
      assert GreedyInterval(counts, average, first', last', r - 1);
      assert Start(last, r - 1) == Start(last', r - 1) by {
        if r > 1 {
          assert last[..r - 1][r - 2] == last'[..r - 1][r - 2];
        }
      }
      assert first[..r] == first[..r - 1] + [first[r - 1]] && last[..r] == last[..r - 1] + [last[r - 1]];
      assert first'[..r] == first'[..r - 1] + [first'[r - 1]] && last'[..r] == last'[..r - 1] + [last'[r - 1]];
    }
  }

  lemma PlannersAgree(counts: seq<int>, average: nat, commSize: nat, first: seq<int>, last: seq<int>, used: nat,
                      first': seq<int>, last': seq<int>, used': nat)
    requires GreedyPlan(counts, average, commSize, first, last, used)
    requires GreedyPlan(counts, average, commSize, first', last', used')
    ensures used == used' && first[..commSize] == first'[..commSize] && last[..commSize] == last'[..commSize]
  {
    var u := if used <= used' then used else used';
    GreedyPlanIsUnique(counts, average, commSize, first, last, used, first', last', used', u);
    assert last[..u][u - 1] == last'[..u][u - 1];
    assert Start(last, u) == Start(last', u);
    assert used < used' ==> GreedyInterval(counts, average, first', last', used);
    assert used' < used ==> GreedyInterval(counts, average, first, last, used');
    assert first[..commSize] == first[..used] + first[used..commSize];
    assert first'[..commSize] == first'[..used] + first'[used..commSize];
    assert last[..commSize] == last[..used] + last[used..commSize];
    assert last'[..commSize] == last'[..used] + last'[used..commSize];
  }

  lemma SameInterval(first: seq<int>, last: seq<int>, first': seq<int>, last': seq<int>, commSize: nat, r: nat)
    requires commSize <= |first| && commSize <= |last| && commSize <= |first'| && commSize <= |last'| && r < commSize
    requires first[..commSize] == first'[..commSize] && last[..commSize] == last'[..commSize]
    ensures first[r] == first'[r] && last[r] == last'[r]
  {
    assert first[..commSize][r] == first'[..commSize][r] && last[..commSize][r] == last'[..commSize][r];
  }

  /** Whoever plans, every bucket gets the same owner. */
  lemma OwnersAgree(counts: seq<int>, average: nat, commSize: nat, first: seq<int>, last: seq<int>, used: nat,
                    toRank: seq<int>, first': seq<int>, last': seq<int>, used': nat, toRank': seq<int>)
    requires GreedyPlan(counts, average, commSize, first, last, used)
    requires |counts| <= |toRank| && Owners(toRank, first, last, used, |counts|)
    requires GreedyPlan(counts, average, commSize, first', last', used')
    requires |counts| <= |toRank'| && Owners(toRank', first', last', used', |counts|)
    ensures toRank[..|counts|] == toRank'[..|counts|]
  {
    PlannersAgree(counts, average, commSize, first, last, used, first', last', used');
    forall b | 0 <= b < |counts| ensures toRank[b] == toRank'[b] {
      BucketsArePartitioned(counts, average, commSize, toRank, first, last, used, b);
      BucketsArePartitioned(counts, average, commSize, toRank', first', last', used', b);
      if toRank[b] < commSize {
        SameInterval(first, last, first', last', commSize, toRank[b]);
      }
      if toRank'[b] < commSize {
        SameInterval(first, last, first', last', commSize, toRank'[b]);
      }
    }
  }

  lemma IntervalIsRun(counts: seq<int>, average: nat, first: seq<int>, last: seq<int>, r: nat)
    requires r < |first| && r < |last| && GreedyInterval(counts, average, first, last, r)
    ensures 0 <= Start(last, r) <= Start(last, r + 1) <= |counts|
    ensures IntervalKeys(counts, first[r], last[r])
         == Prefix(counts, Start(last, r + 1)) - Prefix(counts, Start(last, r))
  {
  }

  /** Consecutive ranks own the keys of the buckets from the first one's start to the last one's end. */
  lemma RankRunOwnsBuckets(counts: seq<int>, average: nat, commSize: nat, toRank: seq<int>,
                           first: seq<int>, last: seq<int>, used: nat, lo: nat, hi: nat)
    requires GreedyPlan(counts, average, commSize, first, last, used) && lo <= hi <= used
    requires |counts| <= |toRank| && Owners(toRank, first, last, used, |counts|)
    ensures 0 <= Start(last, lo) <= Start(last, hi) <= |counts|
    ensures OwnedKeys(counts, toRank, lo, hi, |counts|)
         == Prefix(counts, Start(last, hi)) - Prefix(counts, Start(last, lo))
  {
    OwnedKeysAreConsecutive(counts, average, commSize, toRank, first, last, used, lo, hi, |counts|);
    var start, end := Start(last, lo), Start(last, hi);
    assert |counts| <= start ==> start == end;
    assert |counts| <= end ==> end == |counts|;
  }

  lemma UsedRankOwnsInterval(counts: seq<int>, average: nat, commSize: nat, toRank: seq<int>,
                             first: seq<int>, last: seq<int>, used: nat, r: nat)
    requires GreedyPlan(counts, average, commSize, first, last, used) && r < used
    requires |counts| <= |toRank| && Owners(toRank, first, last, used, |counts|)
    ensures OwnedKeys(counts, toRank, r, r + 1, |counts|) == IntervalKeys(counts, first[r], last[r])
  {
    var next := r + 1;
    assert 0 <= Start(last, r) <= Start(last, next) <= |counts|
        && IntervalKeys(counts, first[r], last[r])
           == Prefix(counts, Start(last, next)) - Prefix(counts, Start(last, r)) by {
      IntervalIsRun(counts, average, first, last, r);
    }
    RankRunOwnsBuckets(counts, average, commSize, toRank, first, last, used, r, next);
  }

  lemma {:induction false} NothingBeyondUsed(counts: seq<int>, average: nat, commSize: nat, toRank: seq<int>,
                                            first: seq<int>, last: seq<int>, used: nat, r: nat, n: nat)
    requires GreedyPlan(counts, average, commSize, first, last, used)
    requires |counts| <= |toRank| && Owners(toRank, first, last, used, |counts|) && n <= |counts| && used <= r
    ensures OwnedKeys(counts, toRank, r, r + 1, n) == 0
    ensures OwnedKeys(counts, toRank, 0, r, n) == OwnedKeys(counts, toRank, 0, used, n)
  {
    if n > 0 {
      NothingBeyondUsed(counts, average, commSize, toRank, first, last, used, r, n - 1);
      if n - 1 < Start(last, used) {
        var o := Locate(counts, average, first, last, used, n - 1);
      }
    }
  }

  /** The keys a plan counts in the rank's interval are the keys of the buckets routed to the rank. */
  lemma PlanCountsOwnedKeys(counts: seq<int>, average: nat, commSize: nat, toRank: seq<int>,
                            first: seq<int>, last: seq<int>, used: nat, r: nat)
    requires GreedyPlan(counts, average, commSize, first, last, used)
    requires |counts| <= |toRank| && Owners(toRank, first, last, used, |counts|) && r < commSize
    ensures OwnedKeys(counts, toRank, r, r + 1, |counts|)
         == if r < used then IntervalKeys(counts, first[r], last[r]) else 0
  {
    if r < used {
      UsedRankOwnsInterval(counts, average, commSize, toRank, first, last, used, r);
    } else {
      NothingBeyondUsed(counts, average, commSize, toRank, first, last, used, r, |counts|);
    }
  }

  /** The keys a plan counts before the rank's interval are the keys routed to lower ranks. */
  lemma PlanCountsLesserKeys(counts: seq<int>, average: nat, commSize: nat, toRank: seq<int>,
                             first: seq<int>, last: seq<int>, used: nat, r: nat)
    requires GreedyPlan(counts, average, commSize, first, last, used)
    requires |counts| <= |toRank| && Owners(toRank, first, last, used, |counts|)
    ensures OwnedKeys(counts, toRank, 0, r, |counts|) == KeysBefore(counts, last, used, r)
  {
    var hi := if r <= used then r else used;
    OwnedKeysAreConsecutive(counts, average, commSize, toRank, first, last, used, 0, hi, |counts|);
    if used < r {
      NothingBeyondUsed(counts, average, commSize, toRank, first, last, used, r, |counts|);
    }
  }

  /** Every interval lies among the buckets, also the empty one of a tail rank. */
  lemma IntervalWithin(counts: seq<int>, average: nat, commSize: nat,
                       first: seq<int>, last: seq<int>, used: nat, r: nat)
    requires GreedyPlan(counts, average, commSize, first, last, used) && r < commSize && |counts| > 0
    ensures 0 <= first[r] && last[r] < |counts|
    ensures Expected(counts, first, last, used, r) == IntervalKeys(counts, first[r], last[r])
  {
    if r < used {
      assert GreedyInterval(counts, average, first, last, r);
    }
  }

  // ---------- build_bucket_plan ----------

  /** Adds up the buckets first .. last; an interval with last < first is empty. */
  method CountInterval(globalCounts: array<int>, first: int, last: int, ghost counts: seq<int>) returns (n: int)
    requires |counts| <= globalCounts.Length && counts == globalCounts[..|counts|]
    requires 0 <= first && last < |counts|
    ensures n == IntervalKeys(counts, first, last)
  {
    n := 0;
    var bucket := first;
    while bucket <= last
      invariant first <= bucket && (first <= last ==> bucket <= last + 1)
      invariant n == if first <= last then Prefix(counts, bucket) - Prefix(counts, first) else 0
    {
      SumStep(counts, bucket);
      n := n + globalCounts[bucket];
      bucket := bucket + 1;
    }
  }

  /** Adds up the intervals of the ranks below myRank. */
  method CountLesserKeys(globalCounts: array<int>, first: array<int>, last: array<int>, myRank: nat, commSize: nat,
                         ghost counts: seq<int>, ghost average: nat, ghost used: nat) returns (lesser: int)
    requires 0 < |counts| <= globalCounts.Length && counts == globalCounts[..|counts|]
    requires GreedyPlan(counts, average, commSize, first[..], last[..], used) && myRank < commSize
    ensures lesser == KeysBefore(counts, last[..], used, myRank)
  {
    lesser := 0;
    for rank := 0 to myRank
      invariant lesser == KeysBefore(counts, last[..], used, rank)
    {
      if rank < used {
        assert GreedyInterval(counts, average, first[..], last[..], rank);
      }
      var n := CountInterval(globalCounts, first[rank], last[rank], counts);
      lesser := lesser + n;
    }
  }

  lemma TailCompletesPlan(counts: seq<int>, average: nat, commSize: nat, before: seq<int>, first: seq<int>,
                          last: seq<int>, used: nat)
    requires 0 < used <= commSize <= |before| == |first| && commSize <= |last|
    requires Planning(counts, average, before, last, used, |counts|)
    requires used < commSize ==> Start(last, used) == |counts|
    requires forall b :: Start(last, used) <= b < |counts| ==> counts[b] == 0
    requires forall r :: 0 <= r < used ==> first[r] == before[r]
    requires forall r :: used <= r < commSize ==> first[r] == 1 && last[r] == 0
    ensures GreedyPlan(counts, average, commSize, first, last, used)
  {
    forall r | 0 <= r < used ensures GreedyInterval(counts, average, first, last, r) {
      assert GreedyInterval(counts, average, before, last, r);
    }
  }

  /** Tail ranks get the empty interval 1 .. 0. */
  method MarkTailRanks(first: array<int>, last: array<int>, ownerRank: nat, commSize: nat,
                       ghost counts: seq<int>, ghost average: nat)
    requires 0 < ownerRank <= commSize <= first.Length && commSize <= last.Length && first != last
    requires Planning(counts, average, first[..], last[..], ownerRank, |counts|)
    requires ownerRank < commSize ==> Start(last[..], ownerRank) == |counts|
    requires forall b :: Start(last[..], ownerRank) <= b < |counts| ==> counts[b] == 0
    requires forall r :: ownerRank <= r < commSize ==> last[r] == 0
    modifies first
    ensures GreedyPlan(counts, average, commSize, first[..], last[..], ownerRank)
    ensures forall r :: 0 <= r < ownerRank ==> first[r] == old(first[r])
  {
    var rank := ownerRank;
    while rank < commSize
      invariant ownerRank <= rank <= commSize
      invariant forall r :: ownerRank <= r < rank ==> first[r] == 1
      invariant forall r :: 0 <= r < ownerRank ==> first[r] == old(first[r])
    {
      first[rank] := 1;
      rank := rank + 1;
    }
    TailCompletesPlan(counts, average, commSize, old(first[..]), first[..], last[..], ownerRank);
  }

  /** build_bucket_plan, run by rank myRank on cleared bucket metadata. */
  method BuildBucketPlan(globalCounts: array<int>, bucketToRank: array<int>, first: array<int>, last: array<int>,
                         commSize: nat, myRank: nat, numBuckets: nat, bucketShift: nat, average: nat)
    returns (plan: Plan, ghost used: nat)
    requires 0 < numBuckets <= globalCounts.Length && numBuckets <= bucketToRank.Length
    requires myRank < commSize <= first.Length && commSize <= last.Length && average > 0
    requires Counts(globalCounts[..numBuckets]) && Sum(globalCounts[..numBuckets]) == Share(commSize, average)
    requires forall r :: 0 <= r < commSize ==> last[r] == 0
    requires first != last && first != bucketToRank && last != bucketToRank
    requires first != globalCounts && last != globalCounts && bucketToRank != globalCounts
    modifies bucketToRank, first, last
    ensures GreedyPlan(globalCounts[..numBuckets], average, commSize, first[..], last[..], used)
    ensures Owners(bucketToRank[..], first[..], last[..], used, numBuckets)
    ensures forall r :: used <= r < commSize ==> first[r] == 1 && last[r] == 0
    ensures plan.minKey == first[myRank] * Pow(2, bucketShift)
    ensures plan.maxKey == (last[myRank] + 1) * Pow(2, bucketShift) - 1
    ensures plan.lesserKeyCount == OwnedKeys(globalCounts[..numBuckets], bucketToRank[..], 0, myRank, numBuckets)
    ensures plan.localKeyCount
         == OwnedKeys(globalCounts[..numBuckets], bucketToRank[..], myRank, myRank + 1, numBuckets)
    ensures plan.expectedRecvCount == plan.localKeyCount
  {
    ghost var counts := globalCounts[..numBuckets];
    var ownerRank, expected := AssignBuckets(globalCounts, bucketToRank, first, last, commSize, myRank, numBuckets,
                                             average);
    used := ownerRank;
    PlanningEnds(counts, average, commSize, first[..], last[..], ownerRank);
    MarkTailRanks(first, last, ownerRank, commSize, counts, average);
    PlanCountsOwnedKeys(counts, average, commSize, bucketToRank[..], first[..], last[..], used, myRank);
    PlanCountsLesserKeys(counts, average, commSize, bucketToRank[..], first[..], last[..], used, myRank);
    IntervalWithin(counts, average, commSize, first[..], last[..], used, myRank);
    var lesser := CountLesserKeys(globalCounts, first, last, myRank, commSize, counts, average, used);
    var local := CountInterval(globalCounts, first[myRank], last[myRank], counts);
    plan := Plan(expected, first[myRank] * Pow(2, bucketShift), (last[myRank] + 1) * Pow(2, bucketShift) - 1,
                 lesser, local);
  }
}
