/**
 One iteration up to the redistribution: the ranks' bucket counts, summed by a reduction and
 turned into a greedy plan, make the redistribution a sort phase.
 */
module SortPipeline {
  import opened Collections
  import opened Histograms
  import opened BucketPlan
  import opened BucketCounting
  import opened AmProtocol
  import opened AmSafety
  import opened AmProgress
  import opened IntegerSort

  /** The shares of the workers of rank r, together. */
  function HeldBy(work: seq<multiset<Key>>, home: seq<nat>, r: nat): multiset<Key>
    requires |work| <= |home|
  {
    if work == [] then multiset{}
    else
      var g := |work| - 1;
      if home[g] == r then HeldBy(work[..g], home, r) + work[g] else HeldBy(work[..g], home, r)
  }

  function HeldByRanks(work: seq<multiset<Key>>, home: seq<nat>, ranks: nat): (held: seq<multiset<Key>>)
    requires |work| <= |home|
    ensures |held| == ranks
  {
    seq(ranks, r requires 0 <= r < ranks => HeldBy(work, home, r))
  }

  /** The key array of every rank: its workers' shares together. */
  function KeysByRank(c: Config, p: nat): (keys: seq<multiset<Key>>)
    requires 0 < p <= |c.phases| && |c.phases[p - 1].work| == |c.home|
    ensures |keys| == c.rankCount
  {
    HeldByRanks(KeysByWorker(c, p), c.home, c.rankCount)
  }

  lemma Regroup(after: multiset<Key>, before: multiset<Key>, own: multiset<Key>, more: multiset<Key>)
    requires after + own == before + (own + more)
    ensures own + after == own + (before + more)
  {
    assert own + after == after + own;
  }

  lemma {:induction false} RanksHoldWork(work: seq<multiset<Key>>, home: seq<nat>, ranks: nat)
    requires |work| <= |home| && forall g :: 0 <= g < |home| ==> home[g] < ranks
    ensures MSum(HeldByRanks(work, home, ranks)) == MSum(work)
  {
    if work == [] {
      MSumEmpty(HeldByRanks(work, home, ranks));
    } else {
      var g := |work| - 1;
      RanksHoldWork(work[..g], home, ranks);
      var before, r := HeldByRanks(work[..g], home, ranks), home[g];
      assert HeldByRanks(work, home, ranks) == before[r := before[r] + work[g]];
      MSumUpdate(before, r, before[r] + work[g]);
      var after := MSum(HeldByRanks(work, home, ranks));
      assert after + before[r] == MSum(before) + (before[r] + work[g]);
      Regroup(after, MSum(before), before[r], work[g]);
      Cancel(before[r], after, MSum(before) + work[g]);
    }
  }

  /** The ranks together hold all keys. */
  lemma RanksHoldAllKeys(c: Config, p: nat)
    requires 0 < p <= |c.phases| && |c.phases[p - 1].work| == |c.home|
    requires forall g :: 0 <= g < |c.home| ==> c.home[g] < c.rankCount
    ensures MSum(KeysByRank(c, p)) == AllKeys(c, p)
  {
    RanksHoldWork(KeysByWorker(c, p), c.home, c.rankCount);
  }

  function RangeCounts(parts: seq<multiset<Key>>, lo: int, hi: int): (n: seq<int>)
    ensures |n| == |parts|
  {
    seq(|parts|, i requires 0 <= i < |parts| => CountRange(parts[i], lo, hi))
  }

  lemma {:induction false} RangeOfSum(parts: seq<multiset<Key>>, lo: int, hi: int)
    ensures CountRange(MSum(parts), lo, hi) == Sum(RangeCounts(parts, lo, hi))
  {
    if parts == [] {
      CountRangeEmpty(multiset{}, lo, hi);
    } else {
      var front := parts[..|parts| - 1];
      RangeOfSum(front, lo, hi);
      CountRangeAdd(MSum(front), parts[|parts| - 1], lo, hi);
      assert RangeCounts(parts, lo, hi)[..|parts| - 1] == RangeCounts(front, lo, hi);
    }
  }

  lemma ShareStep(r: nat, average: nat)
    ensures Share(r + 1, average) == Share(r, average) + average
  {
  }

  lemma {:induction false} SizeOfSum(parts: seq<multiset<Key>>, each: nat)
    requires forall i :: 0 <= i < |parts| ==> |parts[i]| == each
    ensures |MSum(parts)| == Share(|parts|, each)
  {
    if parts != [] {
      SizeOfSum(parts[..|parts| - 1], each);
      ShareStep(|parts| - 1, each);
    }
  }

  /** The counts of the ranks, before the reduction: count_local_buckets on cleared counters. */
  ghost predicate LocalCounts(c: Config, p: nat, width: nat, numBuckets: nat, buffers: seq<seq<int>>, n: nat)
    requires 0 < p <= |c.phases| && |c.phases[p - 1].work| == |c.home|
  {
    && |buffers| == c.rankCount && numBuckets <= n
    && (forall r :: 0 <= r < |buffers| ==> |buffers[r]| == n)
    && forall r, b :: 0 <= r < |buffers| && 0 <= b < numBuckets ==>
         buffers[r][b] == InBucket(KeysByRank(c, p)[r], width, b)
  }

  /** After the reduction every bucket's slot counts its keys on all ranks. */
  lemma ReducedCountsAreGlobal(c: Config, p: nat, width: nat, numBuckets: nat, buffers: seq<seq<int>>, n: nat,
                               tree: Reduction, b: nat)
    requires 0 < p <= |c.phases| && |c.phases[p - 1].work| == |c.home|
    requires forall g :: 0 <= g < |c.home| ==> c.home[g] < c.rankCount
    requires LocalCounts(c, p, width, numBuckets, buffers, n) && CoversRanks(tree, c.rankCount) && b < numBuckets
    ensures Reduced(tree, buffers, n)[b] == CountRange(AllKeys(c, p), b * width, (b + 1) * width)
  {
    ReductionIsSum(tree, buffers, n, b);
    RangeOfSum(KeysByRank(c, p), b * width, (b + 1) * width);
    assert Slot(buffers, b) == RangeCounts(KeysByRank(c, p), b * width, (b + 1) * width);
    RanksHoldAllKeys(c, p);
  }

  /**
   What build_bucket_plan relies on: when every rank holds `average` keys and every key is in the
   counted range, the counts add up to the ranks' shares.
   */
  lemma CountsAddUpToShares(c: Config, p: nat, width: nat, counts: seq<int>, average: nat)
    requires 0 < p <= |c.phases| && |c.phases[p - 1].work| == |c.home|
    requires forall g :: 0 <= g < |c.home| ==> c.home[g] < c.rankCount
    requires forall r :: 0 <= r < c.rankCount ==> |KeysByRank(c, p)[r]| == average
    requires forall b :: 0 <= b < |counts| ==> counts[b] == CountRange(AllKeys(c, p), b * width, (b + 1) * width)
    requires forall k :: k in AllKeys(c, p) ==> 0 <= k < |counts| * width
    ensures Counts(counts) && Sum(counts) == Share(c.rankCount, average)
  {
    RanksHoldAllKeys(c, p);
    SizeOfSum(KeysByRank(c, p), average);
    ExpandIsPermutation(AllKeys(c, p), 0, |counts| * width);
    BucketsCoverRange(AllKeys(c, p), counts, width, |counts|);
    assert counts[..|counts|] == counts;
  }

  /** The pipeline up to the redistribution produces a sort phase. */
  lemma PipelineMakesSortPhase(c: Config, p: nat, width: nat, numBuckets: nat, buffers: seq<seq<int>>, n: nat,
                               tree: Reduction, average: nat, toRank: seq<int>, first: seq<int>, last: seq<int>,
                               used: nat)
    requires 0 < p <= |c.phases| && |c.phases[p - 1].work| == |c.home| && width > 0
    requires forall g :: 0 <= g < |c.home| ==> c.home[g] < c.rankCount
    requires forall k :: k in AllKeys(c, p) ==> 0 <= k < numBuckets * width
    requires LocalCounts(c, p, width, numBuckets, buffers, n) && CoversRanks(tree, c.rankCount)
    requires var counts := Reduced(tree, buffers, n)[..numBuckets];
             && GreedyPlan(counts, average, c.rankCount, first, last, used)
             && numBuckets <= |toRank| && Owners(toRank, first, last, used, numBuckets)
    requires forall k: nat :: k < numBuckets * width ==>
               BucketOf(k, width) < numBuckets && PhaseOf(c, p).route(k) == toRank[BucketOf(k, width)]
    ensures IsSortPhase(c, p, SortPlan(Reduced(tree, buffers, n)[..numBuckets], average, width,
                                       toRank, first, last, used))
  {
    forall b | 0 <= b < numBuckets
      ensures Reduced(tree, buffers, n)[b] == CountRange(AllKeys(c, p), b * width, (b + 1) * width)
    {
      ReducedCountsAreGlobal(c, p, width, numBuckets, buffers, n, tree, b);
    }
  }

  // ---------- every rank plans for itself ----------

  /** What build_bucket_plan leaves on one rank. */
  datatype RankPlan = RankPlan(toRank: seq<int>, first: seq<int>, last: seq<int>, used: nat, expected: int)

  /** The contract of build_bucket_plan, for rank r of commSize. */
  ghost predicate PlannedOn(counts: seq<int>, average: nat, commSize: nat, r: nat, out: RankPlan)
  {
    && GreedyPlan(counts, average, commSize, out.first, out.last, out.used)
    && |counts| <= |out.toRank| && Owners(out.toRank, out.first, out.last, out.used, |counts|)
    && out.expected == OwnedKeys(counts, out.toRank, r, r + 1, |counts|)
  }

  /**
   One iteration up to the redistribution: the ranks' counters, the reduction that sums them, and
   what every rank's own planner made of the sums.
   */
  datatype Iteration = Iteration(width: nat, numBuckets: nat, buffers: seq<seq<int>>, slots: nat, tree: Reduction,
                                 average: nat, outputs: seq<RankPlan>)

  /** Every rank has workers, and every device that carries messages to a rank has one of them. */
  ghost predicate Staffed(c: Config)
  {
    && c.rankCount > 0 && c.capacity > 0 && |c.home| == |c.device|
    && (forall g :: 0 <= g < |c.home| ==> c.home[g] < c.rankCount)
    && (forall d :: 0 <= d < c.rankCount ==> d in c.home)
    && (forall d, g :: 0 <= d < c.rankCount && 0 <= g < |c.home| ==> ServedBy(c, d, c.device[g]))
  }

  ghost predicate CountsReduced(c: Config, p: nat, it: Iteration)
  {
    && 0 < p <= |c.phases| && |c.phases[p - 1].work| == |c.home| && it.width > 0
    && LocalCounts(c, p, it.width, it.numBuckets, it.buffers, it.slots) && CoversRanks(it.tree, c.rankCount)
    && (forall k :: k in AllKeys(c, p) ==> 0 <= k < it.numBuckets * it.width)
  }

  function GlobalCounts(it: Iteration): (counts: seq<int>)
    requires it.numBuckets <= it.slots
    requires forall r :: r in Ranks(it.tree) ==> r < |it.buffers| && |it.buffers[r]| == it.slots
    ensures |counts| == it.numBuckets
  {
    Reduced(it.tree, it.buffers, it.slots)[..it.numBuckets]
  }

  /** The model has one route; it is written down with the table of rank 0. */
  ghost predicate RoutedByFirst(c: Config, p: nat, it: Iteration, k: nat)
    requires 0 < p <= |c.phases| && it.width > 0
  {
    && |it.outputs| > 0 && BucketOf(k, it.width) < |it.outputs[0].toRank|
    && PhaseOf(c, p).route(k) == it.outputs[0].toRank[BucketOf(k, it.width)]
  }

  /** Phase p runs on what the ranks have planned: their expected counts, and a route by their tables. */
  ghost predicate RunsOnPlans(c: Config, p: nat, it: Iteration)
  {
    && CountsReduced(c, p, it) && |it.outputs| == |PhaseOf(c, p).expected| == c.rankCount
    && (forall r :: 0 <= r < c.rankCount ==> PlannedOn(GlobalCounts(it), it.average, c.rankCount, r, it.outputs[r]))
    && (forall r :: 0 <= r < c.rankCount ==> PhaseOf(c, p).expected[r] == it.outputs[r].expected)
    && (forall k: nat :: k < it.numBuckets * it.width ==> RoutedByFirst(c, p, it, k))
  }

  lemma {:induction false} OwnedKeysAgree(counts: seq<int>, toRank: seq<int>, toRank': seq<int>,
                                         lo: nat, hi: nat, n: nat)
    requires n <= |counts| && n <= |toRank| && n <= |toRank'|
    requires forall b :: 0 <= b < n ==> toRank[b] == toRank'[b]
    ensures OwnedKeys(counts, toRank, lo, hi, n) == OwnedKeys(counts, toRank', lo, hi, n)
  {
    if n > 0 {
      OwnedKeysAgree(counts, toRank, toRank', lo, hi, n - 1);
    }
  }

  /** All ranks compute the same plan and the same owners, each from its own call. */
  lemma RanksPlanAlike(counts: seq<int>, average: nat, commSize: nat, r: nat, q: nat, out: RankPlan, out': RankPlan)
    requires PlannedOn(counts, average, commSize, r, out) && PlannedOn(counts, average, commSize, q, out')
    ensures out.used == out'.used && out.first[..commSize] == out'.first[..commSize]
    ensures out.last[..commSize] == out'.last[..commSize]
    ensures forall b :: 0 <= b < |counts| ==> out.toRank[b] == out'.toRank[b]
    ensures out.expected == OwnedKeys(counts, out'.toRank, r, r + 1, |counts|)
  {
    PlannersAgree(counts, average, commSize, out.first, out.last, out.used, out'.first, out'.last, out'.used);
    OwnersAgree(counts, average, commSize, out.first, out.last, out.used, out.toRank,
                out'.first, out'.last, out'.used, out'.toRank);
    forall b | 0 <= b < |counts| ensures out.toRank[b] == out'.toRank[b] {
      assert out.toRank[..|counts|][b] == out'.toRank[..|counts|][b];
    }
    OwnedKeysAgree(counts, out.toRank, out'.toRank, r, r + 1, |counts|);
  }

  /** route_key on any rank: its own table sends every key where the model's single route does. */
  lemma EveryRankRoutesAlike(c: Config, p: nat, it: Iteration, r: nat, k: nat)
    requires RunsOnPlans(c, p, it) && r < c.rankCount && k < it.numBuckets * it.width
    ensures BucketOf(k, it.width) < |it.outputs[r].toRank|
    ensures PhaseOf(c, p).route(k) == it.outputs[r].toRank[BucketOf(k, it.width)]
  {
    BucketInRange(k, it.numBuckets, it.width);
    assert RoutedByFirst(c, p, it, k);
    RanksPlanAlike(GlobalCounts(it), it.average, c.rankCount, r, 0, it.outputs[r], it.outputs[0]);
  }

  /** The plan all ranks share. */
  function PlanOf(it: Iteration): SortPlan
    requires it.numBuckets <= it.slots && |it.outputs| > 0
    requires forall r :: r in Ranks(it.tree) ==> r < |it.buffers| && |it.buffers[r]| == it.slots
  {
    SortPlan(GlobalCounts(it), it.average, it.width, it.outputs[0].toRank, it.outputs[0].first, it.outputs[0].last,
             it.outputs[0].used)
  }

  lemma IterationIsSortPhase(c: Config, p: nat, it: Iteration)
    requires Staffed(c) && RunsOnPlans(c, p, it)
    ensures IsSortPhase(c, p, PlanOf(it))
  {
    var out := it.outputs[0];
    assert PlannedOn(GlobalCounts(it), it.average, c.rankCount, 0, out);
    forall k: nat | k < it.numBuckets * it.width
      ensures BucketOf(k, it.width) < it.numBuckets
      ensures PhaseOf(c, p).route(k) == out.toRank[BucketOf(k, it.width)]
    {
      BucketInRange(k, it.numBuckets, it.width);
      assert RoutedByFirst(c, p, it, k);
    }
    PipelineMakesSortPhase(c, p, it.width, it.numBuckets, it.buffers, it.slots, it.tree, it.average,
                           out.toRank, out.first, out.last, out.used);
  }

  ghost predicate IterationRuns(c: Config, its: seq<Iteration>, p: nat)
    requires 0 < p <= |c.phases| == |its|
  {
    RunsOnPlans(c, p, its[p - 1])
  }

  ghost predicate AllRunOnPlans(c: Config, its: seq<Iteration>)
  {
    && Staffed(c) && |its| == |c.phases|
    && forall p :: 0 < p <= |c.phases| ==> IterationRuns(c, its, p)
  }

  ghost function PlansOf(c: Config, its: seq<Iteration>): (plans: seq<SortPlan>)
    requires AllRunOnPlans(c, its)
    ensures |plans| == |its|
  {
    seq(|its|, i requires 0 <= i < |its| =>
      assert IterationRuns(c, its, i + 1);
      PlanOf(its[i]))
  }

  lemma IterationIsPlanned(c: Config, its: seq<Iteration>, p: nat)
    requires AllRunOnPlans(c, its) && 0 < p <= |c.phases|
    ensures Planned(c, PlansOf(c, its), p)
  {
    var it, plans := its[p - 1], PlansOf(c, its);
    assert IterationRuns(c, its, p);
    IterationIsSortPhase(c, p, it);
    forall d | 0 <= d < c.rankCount ensures Expects(c, plans, p, d) {
      RanksPlanAlike(GlobalCounts(it), it.average, c.rankCount, d, 0, it.outputs[d], it.outputs[0]);
    }
  }

  /** Iterations in which every rank counts, reduces and plans for itself make a sort program. */
  lemma IterationsMakeSortProgram(c: Config, its: seq<Iteration>)
    requires AllRunOnPlans(c, its)
    ensures SortProgram(c, PlansOf(c, its))
  {
    forall p | 0 < p <= |c.phases| ensures Planned(c, PlansOf(c, its), p) {
      IterationIsPlanned(c, its, p);
    }
  }

  /**
   From the calls of the program to its result: when every rank plans for itself and expects what
   its own plan says, every maximal run leaves a sorted permutation of the last iteration's keys.
   */
  lemma IterationsSort(c: Config, its: seq<Iteration>, steps: seq<Step>)
    requires AllRunOnPlans(c, its) && |c.phases| > 0
    requires Maximal(c, steps)
    ensures var plan, s := PlansOf(c, its)[|its| - 1], Execute(c, steps).state;
            && IsSortPhase(c, |its|, plan) && |s.ranks| == c.rankCount
            && Sorted(Gathered(plan, HistogramsOf(s), c.rankCount))
            && multiset(Gathered(plan, HistogramsOf(s), c.rankCount)) == AllKeys(c, |its|)
  {
    IterationsMakeSortProgram(c, its);
    EndToEndSort(c, PlansOf(c, its), steps);
  }
}
