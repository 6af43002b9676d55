/**
 The distributed integer sort: the bucket plan, the redistribution protocol and the ranking
 together put all keys in order and give every key its exact global rank.
 */
module IntegerSort {
  import opened Powers
  import opened Collections
  import opened Histograms
  import opened BucketPlan
  import opened AmProtocol
  import opened AmSafety
  import opened AmProgress

  /** What all ranks know about one iteration after the counts are reduced and the plan is built. */
  datatype SortPlan = SortPlan(counts: seq<int>, average: nat, width: nat, toRank: seq<int>,
                               first: seq<int>, last: seq<int>, used: nat)
  {
    function MinKey(d: nat): int
      requires d < |first|
    {
      first[d] * width
    }

    function MaxKey(d: nat): int
      requires d < |last|
    {
      (last[d] + 1) * width - 1
    }

    function KeyRange(): nat
    {
      |counts| * width
    }
  }

  function KeysByWorker(c: Config, p: nat): (keys: seq<multiset<Key>>)
    requires 0 < p <= |c.phases| && |c.phases[p - 1].work| == |c.home|
    ensures |keys| == |c.home|
  {
    seq(|c.home|, g requires 0 <= g < |c.home| => multiset(PhaseOf(c, p).work[g]))
  }

  /** All keys of phase p, over all workers of all ranks. */
  function AllKeys(c: Config, p: nat): multiset<Key>
    requires 0 < p <= |c.phases| && |c.phases[p - 1].work| == |c.home|
  {
    MSum(KeysByWorker(c, p))
  }

  /** route_key: the owner of the key's bucket. */
  ghost predicate Routed(c: Config, p: nat, plan: SortPlan, k: nat)
    requires 0 < p <= |c.phases| && plan.width > 0
  {
    BucketOf(k, plan.width) < |plan.toRank| && PhaseOf(c, p).route(k) == plan.toRank[BucketOf(k, plan.width)]
  }

  /**
   Phase p redistributes its keys by a greedy plan of its own bucket counts: every key lies in
   the counted range and is sent to the owner of its bucket.
   */
  ghost predicate IsSortPhase(c: Config, p: nat, plan: SortPlan)
  {
    && 0 < p <= |c.phases| && |c.phases[p - 1].work| == |c.home|
    && plan.width > 0 && |plan.counts| <= |plan.toRank|
    && GreedyPlan(plan.counts, plan.average, c.rankCount, plan.first, plan.last, plan.used)
    && Owners(plan.toRank, plan.first, plan.last, plan.used, |plan.counts|)
    && (forall b :: 0 <= b < |plan.counts| ==>
          plan.counts[b] == CountRange(AllKeys(c, p), b * plan.width, (b + 1) * plan.width))
    && (forall k :: k in AllKeys(c, p) ==> 0 <= k < plan.KeyRange())
    && (forall k: nat :: k < plan.KeyRange() ==> Routed(c, p, plan, k))
  }

  // ---------- what a rank receives ----------

  lemma {:induction false} DestinedCount(keys: seq<Key>, route: Key -> nat, d: nat, k: Key)
    ensures DestinedTo(keys, route, d)[k] == if route(k) == d then multiset(keys)[k] else 0
  {
    if keys != [] {
      DestinedCount(keys[1..], route, d, k);
      assert keys == [keys[0]] + keys[1..];
      assert multiset(keys) == multiset{keys[0]} + multiset(keys[1..]);
    }
  }

  lemma {:induction false} KeepOrDrop(a: seq<multiset<Key>>, b: seq<multiset<Key>>, keep: bool, k: Key)
    requires |a| == |b| && forall i :: 0 <= i < |a| ==> a[i][k] == if keep then b[i][k] else 0
    ensures MSum(a)[k] == if keep then MSum(b)[k] else 0
  {
    if a != [] {
      KeepOrDrop(a[..|a| - 1], b[..|b| - 1], keep, k);
    }
  }

  /** Of each key a rank receives either every copy or none. */
  lemma TotalCount(c: Config, p: nat, d: nat, k: Key)
    requires 0 < p <= |c.phases| && |c.phases[p - 1].work| == |c.home|
    ensures Total(c, p, d)[k] == if PhaseOf(c, p).route(k) == d then AllKeys(c, p)[k] else 0
  {
    forall g | 0 <= g < |c.home|
      ensures WorkFor(c, p, d)[g][k] == if PhaseOf(c, p).route(k) == d then KeysByWorker(c, p)[g][k] else 0
    {
      DestinedCount(PhaseOf(c, p).work[g], PhaseOf(c, p).route, d, k);
    }
    KeepOrDrop(WorkFor(c, p, d), KeysByWorker(c, p), PhaseOf(c, p).route(k) == d, k);
  }

  lemma MulOrder(a: int, b: int, width: int)
    requires width > 0
    ensures a < b ==> (a + 1) * width <= b * width
    ensures a <= b ==> a * width <= b * width
  {
    if a < b {
      assert b * width == (a + 1) * width + (b - a - 1) * width;
      assert (b - a - 1) * width >= 0;
    }
  }

  /** A key lies in a rank's key interval exactly if its bucket lies in the rank's bucket interval. */
  lemma KeyInterval(plan: SortPlan, d: nat, k: nat)
    requires plan.width > 0 && d < |plan.first| && d < |plan.last|
    ensures plan.MinKey(d) <= k <= plan.MaxKey(d)
       <==> plan.first[d] <= BucketOf(k, plan.width) <= plan.last[d]
  {
    var b := BucketOf(k, plan.width);
    BucketBounds(k, plan.width, b);
    MulOrder(plan.first[d], b, plan.width);
    MulOrder(b, plan.first[d], plan.width);
    MulOrder(plan.last[d], b, plan.width);
    MulOrder(b, plan.last[d], plan.width);
    MulOrder(b + 1, plan.last[d] + 1, plan.width);
  }

  lemma BucketInRange(k: nat, n: nat, width: nat)
    requires width > 0
    ensures k < n * width <==> BucketOf(k, width) < n
  {
    var b := BucketOf(k, width);
    BucketBounds(k, width, b);
    MulOrder(b, n, width);
    MulOrder(n, b, width);
  }

  /** A rank receives every copy of every key in its interval, and no other key. */
  lemma ReceivesItsInterval(c: Config, p: nat, plan: SortPlan, d: nat, k: Key)
    requires IsSortPhase(c, p, plan) && d < c.rankCount
    ensures Total(c, p, d)[k] == if plan.MinKey(d) <= k <= plan.MaxKey(d) then AllKeys(c, p)[k] else 0
  {
    TotalCount(c, p, d, k);
    if k in AllKeys(c, p) {
      assert Routed(c, p, plan, k);
      BucketInRange(k, |plan.counts|, plan.width);
      BucketsArePartitioned(plan.counts, plan.average, c.rankCount, plan.toRank, plan.first, plan.last, plan.used,
                            BucketOf(k, plan.width));
      KeyInterval(plan, d, k);
    }
  }

  /** The keys counted in the first n buckets. */
  lemma {:induction false} BucketsCoverRange(all: multiset<Key>, counts: seq<int>, width: nat, n: nat)
    requires n <= |counts|
    requires forall b :: 0 <= b < |counts| ==> counts[b] == CountRange(all, b * width, (b + 1) * width)
    ensures Prefix(counts, n) == CountRange(all, 0, n * width)
  {
    if n > 0 {
      BucketsCoverRange(all, counts, width, n - 1);
      SumStep(counts, n - 1);
      assert 0 <= (n - 1) * width <= n * width;
      CountRangeSplit(all, 0, (n - 1) * width, n * width);
    }
  }

  lemma ReceivedInBucket(c: Config, p: nat, plan: SortPlan, d: nat, b: nat)
    requires IsSortPhase(c, p, plan) && d < c.rankCount && b < |plan.counts|
    ensures CountRange(Total(c, p, d), b * plan.width, (b + 1) * plan.width)
         == if plan.toRank[b] == d then plan.counts[b] else 0
  {
    var lo, hi := b * plan.width, (b + 1) * plan.width;
    forall k | lo <= k < hi
      ensures Total(c, p, d)[k] == if plan.toRank[b] == d then AllKeys(c, p)[k] else 0
    {
      TotalCount(c, p, d, k);
      if k in AllKeys(c, p) {
        assert Routed(c, p, plan, k);
        BucketBounds(k, plan.width, b);
      }
    }
    if plan.toRank[b] == d {
      CountRangeAgree(Total(c, p, d), AllKeys(c, p), lo, hi);
    } else {
      CountRangeEmpty(Total(c, p, d), lo, hi);
    }
  }

  /** Bucket by bucket, what a rank receives is what its buckets count. */
  lemma {:induction false} ReceivedInBuckets(c: Config, p: nat, plan: SortPlan, d: nat, n: nat)
    requires IsSortPhase(c, p, plan) && d < c.rankCount && n <= |plan.counts|
    ensures CountRange(Total(c, p, d), 0, n * plan.width) == OwnedKeys(plan.counts, plan.toRank, d, d + 1, n)
  {
    if n > 0 {
      var lo, hi := (n - 1) * plan.width, n * plan.width;
      ReceivedInBuckets(c, p, plan, d, n - 1);
      MulOrder(n - 1, n, plan.width);
      MulOrder(0, n - 1, plan.width);
      CountRangeSplit(Total(c, p, d), 0, lo, hi);
      ReceivedInBucket(c, p, plan, d, n - 1);
    }
  }

  /** The expected count of the plan is the number of records the protocol sends to the rank. */
  lemma ExpectedIsReceived(c: Config, p: nat, plan: SortPlan, d: nat)
    requires IsSortPhase(c, p, plan) && d < c.rankCount
    ensures |Total(c, p, d)| == OwnedKeys(plan.counts, plan.toRank, d, d + 1, |plan.counts|)
  {
    forall k | k in Total(c, p, d) ensures 0 <= k < plan.KeyRange() {
      TotalCount(c, p, d, k);
    }
    ExpandIsPermutation(Total(c, p, d), 0, plan.KeyRange());
    ReceivedInBuckets(c, p, plan, d, |plan.counts|);
  }

  // ---------- the program the ranks run ----------

  ghost predicate Expects(c: Config, plans: seq<SortPlan>, p: nat, d: nat)
    requires 0 < p <= |c.phases| == |plans|
  {
    var plan := plans[p - 1];
    && |plan.counts| <= |plan.toRank| && |PhaseOf(c, p).expected| == c.rankCount && d < c.rankCount
    && PhaseOf(c, p).expected[d] == OwnedKeys(plan.counts, plan.toRank, d, d + 1, |plan.counts|)
  }

  ghost predicate Planned(c: Config, plans: seq<SortPlan>, p: nat)
    requires 0 < p <= |c.phases| == |plans|
  {
    && IsSortPhase(c, p, plans[p - 1]) && |PhaseOf(c, p).expected| == c.rankCount
    && forall d :: 0 <= d < c.rankCount ==> Expects(c, plans, p, d)
  }

  /** Every phase is a sort phase, and every rank waits for the number of records its plan counted. */
  ghost predicate SortProgram(c: Config, plans: seq<SortPlan>)
  {
    && c.rankCount > 0 && c.capacity > 0 && |c.home| == |c.device| && |plans| == |c.phases|
    && (forall g :: 0 <= g < |c.home| ==> c.home[g] < c.rankCount)
    && (forall d :: 0 <= d < c.rankCount ==> d in c.home)
    && (forall d, g :: 0 <= d < c.rankCount && 0 <= g < |c.home| ==> ServedBy(c, d, c.device[g]))
    && (forall p :: 0 < p <= |c.phases| ==> Planned(c, plans, p))
  }

  /** W workers per rank; worker w of a rank uses device w modulo the device count. */
  ghost predicate UniformWorkers(c: Config, workers: nat, devices: nat)
  {
    && |c.home| == |c.device| == c.rankCount * workers && workers > 0 && devices > 0
    && forall g :: 0 <= g < |c.home| ==> c.home[g] == g / workers && c.device[g] == (g % workers) % devices
  }

  lemma RemainderIsSmaller(n: nat, m: nat)
    requires m > 0
    ensures n % m <= n
  {
    ModUnique(n, n / m, n % m, m);
  }

  /** Every device that some worker uses has a worker on every rank, also with more devices than workers. */
  lemma DevicesAreServed(c: Config, workers: nat, devices: nat, d: nat, g: nat)
    requires UniformWorkers(c, workers, devices) && d < c.rankCount && g < |c.home|
    ensures d in c.home && ServedBy(c, d, c.device[g])
  {
    var w := c.device[g];
    RemainderIsSmaller(g % workers, devices);
    var h := d * workers + w;
    MulOrder(d, c.rankCount, workers);
    MulOrder(0, d, workers);
    ModUnique(h, d, w, workers);
    ModUnique(w, 0, w, devices);
    assert c.home[h] == d && c.device[h] == w;
  }

  /** Every key a worker posts has an owner among the ranks. */
  lemma KeysHaveOwners(c: Config, p: nat, plan: SortPlan, g: nat, k: Key)
    requires IsSortPhase(c, p, plan) && g < |c.home| && k in PhaseOf(c, p).work[g]
    ensures PhaseOf(c, p).route(k) < c.rankCount
  {
    MSumAround(KeysByWorker(c, p), g);
    assert k in KeysByWorker(c, p)[g];
    assert k in AllKeys(c, p);
    assert Routed(c, p, plan, k);
    var b := BucketOf(k, plan.width);
    BucketInRange(k, |plan.counts|, plan.width);
    BucketBounds(k, plan.width, b);
    if plan.counts[b] == 0 {
      CountRangeZero(AllKeys(c, p), b * plan.width, (b + 1) * plan.width, k);
    }
    BucketsArePartitioned(plan.counts, plan.average, c.rankCount, plan.toRank, plan.first, plan.last, plan.used, b);
  }

  /** Plans and counts give the redistribution protocol everything it relies on. */
  lemma SortProgramsAreWellFormed(c: Config, plans: seq<SortPlan>)
    requires SortProgram(c, plans)
    ensures WellFormed(c)
  {
    forall p | 0 <= p < |c.phases|
      ensures |c.phases[p].work| == |c.home| && |c.phases[p].expected| == c.rankCount
    {
      assert Planned(c, plans, p + 1);
    }
    forall p, g, k | 0 <= p < |c.phases| && 0 <= g < |c.home| && k in c.phases[p].work[g]
      ensures c.phases[p].route(k) < c.rankCount
    {
      assert Planned(c, plans, p + 1);
      KeysHaveOwners(c, p + 1, plans[p], g, k);
    }
    forall p, d | 0 < p <= |c.phases| && 0 <= d < c.rankCount
      ensures PhaseOf(c, p).expected[d] == |Total(c, p, d)|
    {
      assert Planned(c, plans, p) && Expects(c, plans, p, d);
      ExpectedIsReceived(c, p, plans[p - 1], d);
    }
  }

  // ---------- the sorted result ----------

  /** What full_verify writes into the key array of rank d. */
  function LocalKeys(plan: SortPlan, histogram: multiset<Key>, d: nat): seq<int>
    requires d < |plan.first| && d < |plan.last|
  {
    Expand(histogram, plan.MinKey(d), plan.MaxKey(d) + 1)
  }

  /** The key arrays of the first n ranks, one after the other. */
  function Gathered(plan: SortPlan, histograms: seq<multiset<Key>>, n: nat): seq<int>
    requires n <= |histograms| && n <= |plan.first| && n <= |plan.last|
  {
    if n == 0 then [] else Gathered(plan, histograms, n - 1) + LocalKeys(plan, histograms[n - 1], n - 1)
  }

  /** Each rank's histogram holds what the phase sends to it. */
  ghost predicate Delivered(c: Config, p: nat, histograms: seq<multiset<Key>>)
    requires 0 < p <= |c.phases| && |c.phases[p - 1].work| == |c.home|
  {
    |histograms| == c.rankCount && forall d :: 0 <= d < c.rankCount ==> histograms[d] == Total(c, p, d)
  }

  lemma IntervalOrder(c: Config, p: nat, plan: SortPlan, d: nat)
    requires IsSortPhase(c, p, plan) && d < plan.used
    ensures plan.MinKey(d) == Start(plan.last, d) * plan.width
    ensures plan.MaxKey(d) + 1 == Start(plan.last, d + 1) * plan.width
    ensures 0 <= plan.MinKey(d) <= plan.MaxKey(d) + 1
  {
    assert GreedyInterval(plan.counts, plan.average, plan.first, plan.last, d);
    MulOrder(0, plan.first[d], plan.width);
    MulOrder(plan.first[d], plan.last[d] + 1, plan.width);
  }

  /** In its interval a rank's histogram is that of all keys. */
  lemma LocalKeysAreAllKeys(c: Config, p: nat, plan: SortPlan, d: nat)
    requires IsSortPhase(c, p, plan) && d < c.rankCount && plan.MinKey(d) >= 0
    ensures LocalKeys(plan, Total(c, p, d), d) == Expand(AllKeys(c, p), plan.MinKey(d), plan.MaxKey(d) + 1)
  {
    forall k | plan.MinKey(d) <= k < plan.MaxKey(d) + 1 ensures Total(c, p, d)[k] == AllKeys(c, p)[k] {
      ReceivesItsInterval(c, p, plan, d, k);
    }
    ExpandAgree(Total(c, p, d), AllKeys(c, p), plan.MinKey(d), plan.MaxKey(d) + 1);
  }

  /** A used rank continues the expansion where its predecessor stopped. */
  lemma RankContinuesExpansion(c: Config, p: nat, plan: SortPlan, d: nat)
    requires IsSortPhase(c, p, plan) && d < plan.used
    ensures Expand(AllKeys(c, p), 0, Start(plan.last, d + 1) * plan.width)
         == Expand(AllKeys(c, p), 0, Start(plan.last, d) * plan.width) + LocalKeys(plan, Total(c, p, d), d)
  {
    IntervalOrder(c, p, plan, d);
    LocalKeysAreAllKeys(c, p, plan, d);
    ExpandSplit(AllKeys(c, p), 0, plan.MinKey(d), plan.MaxKey(d) + 1);
  }

  /** The end of the keys of the first n ranks. */
  function Boundary(plan: SortPlan, n: nat): int
    requires n <= |plan.last| || plan.used <= |plan.last|
  {
    Start(plan.last, if n <= plan.used then n else plan.used) * plan.width
  }

  ghost predicate ContinuesExpansion(plan: SortPlan, all: multiset<Key>, histogram: multiset<Key>, d: nat)
    requires d < |plan.first| && d < |plan.last|
  {
    Expand(all, 0, Boundary(plan, d + 1)) == Expand(all, 0, Boundary(plan, d)) + LocalKeys(plan, histogram, d)
  }

  /** If every rank continues the expansion, the ranks together are the expansion. */
  lemma {:induction false} GatherPieces(plan: SortPlan, all: multiset<Key>, histograms: seq<multiset<Key>>, n: nat)
    requires n <= |histograms| && n <= |plan.first| && n <= |plan.last|
    requires forall d :: 0 <= d < n ==> ContinuesExpansion(plan, all, histograms[d], d)
    ensures Gathered(plan, histograms, n) == Expand(all, 0, Boundary(plan, n))
  {
    if n > 0 {
      GatherPieces(plan, all, histograms, n - 1);
      assert ContinuesExpansion(plan, all, histograms[n - 1], n - 1);
    }
  }

  lemma TailRankIsEmpty(plan: SortPlan, histogram: multiset<Key>, d: nat)
    requires d < |plan.first| && d < |plan.last| && plan.first[d] == 1 && plan.last[d] == 0
    ensures LocalKeys(plan, histogram, d) == []
  {
  }

  lemma GatherOneMore(c: Config, p: nat, plan: SortPlan, d: nat)
    requires IsSortPhase(c, p, plan) && d < c.rankCount
    ensures ContinuesExpansion(plan, AllKeys(c, p), Total(c, p, d), d)
  {
    if d < plan.used {
      RankContinuesExpansion(c, p, plan, d);
    } else {
      TailRankIsEmpty(plan, Total(c, p, d), d);
    }
  }

  lemma GatheredIsExpansion(c: Config, p: nat, plan: SortPlan, histograms: seq<multiset<Key>>)
    requires IsSortPhase(c, p, plan) && Delivered(c, p, histograms)
    ensures Gathered(plan, histograms, c.rankCount) == Expand(AllKeys(c, p), 0, Boundary(plan, c.rankCount))
  {
    forall d | 0 <= d < c.rankCount ensures ContinuesExpansion(plan, AllKeys(c, p), histograms[d], d) {
      GatherOneMore(c, p, plan, d);
    }
    GatherPieces(plan, AllKeys(c, p), histograms, c.rankCount);
  }

  lemma NoKeyBeyond(c: Config, p: nat, plan: SortPlan, k: nat)
    requires IsSortPhase(c, p, plan) && Start(plan.last, plan.used) * plan.width <= k < plan.KeyRange()
    ensures AllKeys(c, p)[k] == 0
  {
    var b := BucketOf(k, plan.width);
    BucketBounds(k, plan.width, b);
    BucketInRange(k, |plan.counts|, plan.width);
    BucketInRange(k, Start(plan.last, plan.used), plan.width);
    assert plan.counts[b] == 0;
    CountRangeZero(AllKeys(c, p), b * plan.width, (b + 1) * plan.width, k);
  }

  /** No key lies beyond the last interval. */
  lemma NothingBeyondIntervals(c: Config, p: nat, plan: SortPlan)
    requires IsSortPhase(c, p, plan)
    ensures Expand(AllKeys(c, p), 0, Boundary(plan, c.rankCount)) == Expand(AllKeys(c, p), 0, plan.KeyRange())
  {
    var end := Boundary(plan, c.rankCount);
    MulOrder(Start(plan.last, plan.used), |plan.counts|, plan.width);
    MulOrder(0, Start(plan.last, plan.used), plan.width);
    forall k | end <= k < plan.KeyRange() ensures AllKeys(c, p)[k] == 0 {
      NoKeyBeyond(c, p, plan, k);
    }
    CountRangeEmpty(AllKeys(c, p), end, plan.KeyRange());
    ExpandSplit(AllKeys(c, p), 0, end, plan.KeyRange());
  }

  /** The ranks' arrays, read in rank order, are all keys in sorted order. */
  lemma DeliveredIsSorted(c: Config, p: nat, plan: SortPlan, histograms: seq<multiset<Key>>)
    requires IsSortPhase(c, p, plan) && Delivered(c, p, histograms)
    ensures Sorted(Gathered(plan, histograms, c.rankCount))
    ensures multiset(Gathered(plan, histograms, c.rankCount)) == AllKeys(c, p)
  {
    GatheredIsExpansion(c, p, plan, histograms);
    NothingBeyondIntervals(c, p, plan);
    ExpandIsSorted(AllKeys(c, p), 0, plan.KeyRange());
    ExpandIsPermutation(AllKeys(c, p), 0, plan.KeyRange());
  }

  function HistogramsOf(s: State): (h: seq<multiset<Key>>)
    ensures |h| == |s.ranks|
  {
    seq(|s.ranks|, d requires 0 <= d < |s.ranks| => s.ranks[d].histogram)
  }

  /**
   End to end: for every assignment of keys to workers and every interleaving, a run that cannot
   be continued leaves the ranks with a sorted permutation of all keys of the last phase.
   */
  lemma EndToEndSort(c: Config, plans: seq<SortPlan>, steps: seq<Step>)
    requires SortProgram(c, plans) && |c.phases| > 0
    requires Maximal(c, steps)
    ensures var p, s := |c.phases|, Execute(c, steps).state;
            && IsSortPhase(c, p, plans[p - 1]) && |s.ranks| == c.rankCount
            && Sorted(Gathered(plans[p - 1], HistogramsOf(s), c.rankCount))
            && multiset(Gathered(plans[p - 1], HistogramsOf(s), c.rankCount)) == AllKeys(c, p)
  {
    SortProgramsAreWellFormed(c, plans);
    var p, s := |c.phases|, Execute(c, steps).state;
    assert Planned(c, plans, p);
    forall d | 0 <= d < c.rankCount ensures |s.ranks| == c.rankCount && s.ranks[d].histogram == Total(c, p, d) {
      MaximalRunsComplete(c, steps, d);
    }
    RunKeepsInv(c, steps);
    DeliveredIsSorted(c, p, plans[p - 1], HistogramsOf(s));
  }

  /**
   Already when every rank's own completion test has succeeded in the same phase the keys are in
   order, whatever their workers are still doing.
   */
  lemma CompletedPhaseIsSorted(c: Config, plans: seq<SortPlan>, steps: seq<Step>, p: nat)
    requires SortProgram(c, plans) && 0 < p <= |c.phases|
    requires Execute(c, steps).Reached? && Shape(c, Execute(c, steps).state)
    requires forall d :: 0 <= d < c.rankCount ==>
               var rank := Execute(c, steps).state.ranks[d];
               rank.phase == p && rank.recvCount >= PhaseOf(c, p).expected[d]
    ensures var s := Execute(c, steps).state;
            && IsSortPhase(c, p, plans[p - 1]) && |s.ranks| == c.rankCount
            && Sorted(Gathered(plans[p - 1], HistogramsOf(s), c.rankCount))
            && multiset(Gathered(plans[p - 1], HistogramsOf(s), c.rankCount)) == AllKeys(c, p)
  {
    SortProgramsAreWellFormed(c, plans);
    var s := Execute(c, steps).state;
    assert Planned(c, plans, p);
    forall d | 0 <= d < c.rankCount ensures s.ranks[d].histogram == Total(c, p, d) {
      LocalCompletionIsSafe(c, steps, d);
    }
    DeliveredIsSorted(c, p, plans[p - 1], HistogramsOf(s));
  }

  /** A record in a half-handled batch belongs to the rank's own total. */
  lemma HalfHandledIsTotal(c: Config, s: State, g: nat, k: Key)
    requires Inv(c, s) && g < |c.home| && 0 < RankOf(c, s, g).phase
    requires k in HalfHandled(c, s, g, c.home[g])
    ensures k in Total(c, RankOf(c, s, g).phase, c.home[g])
  {
    assert Conserved(c, s, c.home[g]);
    var owed := OwedByWorker(c, s, c.home[g]);
    MSumAround(owed, g);
    assert k in owed[g];
  }

  /** The key that a worker is about to hand to the handler lies in its rank's interval. */
  ghost predicate NextKeyInInterval(c: Config, plans: seq<SortPlan>, s: State, g: nat)
    requires Shape(c, s) && Enabled(c, s, Handle(g))
  {
    var p, d, k := RankOf(c, s, g).phase, c.home[g], s.workers[g].receipt.rest[0];
    && 0 < p <= |plans| && d < |plans[p - 1].first| && d < |plans[p - 1].last|
    && plans[p - 1].MinKey(d) <= k <= plans[p - 1].MaxKey(d)
  }

  lemma HandledKeyInInterval(c: Config, plans: seq<SortPlan>, s: State, g: nat)
    requires SortProgram(c, plans) && Inv(c, s) && Enabled(c, s, Handle(g)) && 0 < RankOf(c, s, g).phase
    ensures NextKeyInInterval(c, plans, s, g)
  {
    var p, k := RankOf(c, s, g).phase, s.workers[g].receipt.rest[0];
    assert Planned(c, plans, p);
    HalfHandledIsTotal(c, s, g, k);
    ReceivesItsInterval(c, p, plans[p - 1], c.home[g], k);
  }

  lemma HandlingInPhase(c: Config, s: State, g: nat)
    requires Inv(c, s) && Enabled(c, s, Handle(g))
    ensures 0 < RankOf(c, s, g).phase <= |c.phases|
  {
    assert WorkerOk(c, s, g);
  }

  /** The handler only ever touches slots of its own rank's interval. */
  lemma HandlerStaysInInterval(c: Config, plans: seq<SortPlan>, steps: seq<Step>, g: nat)
    requires SortProgram(c, plans) && Execute(c, steps).Reached? && Shape(c, Execute(c, steps).state)
    requires Enabled(c, Execute(c, steps).state, Handle(g))
    ensures NextKeyInInterval(c, plans, Execute(c, steps).state, g)
  {
    SortProgramsAreWellFormed(c, plans);
    RunKeepsInv(c, steps);
    HandlingInPhase(c, Execute(c, steps).state, g);
    HandledKeyInInterval(c, plans, Execute(c, steps).state, g);
  }

  // ---------- exact global ranks ----------

  /** The keys routed to lower ranks are the keys below the rank's interval. */
  lemma LesserKeysAreBelow(c: Config, p: nat, plan: SortPlan, d: nat)
    requires IsSortPhase(c, p, plan) && d < plan.used
    ensures plan.MinKey(d) >= 0
    ensures OwnedKeys(plan.counts, plan.toRank, 0, d, |plan.counts|) == CountRange(AllKeys(c, p), 0, plan.MinKey(d))
  {
    MulOrder(0, plan.first[d], plan.width);
    PlanCountsLesserKeys(plan.counts, plan.average, c.rankCount, plan.toRank, plan.first, plan.last, plan.used, d);
    assert GreedyInterval(plan.counts, plan.average, plan.first, plan.last, d);
    BucketsCoverRange(AllKeys(c, p), plan.counts, plan.width, plan.first[d]);
  }

  lemma EmptyInterval(plan: SortPlan, d: nat, k: int)
    requires d < |plan.first| && d < |plan.last| && plan.first[d] == 1 && plan.last[d] == 0
    ensures !(plan.MinKey(d) <= k <= plan.MaxKey(d))
  {
  }

  /** The keys below k are those of lower ranks and the smaller ones of the rank that owns k. */
  lemma SmallerKeys(c: Config, p: nat, plan: SortPlan, d: nat, k: nat)
    requires IsSortPhase(c, p, plan) && d < c.rankCount && plan.MinKey(d) <= k <= plan.MaxKey(d)
    ensures CountRange(AllKeys(c, p), 0, k)
         == OwnedKeys(plan.counts, plan.toRank, 0, d, |plan.counts|) + CountRange(Total(c, p, d), plan.MinKey(d), k)
  {
    var lo := plan.MinKey(d);
    if plan.used <= d {
      EmptyInterval(plan, d, k);
    }
    LesserKeysAreBelow(c, p, plan, d);
    CountRangeSplit(AllKeys(c, p), 0, lo, k);
    forall j | lo <= j < k ensures Total(c, p, d)[j] == AllKeys(c, p)[j] {
      ReceivesItsInterval(c, p, plan, d, j);
    }
    CountRangeAgree(Total(c, p, d), AllKeys(c, p), lo, k);
  }

  /**
   cumulative_by_key[key - 1] + lesser_key_count, where `below` is whatever the slot below the
   table holds.
   */
  function LookedUpRank(cumulative: seq<int>, below: int, minKey: int, lesser: int, k: int): int
    requires minKey <= k <= minKey + |cumulative|
  {
    (if k == minKey then below else cumulative[k - 1 - minKey]) + lesser
  }

  /**
   The looked-up rank of a key in a rank's interval is the number of smaller keys on all ranks,
   except that the smallest key of the interval needs a zero in the slot below the table.
   */
  lemma LookupIsExact(c: Config, p: nat, plan: SortPlan, d: nat, frequency: seq<int>, cumulative: seq<int>,
                      below: int, k: nat)
    requires IsSortPhase(c, p, plan) && d < c.rankCount && plan.MinKey(d) <= k <= plan.MaxKey(d)
    requires IsFrequencyTable(frequency, Total(c, p, d), plan.MinKey(d), plan.MaxKey(d))
    requires |cumulative| == plan.MaxKey(d) - plan.MinKey(d) + 1
    requires forall i :: 0 <= i < |cumulative| ==> cumulative[i] == Prefix(frequency, i + 1)
    ensures var lesser := OwnedKeys(plan.counts, plan.toRank, 0, d, |plan.counts|);
            LookedUpRank(cumulative, below, plan.MinKey(d), lesser, k) == CountRange(AllKeys(c, p), 0, k)
            <==> k > plan.MinKey(d) || below == 0
  {
    SmallerKeys(c, p, plan, d, k);
    PrefixSumCounts(frequency, Total(c, p, d), plan.MinKey(d), plan.MaxKey(d), k - plan.MinKey(d));
  }

  /**
   A key's looked-up rank in every run: once the completion test of the owning rank has
   succeeded, the number of smaller keys on all ranks.
   */
  lemma ExactGlobalRank(c: Config, plans: seq<SortPlan>, steps: seq<Step>, d: nat, p: nat, frequency: seq<int>,
                        cumulative: seq<int>, below: int, k: nat)
    requires SortProgram(c, plans) && Execute(c, steps).Reached? && Shape(c, Execute(c, steps).state)
    requires d < c.rankCount && 0 < p == Execute(c, steps).state.ranks[d].phase
    requires Execute(c, steps).state.ranks[d].recvCount >= PhaseOf(c, p).expected[d]
    requires d < |plans[p - 1].first| && d < |plans[p - 1].last|
    requires plans[p - 1].MinKey(d) <= k <= plans[p - 1].MaxKey(d)
    requires IsFrequencyTable(frequency, Execute(c, steps).state.ranks[d].histogram,
                              plans[p - 1].MinKey(d), plans[p - 1].MaxKey(d))
    requires |cumulative| == plans[p - 1].MaxKey(d) - plans[p - 1].MinKey(d) + 1
    requires forall i :: 0 <= i < |cumulative| ==> cumulative[i] == Prefix(frequency, i + 1)
    ensures IsSortPhase(c, p, plans[p - 1])
    ensures var plan := plans[p - 1];
            LookedUpRank(cumulative, below, plan.MinKey(d),
                         OwnedKeys(plan.counts, plan.toRank, 0, d, |plan.counts|), k)
              == CountRange(AllKeys(c, p), 0, k)
            <==> k > plan.MinKey(d) || below == 0
  {
    SortProgramsAreWellFormed(c, plans);
    LocalCompletionIsSafe(c, steps, d);
    assert Planned(c, plans, p);
    LookupIsExact(c, p, plans[p - 1], d, frequency, cumulative, below, k);
  }
}
