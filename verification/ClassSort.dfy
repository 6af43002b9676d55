/**
 A problem class: the generated keys with the changes of the iterations so far, sorted on any
 power-of-two number of ranks. The sorted keys depend on the class alone.
 */
module ClassSort {
  import opened Collections
  import opened Histograms
  import opened Powers
  import opened NasRandom
  import opened Workspace
  import opened AmProtocol
  import opened AmSafety
  import opened AmProgress
  import opened IntegerSort
  import opened SortPipeline

  /**
   2^t keys, times 2^m for the large classes; the generator's scale, multiplier and seed; and what
   the iterations change.
   */
  datatype Class = Class(t: nat, m: nat, scale: nat, multiplier: nat, seed: nat, maxIterations: nat, maxKeyBound: nat)
  {
    function LocalKeyCount(p: nat): nat
    {
      ComputeLocalKeyCount(Pow(2, t), Pow(2, m), Pow(2, p))
    }

    function RandomShare(p: nat): nat
    {
      ComputeTotalRandomNumbers(Pow(2, t), Pow(2, m)) / Pow(2, p)
    }

    /** The keys that one of 2^p ranks generates. */
    function GeneratedOn(p: nat, r: nat): seq<int>
      requires seed < T46
    {
      RankKeys(scale, multiplier, seed, LocalKeyCount(p), RandomShare(p), r)
    }

    /** The keys of the class in one sequence. */
    function Keys(): seq<int>
      requires seed < T46
    {
      KeySequence(scale, multiplier, seed, Pow(2, t) * Pow(2, m))
    }

    /** The slots that the iterations change are in the first of 2^p key arrays. */
    ghost predicate Allows(p: nat, iterations: seq<nat>)
    {
      forall i :: 0 <= i < |iterations| ==> iterations[i] + maxIterations < LocalKeyCount(p)
    }
  }

  /** The slots that the iterations change are among the first n. */
  ghost predicate InFront(iterations: seq<nat>, maxIterations: nat, n: nat)
  {
    forall i :: 0 <= i < |iterations| ==> iterations[i] + maxIterations < n
  }

  /** The changes of several iterations, one after the other. */
  function AfterIterations(keys: seq<int>, iterations: seq<nat>, maxIterations: nat, maxKeyBound: nat)
    : (changed: seq<int>)
    requires InFront(iterations, maxIterations, |keys|)
    ensures |changed| == |keys|
  {
    if iterations == [] then keys
    else
      var n := |iterations| - 1;
      ChangedKeys(AfterIterations(keys, iterations[..n], maxIterations, maxKeyBound), iterations[n],
                  maxIterations, maxKeyBound)
  }

  /** The iterations are numbered from one. */
  ghost predicate Numbered(iterations: seq<nat>, maxIterations: nat)
  {
    forall i :: 0 <= i < |iterations| ==> 1 <= iterations[i] <= maxIterations
  }

  /**
   Slot x after some iterations: one that has taken place has left its number in the slot of that
   number, and the key bound less its number maxIterations slots later.
   */
  ghost predicate SlotHolds(before: seq<int>, after: seq<int>, iterations: seq<nat>, maxIterations: nat,
                            maxKeyBound: nat, x: nat)
    requires x < |before| == |after|
  {
    after[x] == if x in iterations then x
                else if x >= maxIterations && (x - maxIterations) in iterations then maxKeyBound - (x - maxIterations)
                else before[x]
  }

  lemma {:induction false} SlotAfterIterations(keys: seq<int>, iterations: seq<nat>, maxIterations: nat,
                                              maxKeyBound: nat, x: nat)
    requires InFront(iterations, maxIterations, |keys|) && Numbered(iterations, maxIterations) && x < |keys|
    ensures SlotHolds(keys, AfterIterations(keys, iterations, maxIterations, maxKeyBound), iterations, maxIterations,
                      maxKeyBound, x)
  {
    if iterations != [] {
      var n := |iterations| - 1;
      assert iterations == iterations[..n] + [iterations[n]];
      SlotAfterIterations(keys, iterations[..n], maxIterations, maxKeyBound, x);
    }
  }

  /** Changes in the front leave what follows alone. */
  lemma {:induction false} ChangesInFront(front: seq<int>, back: seq<int>, iterations: seq<nat>,
                                         maxIterations: nat, maxKeyBound: nat)
    requires InFront(iterations, maxIterations, |front|)
    ensures InFront(iterations, maxIterations, |front + back|)
    ensures AfterIterations(front + back, iterations, maxIterations, maxKeyBound)
         == AfterIterations(front, iterations, maxIterations, maxKeyBound) + back
  {
    if iterations != [] {
      var n := |iterations| - 1;
      assert iterations[n] + maxIterations < |front|;
      ChangesInFront(front, back, iterations[..n], maxIterations, maxKeyBound);
    }
  }

  /** The changes concern the first array only. */
  lemma ChangesInFirstArray(arrays: seq<seq<int>>, iterations: seq<nat>, maxIterations: nat, maxKeyBound: nat)
    requires arrays != [] && InFront(iterations, maxIterations, |arrays[0]|)
    ensures InFront(iterations, maxIterations, |Concat(arrays)|)
    ensures AfterIterations(Concat(arrays), iterations, maxIterations, maxKeyBound)
         == Concat(arrays[0 := AfterIterations(arrays[0], iterations, maxIterations, maxKeyBound)])
  {
    var changed := arrays[0 := AfterIterations(arrays[0], iterations, maxIterations, maxKeyBound)];
    ConcatFirst(arrays);
    ConcatFirst(changed);
    assert arrays[1..] == changed[1..];
    ChangesInFront(arrays[0], Concat(arrays[1..]), iterations, maxIterations, maxKeyBound);
  }

  /** The arrays that `ranks` ranks generate. */
  function GeneratedArrays(cls: Class, p: nat, ranks: nat): (arrays: seq<seq<int>>)
    requires cls.seed < T46
    ensures |arrays| == ranks && forall r :: 0 <= r < ranks ==> arrays[r] == cls.GeneratedOn(p, r)
  {
    seq(ranks, r requires 0 <= r < ranks => cls.GeneratedOn(p, r))
  }

  lemma {:induction false} GeneratedRankByRank(cls: Class, p: nat, ranks: nat)
    requires cls.seed < T46
    ensures Concat(GeneratedArrays(cls, p, ranks))
         == RankByRank(cls.scale, cls.multiplier, cls.seed, cls.LocalKeyCount(p), cls.RandomShare(p), ranks)
  {
    if ranks > 0 {
      GeneratedRankByRank(cls, p, ranks - 1);
      assert GeneratedArrays(cls, p, ranks)[..ranks - 1] == GeneratedArrays(cls, p, ranks - 1);
    }
  }

  /** All ranks of the class together generate its keys. */
  lemma ClassIsGenerated(cls: Class, p: nat)
    requires cls.seed < T46 && p <= cls.t
    ensures Concat(GeneratedArrays(cls, p, Pow(2, p))) == cls.Keys()
  {
    GeneratedRankByRank(cls, p, Pow(2, p));
    ClassKeysIndependentOfRankCount(cls.t, cls.m, p, cls.scale, cls.multiplier, cls.seed);
  }

  /** The key arrays of all ranks, after the iterations. */
  function KeyArraysOn(cls: Class, p: nat, iterations: seq<nat>): (arrays: seq<seq<int>>)
    requires cls.seed < T46 && cls.Allows(p, iterations)
    ensures |arrays| == Pow(2, p)
  {
    var arrays := GeneratedArrays(cls, p, Pow(2, p));
    arrays[0 := AfterIterations(arrays[0], iterations, cls.maxIterations, cls.maxKeyBound)]
  }

  ghost predicate HoldsArray(c: Config, q: nat, cls: Class, p: nat, iterations: seq<nat>, r: nat)
    requires 0 < q <= |c.phases| && |c.phases[q - 1].work| == |c.home| && r < c.rankCount
    requires cls.seed < T46 && cls.Allows(p, iterations)
  {
    r < Pow(2, p) && KeysByRank(c, q)[r] == multiset(KeyArraysOn(cls, p, iterations)[r])
  }

  /** The ranks of phase q hold the keys of the class after the iterations. */
  ghost predicate HoldsClass(c: Config, q: nat, cls: Class, p: nat, iterations: seq<nat>)
  {
    && 0 < q <= |c.phases| && |c.phases[q - 1].work| == |c.home|
    && cls.seed < T46 && p <= cls.t && cls.Allows(p, iterations) && c.rankCount == Pow(2, p)
    && forall r :: 0 <= r < c.rankCount ==> HoldsArray(c, q, cls, p, iterations, r)
  }

  /** All keys of the phase are the keys of the class, however many ranks there are. */
  lemma PhaseHoldsClassKeys(c: Config, q: nat, cls: Class, p: nat, iterations: seq<nat>)
    requires HoldsClass(c, q, cls, p, iterations)
    requires forall g :: 0 <= g < |c.home| ==> c.home[g] < c.rankCount
    ensures InFront(iterations, cls.maxIterations, |cls.Keys()|)
    ensures AllKeys(c, q)
         == multiset(AfterIterations(cls.Keys(), iterations, cls.maxIterations, cls.maxKeyBound))
  {
    RanksHoldAllKeys(c, q);
    forall r | 0 <= r < c.rankCount ensures KeysByRank(c, q)[r] == multiset(KeyArraysOn(cls, p, iterations)[r]) {
      assert HoldsArray(c, q, cls, p, iterations, r);
    }
    ConcatHolds(KeyArraysOn(cls, p, iterations), KeysByRank(c, q));
    ChangesInFirstArray(GeneratedArrays(cls, p, Pow(2, p)), iterations, cls.maxIterations, cls.maxKeyBound);
    ClassIsGenerated(cls, p);
  }

  /** Key x of the class in plain arithmetic. */
  lemma ClassKey(cls: Class, x: nat)
    requires cls.seed < T46 && x < Pow(2, cls.t) * Pow(2, cls.m)
    ensures cls.Keys()[x]
         == (cls.scale * ((Pow(cls.multiplier, 4 * x + 1) * cls.seed) % T46
                          + (Pow(cls.multiplier, 4 * x + 2) * cls.seed) % T46
                          + (Pow(cls.multiplier, 4 * x + 3) * cls.seed) % T46
                          + (Pow(cls.multiplier, 4 * x + 4) * cls.seed) % T46)) / T46
  {
    KeyFromPowers(cls.scale, cls.multiplier, cls.seed, x);
  }

  ghost predicate HoldsChanges(before: seq<int>, after: seq<int>, iterations: seq<nat>, maxIterations: nat,
                               maxKeyBound: nat)
  {
    && |after| == |before|
    && forall x: nat :: x < |after| ==> SlotHolds(before, after, iterations, maxIterations, maxKeyBound, x)
  }

  lemma IterationsHoldChanges(keys: seq<int>, iterations: seq<nat>, maxIterations: nat, maxKeyBound: nat)
    requires InFront(iterations, maxIterations, |keys|) && Numbered(iterations, maxIterations)
    ensures HoldsChanges(keys, AfterIterations(keys, iterations, maxIterations, maxKeyBound), iterations, maxIterations,
                         maxKeyBound)
  {
    var after := AfterIterations(keys, iterations, maxIterations, maxKeyBound);
    forall x: nat | x < |after| ensures SlotHolds(keys, after, iterations, maxIterations, maxKeyBound, x) {
      SlotAfterIterations(keys, iterations, maxIterations, maxKeyBound, x);
    }
  }

  /** What a phase sorts: the keys of the random stream with the changes of the iterations so far. */
  lemma PhaseKeysAreKnown(c: Config, q: nat, cls: Class, p: nat, iterations: seq<nat>) returns (keys: seq<int>)
    requires HoldsClass(c, q, cls, p, iterations) && Numbered(iterations, cls.maxIterations)
    requires forall g :: 0 <= g < |c.home| ==> c.home[g] < c.rankCount
    ensures AllKeys(c, q) == multiset(keys)
    ensures HoldsChanges(cls.Keys(), keys, iterations, cls.maxIterations, cls.maxKeyBound)
  {
    PhaseHoldsClassKeys(c, q, cls, p, iterations);
    keys := AfterIterations(cls.Keys(), iterations, cls.maxIterations, cls.maxKeyBound);
    IterationsHoldChanges(cls.Keys(), iterations, cls.maxIterations, cls.maxKeyBound);
  }

  /** A maximal run leaves the keys of the class in order. */
  lemma RunSortsClass(c: Config, its: seq<Iteration>, steps: seq<Step>, cls: Class, p: nat, iterations: seq<nat>)
    requires AllRunOnPlans(c, its) && |its| > 0 && HoldsClass(c, |its|, cls, p, iterations)
    requires Maximal(c, steps)
    ensures var plan, s := PlansOf(c, its)[|its| - 1], Execute(c, steps).state;
            && IsSortPhase(c, |its|, plan) && |s.ranks| == c.rankCount
            && InFront(iterations, cls.maxIterations, |cls.Keys()|)
            && Sorted(Gathered(plan, HistogramsOf(s), c.rankCount))
            && multiset(Gathered(plan, HistogramsOf(s), c.rankCount))
               == multiset(AfterIterations(cls.Keys(), iterations, cls.maxIterations, cls.maxKeyBound))
  {
    IterationsSort(c, its, steps);
    PhaseHoldsClassKeys(c, |its|, cls, p, iterations);
  }

  /** The ranks' sorted keys, one after the other, at the end of a maximal run. */
  ghost function SortedKeys(c: Config, its: seq<Iteration>, steps: seq<Step>): seq<int>
    requires AllRunOnPlans(c, its) && |its| > 0 && Maximal(c, steps)
  {
    IterationsSort(c, its, steps);
    Gathered(PlansOf(c, its)[|its| - 1], HistogramsOf(Execute(c, steps).state), c.rankCount)
  }

  /**
   The result of a class depends on nothing else: two programs with different numbers of ranks,
   workers, devices and buckets and any batch sizes leave, on any maximal runs, the same keys.
   */
  lemma ResultIndependentOfRanks(c: Config, its: seq<Iteration>, steps: seq<Step>, p: nat,
                                 c': Config, its': seq<Iteration>, steps': seq<Step>, p': nat,
                                 cls: Class, iterations: seq<nat>)
    requires AllRunOnPlans(c, its) && |its| > 0 && HoldsClass(c, |its|, cls, p, iterations) && Maximal(c, steps)
    requires AllRunOnPlans(c', its') && |its'| > 0 && HoldsClass(c', |its'|, cls, p', iterations)
    requires Maximal(c', steps')
    ensures SortedKeys(c, its, steps) == SortedKeys(c', its', steps')
  {
    RunSortsClass(c, its, steps, cls, p, iterations);
    RunSortsClass(c', its', steps', cls, p', iterations);
    SortedIsUnique(SortedKeys(c, its, steps), SortedKeys(c', its', steps'));
  }
}
