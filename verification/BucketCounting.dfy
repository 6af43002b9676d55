/**
 Global bucket counts: every rank's threads count their keys privately and merge in any order,
 and the ranks' counts are summed by an arbitrary reduction tree.
 */
module BucketCounting {
  import opened Collections
  import opened Histograms

  // ---------- the counts of one rank ----------

  /** The keys whose iterations are no longer left, each in its own singleton. */
  function Counted(keys: seq<nat>, left: set<nat>): (singles: seq<multiset<int>>)
    ensures |singles| == |keys|
  {
    seq(|keys|, i requires 0 <= i < |keys| => if i in left then multiset{} else multiset{keys[i] as int})
  }

  lemma CountOne(keys: seq<nat>, left: set<nat>, i: nat)
    requires i < |keys| && i in left
    ensures MSum(Counted(keys, left - {i})) == MSum(Counted(keys, left)) + multiset{keys[i] as int}
  {
    assert Counted(keys, left - {i}) == Counted(keys, left)[i := multiset{keys[i] as int}];
    MSumUpdate(Counted(keys, left), i, multiset{keys[i] as int});
  }

  lemma {:induction false} AllCounted(keys: seq<nat>)
    ensures MSum(Counted(keys, {})) == multiset(keys)
  {
    if keys != [] {
      var last := keys[|keys| - 1];
      AllCounted(keys[..|keys| - 1]);
      assert Counted(keys, {})[..|keys| - 1] == Counted(keys[..|keys| - 1], {});
      assert keys == keys[..|keys| - 1] + [last];
    }
  }

  /** The keys of bucket b in a multiset. */
  function InBucket(keys: multiset<int>, width: nat, b: nat): nat
  {
    CountRange(keys, b * width, (b + 1) * width)
  }

  /** What all threads hold privately for bucket b. */
  function Column(sizes: seq<seq<int>>, b: nat): (column: seq<int>)
    requires forall t :: 0 <= t < |sizes| ==> b < |sizes[t]|
    ensures |column| == |sizes|
  {
    seq(|sizes|, t requires 0 <= t < |sizes| => sizes[t][b])
  }

  /** Merged and private counts together are the counts so far, in every bucket. */
  ghost predicate Tallied(before: seq<int>, merged: seq<int>, sizes: seq<seq<int>>, counted: multiset<int>,
                          width: nat, numBuckets: nat)
  {
    && numBuckets <= |before| == |merged|
    && (forall t :: 0 <= t < |sizes| ==> |sizes[t]| == numBuckets)
    && (forall b :: 0 <= b < numBuckets ==>
          merged[b] + Sum(Column(sizes, b)) == before[b] + InBucket(counted, width, b))
    && merged[numBuckets..] == before[numBuckets..]
  }

  lemma TallyOne(before: seq<int>, merged: seq<int>, sizes: seq<seq<int>>, counted: multiset<int>,
                 width: nat, numBuckets: nat, t: nat, k: nat)
    requires Tallied(before, merged, sizes, counted, width, numBuckets)
    requires t < |sizes| && width > 0 && BucketOf(k, width) < numBuckets
    ensures var bucket := BucketOf(k, width);
            Tallied(before, merged, sizes[t := sizes[t][bucket := sizes[t][bucket] + 1]],
                    counted + multiset{k as int}, width, numBuckets)
  {
    var bucket := BucketOf(k, width);
    var sizes' := sizes[t := sizes[t][bucket := sizes[t][bucket] + 1]];
    forall b | 0 <= b < numBuckets
      ensures merged[b] + Sum(Column(sizes', b)) == before[b] + InBucket(counted + multiset{k as int}, width, b)
    {
      assert Column(sizes', b) == Column(sizes, b)[t := sizes'[t][b]];
      SumUpdate(Column(sizes, b), t, sizes'[t][b]);
      CountRangeAdd(counted, multiset{k as int}, b * width, (b + 1) * width);
      CountOneKey(k, b * width, (b + 1) * width);
      BucketBounds(k, width, b);
    }
  }

  function Zeros(n: nat): (z: seq<int>)
    ensures |z| == n && forall b :: 0 <= b < n ==> z[b] == 0
  {
    seq(n, _ => 0)
  }

  lemma TallyMerge(before: seq<int>, merged: seq<int>, merged': seq<int>, sizes: seq<seq<int>>,
                   counted: multiset<int>, width: nat, numBuckets: nat, t: nat)
    requires Tallied(before, merged, sizes, counted, width, numBuckets) && t < |sizes|
    requires |merged'| == |merged| && merged'[numBuckets..] == merged[numBuckets..]
    requires forall b :: 0 <= b < numBuckets ==> merged'[b] == merged[b] + sizes[t][b]
    ensures Tallied(before, merged', sizes[t := Zeros(numBuckets)], counted, width, numBuckets)
  {
    var sizes' := sizes[t := Zeros(numBuckets)];
    forall b | 0 <= b < numBuckets
      ensures merged'[b] + Sum(Column(sizes', b)) == before[b] + InBucket(counted, width, b)
    {
      assert Column(sizes', b) == Column(sizes, b)[t := 0];
      SumUpdate(Column(sizes, b), t, 0);
    }
  }

  /** The critical section: one thread adds its private counts to the rank's. */
  method MergePrivateCounts(localBucketCounts: array<int>, sizes: seq<int>)
    requires |sizes| <= localBucketCounts.Length
    modifies localBucketCounts
    ensures forall b :: 0 <= b < |sizes| ==> localBucketCounts[..][b] == old(localBucketCounts[..])[b] + sizes[b]
    ensures localBucketCounts[..][|sizes|..] == old(localBucketCounts[..])[|sizes|..]
  {
    for bucket := 0 to |sizes|
      invariant forall b :: 0 <= b < bucket ==> localBucketCounts[b] == old(localBucketCounts[b]) + sizes[b]
      invariant forall b :: bucket <= b < localBucketCounts.Length ==> localBucketCounts[b] == old(localBucketCounts[b])
    {
      localBucketCounts[bucket] := localBucketCounts[bucket] + sizes[bucket];
    }
  }

  lemma NothingPrivate(before: seq<int>, merged: seq<int>, sizes: seq<seq<int>>, counted: multiset<int>,
                       width: nat, numBuckets: nat)
    requires Tallied(before, merged, sizes, counted, width, numBuckets)
    requires forall t :: 0 <= t < |sizes| ==> sizes[t] == Zeros(numBuckets)
    ensures forall b :: 0 <= b < numBuckets ==> merged[b] == before[b] + InBucket(counted, width, b)
  {
    forall b | 0 <= b < numBuckets ensures Sum(Column(sizes, b)) == 0 {
      SumZeros(Column(sizes, b));
    }
  }

  lemma NothingCounted(before: seq<int>, keys: seq<nat>, sizes: seq<seq<int>>, left: set<nat>,
                       width: nat, numBuckets: nat)
    requires numBuckets <= |before| && forall t :: 0 <= t < |sizes| ==> sizes[t] == Zeros(numBuckets)
    requires forall i :: 0 <= i < |keys| ==> i in left
    ensures Tallied(before, before, sizes, MSum(Counted(keys, left)), width, numBuckets)
  {
    MSumEmpty(Counted(keys, left));
    forall b | 0 <= b < numBuckets ensures Sum(Column(sizes, b)) == 0 && InBucket(multiset{}, width, b) == 0 {
      SumZeros(Column(sizes, b));
      CountRangeEmpty(multiset{}, b * width, (b + 1) * width);
    }
  }

  function Below(n: nat): (s: set<nat>)
    ensures forall i :: i in s <==> 0 <= i < n
  {
    if n == 0 then {} else Below(n - 1) + {n - 1}
  }

  /** The state of the parallel region: the iterations left and the threads that have not merged. */
  ghost predicate Counting(before: seq<int>, merged: seq<int>, sizes: seq<seq<int>>, keys: seq<nat>, owner: seq<nat>,
                           left: set<nat>, unmerged: set<nat>, width: nat, numBuckets: nat)
  {
    && |owner| == |keys|
    && (forall i :: i in left ==> i < |keys| && owner[i] in unmerged)
    && (forall t :: t in unmerged ==> t < |sizes|)
    && (forall t: nat :: t < |sizes| && t !in unmerged ==> sizes[t] == Zeros(numBuckets))
    && Tallied(before, merged, sizes, MSum(Counted(keys, left)), width, numBuckets)
  }

  lemma CountStep(before: seq<int>, merged: seq<int>, sizes: seq<seq<int>>, keys: seq<nat>, owner: seq<nat>,
                  left: set<nat>, unmerged: set<nat>, width: nat, numBuckets: nat, i: nat)
    requires Counting(before, merged, sizes, keys, owner, left, unmerged, width, numBuckets)
    requires i in left && width > 0 && BucketOf(keys[i], width) < numBuckets
    ensures var t, bucket := owner[i], BucketOf(keys[i], width);
            Counting(before, merged, sizes[t := sizes[t][bucket := sizes[t][bucket] + 1]], keys, owner,
                     left - {i}, unmerged, width, numBuckets)
  {
    var k, counted := keys[i], MSum(Counted(keys, left));
    TallyOne(before, merged, sizes, counted, width, numBuckets, owner[i], k);
    assert MSum(Counted(keys, left - {i})) == counted + multiset{k as int} by {
      CountOne(keys, left, i);
    }
  }

  lemma MergeStep(before: seq<int>, merged: seq<int>, merged': seq<int>, sizes: seq<seq<int>>, keys: seq<nat>,
                  owner: seq<nat>, left: set<nat>, unmerged: set<nat>, width: nat, numBuckets: nat, t: nat)
    requires Counting(before, merged, sizes, keys, owner, left, unmerged, width, numBuckets)
    requires t in unmerged && forall i :: i in left ==> owner[i] != t
    requires |merged'| == |merged| && merged'[numBuckets..] == merged[numBuckets..]
    requires forall b :: 0 <= b < numBuckets ==> merged'[b] == merged[b] + sizes[t][b]
    ensures Counting(before, merged', sizes[t := Zeros(numBuckets)], keys, owner,
                     left, unmerged - {t}, width, numBuckets)
  {
    TallyMerge(before, merged, merged', sizes, MSum(Counted(keys, left)), width, numBuckets, t);
  }

  method MergeThread(localBucketCounts: array<int>, sizes: seq<seq<int>>, t: nat, numBuckets: nat,
                     ghost before: seq<int>, ghost keys: seq<nat>, ghost owner: seq<nat>,
                     ghost left: set<nat>, ghost unmerged: set<nat>, ghost width: nat)
    returns (sizes': seq<seq<int>>)
    requires Counting(before, localBucketCounts[..], sizes, keys, owner, left, unmerged, width, numBuckets)
    requires t in unmerged && forall i :: i in left ==> owner[i] != t
    modifies localBucketCounts
    ensures Counting(before, localBucketCounts[..], sizes', keys, owner, left, unmerged - {t}, width, numBuckets)
  {
    ghost var merged := localBucketCounts[..];
    MergePrivateCounts(localBucketCounts, sizes[t]);
    MergeStep(before, merged, localBucketCounts[..], sizes, keys, owner, left, unmerged, width, numBuckets, t);
    sizes' := sizes[t := Zeros(numBuckets)];
  }

  lemma CountingEnds(before: seq<int>, merged: seq<int>, sizes: seq<seq<int>>, keys: seq<nat>, owner: seq<nat>,
                     width: nat, numBuckets: nat)
    requires Counting(before, merged, sizes, keys, owner, {}, {}, width, numBuckets)
    ensures |merged| == |before| && numBuckets <= |before| && merged[numBuckets..] == before[numBuckets..]
    ensures forall b :: 0 <= b < numBuckets ==> merged[b] == before[b] + InBucket(multiset(keys), width, b)
  {
    AllCounted(keys);
    NothingPrivate(before, merged, sizes, multiset(keys), width, numBuckets);
  }

  /**
   count_local_buckets: iteration i runs on thread owner[i]; any thread may take its next step,
   and a thread that has no iteration left may merge. The slots after the buckets are not touched.
   */
  method CountLocalBuckets(keys: seq<nat>, width: nat, localBucketCounts: array<int>, numBuckets: nat,
                           threads: nat, owner: seq<nat>)
    requires width > 0 && numBuckets <= localBucketCounts.Length && |owner| == |keys|
    requires forall i :: 0 <= i < |keys| ==> BucketOf(keys[i], width) < numBuckets
    requires forall i :: 0 <= i < |owner| ==> owner[i] < threads
    modifies localBucketCounts
    ensures forall b :: 0 <= b < numBuckets ==>
              localBucketCounts[..][b] == old(localBucketCounts[..])[b] + InBucket(multiset(keys), width, b)
    ensures localBucketCounts[..][numBuckets..] == old(localBucketCounts[..])[numBuckets..]
  {
    ghost var before := localBucketCounts[..];
    var sizes := seq(threads, _ => Zeros(numBuckets));
    var left, unmerged := Below(|keys|), Below(threads);
    NothingCounted(before, keys, sizes, left, width, numBuckets);
    while left != {} || unmerged != {}
      invariant Counting(before, localBucketCounts[..], sizes, keys, owner, left, unmerged, width, numBuckets)
      decreases left, unmerged
    {
      if
      case left != {} =>
        var i :| i in left;
        var t, bucket := owner[i], BucketOf(keys[i], width);
        CountStep(before, localBucketCounts[..], sizes, keys, owner, left, unmerged, width, numBuckets, i);
        sizes := sizes[t := sizes[t][bucket := sizes[t][bucket] + 1]];
        left := left - {i};
      case exists t :: t in unmerged && forall i :: i in left ==> owner[i] != t =>
        var t :| t in unmerged && forall i :: i in left ==> owner[i] != t;
        sizes := MergeThread(localBucketCounts, sizes, t, numBuckets, before, keys, owner, left, unmerged, width);
        unmerged := unmerged - {t};
    }
    CountingEnds(before, localBucketCounts[..], sizes, keys, owner, width, numBuckets);
  }

  // ---------- the reduction ----------

  function PointwiseSum(a: seq<int>, b: seq<int>): (s: seq<int>)
    requires |a| == |b|
    ensures |s| == |a|
  {
    seq(|a|, i requires 0 <= i < |a| => a[i] + b[i])
  }

  /** sum_op_int: pointwise sums, also when the destination is one of the operands. */
  method SumOpInt(left: array<int>, right: array<int>, dst: array<int>, n: nat)
    requires n <= left.Length && n <= right.Length && n <= dst.Length
    modifies dst
    ensures dst[..n] == PointwiseSum(old(left[..n]), old(right[..n]))
    ensures dst[n..] == old(dst[n..])
  {
    for i := 0 to n
      invariant forall j :: 0 <= j < i ==> dst[j] == old(left[j]) + old(right[j])
      invariant forall j :: i <= j < dst.Length ==> dst[j] == old(dst[j])
      invariant left != dst ==> left[..] == old(left[..])
      invariant right != dst ==> right[..] == old(right[..])
    {
      dst[i] := left[i] + right[i];
    }
  }

  /** The shape of a reduction: which partial results are combined with which. */
  datatype Reduction = Local(rank: nat) | Combine(left: Reduction, right: Reduction)

  function Ranks(tree: Reduction): multiset<nat>
  {
    match tree
    case Local(r) => multiset{r}
    case Combine(l, r) => Ranks(l) + Ranks(r)
  }

  /** Every rank's buffer takes part exactly once. */
  ghost predicate CoversRanks(tree: Reduction, ranks: nat)
  {
    forall r: nat :: Ranks(tree)[r] == if r < ranks then 1 else 0
  }

  /** A reduction that adds the ranks one by one. */
  function Chain(ranks: nat): Reduction
    requires ranks > 0
  {
    if ranks == 1 then Local(0) else Combine(Chain(ranks - 1), Local(ranks - 1))
  }

  /** So there is a reduction over any number of ranks. */
  lemma {:induction false} ChainCovers(ranks: nat)
    requires ranks > 0
    ensures CoversRanks(Chain(ranks), ranks)
  {
    if ranks > 1 {
      ChainCovers(ranks - 1);
    }
  }

  function Reduced(tree: Reduction, buffers: seq<seq<int>>, n: nat): (sum: seq<int>)
    requires forall r :: r in Ranks(tree) ==> r < |buffers| && |buffers[r]| == n
    ensures |sum| == n
  {
    match tree
    case Local(r) => buffers[r]
    case Combine(l, r) =>
      assert forall q :: q in Ranks(l) || q in Ranks(r) ==> q in Ranks(tree);
      PointwiseSum(Reduced(l, buffers, n), Reduced(r, buffers, n))
  }

  /** Sums values[r] as often as r occurs. */
  function Weighted(values: seq<int>, ranks: multiset<nat>): int
  {
    if values == [] then 0
    else Weighted(values[..|values| - 1], ranks) + ranks[|values| - 1] * values[|values| - 1]
  }

  lemma {:induction false} WeightedAdd(values: seq<int>, a: multiset<nat>, b: multiset<nat>)
    ensures Weighted(values, a + b) == Weighted(values, a) + Weighted(values, b)
  {
    if values != [] {
      WeightedAdd(values[..|values| - 1], a, b);
    }
  }

  lemma {:induction false} WeightedOne(values: seq<int>, r: nat)
    ensures Weighted(values, multiset{r}) == if r < |values| then values[r] else 0
  {
    if values != [] {
      WeightedOne(values[..|values| - 1], r);
    }
  }

  lemma {:induction false} WeightedOnce(values: seq<int>, ranks: multiset<nat>)
    requires forall r :: 0 <= r < |values| ==> ranks[r] == 1
    ensures Weighted(values, ranks) == Sum(values)
  {
    if values != [] {
      WeightedOnce(values[..|values| - 1], ranks);
    }
  }

  function Slot(buffers: seq<seq<int>>, i: nat): (values: seq<int>)
    requires forall r :: 0 <= r < |buffers| ==> i < |buffers[r]|
    ensures |values| == |buffers|
  {
    seq(|buffers|, r requires 0 <= r < |buffers| => buffers[r][i])
  }

  lemma {:induction false} ReducedSlot(tree: Reduction, buffers: seq<seq<int>>, n: nat, i: nat)
    requires forall r :: 0 <= r < |buffers| ==> |buffers[r]| == n
    requires (forall r :: r in Ranks(tree) ==> r < |buffers|) && i < n
    ensures Reduced(tree, buffers, n)[i] == Weighted(Slot(buffers, i), Ranks(tree))
  {
    match tree
    case Local(r) =>
      assert r in Ranks(tree);
      WeightedOne(Slot(buffers, i), r);
    case Combine(l, r) =>
      assert forall q :: q in Ranks(l) || q in Ranks(r) ==> q in Ranks(tree);
      ReducedSlot(l, buffers, n, i);
      ReducedSlot(r, buffers, n, i);
      WeightedAdd(Slot(buffers, i), Ranks(l), Ranks(r));
  }

  /** However the partial sums are combined, a slot ends up with the sum over all ranks. */
  lemma ReductionIsSum(tree: Reduction, buffers: seq<seq<int>>, n: nat, i: nat)
    requires forall r :: 0 <= r < |buffers| ==> |buffers[r]| == n
    requires CoversRanks(tree, |buffers|) && i < n
    ensures Reduced(tree, buffers, n)[i] == Sum(Slot(buffers, i))
  {
    ReducedSlot(tree, buffers, n, i);
    WeightedOnce(Slot(buffers, i), Ranks(tree));
  }
}
