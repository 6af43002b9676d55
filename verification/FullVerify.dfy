/**
 full_verify: expanding the histogram into the key array, and the check against the neighbour,
 which can meet a stale key of a rank without keys.
 */
module FullVerify {
  import opened Histograms
  import opened BucketPlan
  import opened IdleRanks
  import opened AmProtocol
  import opened AmSafety
  import opened IntegerSort

  /** The key array of a rank before the call, and the keys that the expansion writes over its front. */
  datatype Snapshot = Snapshot(before: seq<int>, sorted: seq<int>) {
    predicate HasRoom()
    {
      0 < |before| && |sorted| <= |before|
    }

    /** The key array after the expansion: behind the sorted keys the old ones remain. */
    function KeyArray(): (keys: seq<int>)
      requires |sorted| <= |before|
      ensures |keys| == |before|
    {
      sorted + before[|sorted|..]
    }
  }

  // ---------- full_verify on one rank ----------

  /** The first idx slots hold the expansion of the keys below `key`; the other slots are as they were. */
  ghost predicate ExpandedTo(out: seq<int>, before: seq<int>, h: multiset<int>, minKey: int, key: int, idx: nat)
  {
    && idx == CountRange(h, minKey, key) <= |out| == |before|
    && out[..idx] == Expand(h, minKey, key) && out[idx..] == before[idx..]
  }

  /** One more key, written as often as it was counted. */
  lemma ExpandOneKey(out: seq<int>, out': seq<int>, before: seq<int>, h: multiset<int>, minKey: int, key: int, idx: nat)
    requires minKey <= key && ExpandedTo(out, before, h, minKey, key, idx)
    requires idx + h[key] <= |out| == |out'|
    requires out'[..idx + h[key]] == out[..idx] + Repeat(key, h[key]) && out'[idx + h[key]..] == out[idx + h[key]..]
    ensures ExpandedTo(out', before, h, minKey, key + 1, idx + h[key])
  {
    assert out[idx + h[key]..] == out[idx..][h[key]..];
  }

  lemma ExpandedIsSnapshot(out: seq<int>, before: seq<int>, h: multiset<int>, minKey: int, key: int, idx: nat)
    requires ExpandedTo(out, before, h, minKey, key, idx)
    ensures out == Snapshot(before, Expand(h, minKey, key)).KeyArray()
  {
    assert out == out[..idx] + out[idx..];
  }

  /** Writes `count` copies of a key from position idx on. */
  method WriteKey(key: int, count: nat, idx: nat, keyArray: array<int>) returns (next: nat)
    requires idx + count <= keyArray.Length
    modifies keyArray
    ensures next == idx + count
    ensures keyArray[..][..next] == old(keyArray[..])[..idx] + Repeat(key, count)
    ensures keyArray[..][next..] == old(keyArray[..])[next..]
  {
    next := idx;
    for c := 0 to count
      invariant next == idx + c
      invariant keyArray[..][..next] == old(keyArray[..])[..idx] + Repeat(key, c)
      invariant keyArray[..][next..] == old(keyArray[..])[next..]
    {
      ghost var before := keyArray[..];
      keyArray[next] := key;
      next := next + 1;
      assert keyArray[..][..next] == before[..next - 1] + [key];
    }
  }

  /**
   Writes every key of the rank's table as often as it was counted, in key order. The rest of
   the key array keeps its stale keys.
   */
  method ExpandHistogram(frequency: array<int>, minKey: int, maxKey: int, keyArray: array<int>, ghost h: multiset<int>)
    returns (idx: nat)
    requires frequency != keyArray && minKey <= maxKey + 1 && IsFrequencyTable(frequency[..], h, minKey, maxKey)
    requires CountRange(h, minKey, maxKey + 1) <= keyArray.Length
    modifies keyArray
    ensures idx == CountRange(h, minKey, maxKey + 1)
    ensures keyArray[..] == Expand(h, minKey, maxKey + 1) + old(keyArray[..])[idx..]
    ensures keyArray[..] == Snapshot(old(keyArray[..]), Expand(h, minKey, maxKey + 1)).KeyArray()
  {
    idx := 0;
    var key := minKey;
    while key <= maxKey
      invariant minKey <= key <= maxKey + 1
      invariant ExpandedTo(keyArray[..], old(keyArray[..]), h, minKey, key, idx)
    {
      ghost var out := keyArray[..];
      BlocksInOrder(h, minKey, key + 1, maxKey + 1);
      idx := WriteKey(key, frequency[key - minKey], idx, keyArray);
      ExpandOneKey(out, keyArray[..], old(keyArray[..]), h, minKey, key, CountRange(h, minKey, key));
      key := key + 1;
    }
    ExpandedIsSnapshot(keyArray[..], old(keyArray[..]), h, minKey, maxKey + 1, idx);
  }

  /** The positions below n where a key is smaller than its predecessor. */
  function Descents(keys: seq<int>, n: nat): nat
    requires n <= |keys|
  {
    if n < 2 then 0 else Descents(keys, n - 1) + if keys[n - 2] > keys[n - 1] then 1 else 0
  }

  /** The key at position i is smaller than the key before it. */
  predicate IsDescent(keys: seq<int>, i: int)
    requires 0 < i < |keys|
  {
    keys[i - 1] > keys[i]
  }

  lemma {:induction false} DescentsAreCounted(keys: seq<int>, n: nat)
    requires n <= |keys|
    ensures Descents(keys, n) == |set i | 0 < i < n && IsDescent(keys, i)|
  {
    var below := set i | 0 < i < n && IsDescent(keys, i);
    if n < 2 {
      assert below == {};
    } else {
      DescentsAreCounted(keys, n - 1);
      var before := set i | 0 < i < n - 1 && IsDescent(keys, i);
      assert below == if keys[n - 2] > keys[n - 1] then before + {n - 1} else before;
    }
  }

  lemma {:induction false} NoDescents(keys: seq<int>, n: nat)
    requires n <= |keys|
    ensures Descents(keys, n) == 0 <==> Sorted(keys[..n])
  {
    if n >= 2 {
      NoDescents(keys, n - 1);
      assert keys[..n] == keys[..n - 1] + [keys[n - 1]];
      if Descents(keys, n) == 0 {
        var front := keys[..n - 1];
        assert forall i :: 0 <= i < n - 1 ==> front[i] <= front[n - 2];
      } else if keys[n - 2] > keys[n - 1] {
        assert keys[..n][n - 2] > keys[..n][n - 1];
      } else {
        var i, j :| 0 <= i < j < n - 1 && keys[..n - 1][i] > keys[..n - 1][j];
        assert keys[..n][i] > keys[..n][j];
      }
    }
  }

  /** The rank's check: its keys are in order and not below the neighbour's greatest key. */
  ghost predicate InOrder(keyArray: seq<int>, total: nat, myRank: nat, previous: int)
    requires total <= |keyArray|
  {
    Sorted(keyArray[..total]) && (myRank > 0 && total > 0 ==> previous <= keyArray[0])
  }

  /** The checks of full_verify after the exchange with the neighbours. */
  method CountOutOfOrder(keyArray: array<int>, total: nat, myRank: nat, previous: int) returns (outOfOrder: nat)
    requires total <= keyArray.Length
    ensures outOfOrder == |set i | 0 < i < total && IsDescent(keyArray[..], i)|
                          + if myRank > 0 && total > 0 && previous > keyArray[0] then 1 else 0
    ensures outOfOrder == 0 <==> InOrder(keyArray[..], total, myRank, previous)
  {
    outOfOrder := 0;
    if myRank > 0 && total > 0 && previous > keyArray[0] {
      outOfOrder := outOfOrder + 1;
    }
    var i := 1;
    while i < total
      invariant 1 <= i && (i <= total || total < 1)
      invariant outOfOrder == Descents(keyArray[..], if i <= total then i else total)
                              + if myRank > 0 && total > 0 && previous > keyArray[0] then 1 else 0
    {
      if keyArray[i - 1] > keyArray[i] {
        outOfOrder := outOfOrder + 1;
      }
      i := i + 1;
    }
    NoDescents(keyArray[..], total);
    DescentsAreCounted(keyArray[..], total);
  }

  // ---------- full_verify on all ranks ----------

  ghost predicate Snapshots(ranks: seq<Snapshot>)
  {
    forall r :: 0 <= r < |ranks| ==> ranks[r].HasRoom()
  }

  /** What a rank sends to its successor: its last key, or with no keys whatever is in the first slot. */
  function SentKey(rank: Snapshot): int
    requires rank.HasRoom()
  {
    rank.KeyArray()[if |rank.sorted| == 0 then 0 else |rank.sorted| - 1]
  }

  /** The outcome of the checks of rank r, after the exchange with its neighbours. */
  ghost predicate FullCheckPasses(ranks: seq<Snapshot>, r: nat)
    requires Snapshots(ranks) && r < |ranks|
  {
    InOrder(ranks[r].KeyArray(), |ranks[r].sorted|, r, if r > 0 then SentKey(ranks[r - 1]) else 0)
  }

  /** The ranks' keys are in order, and no rank has a key above a key of a later rank. */
  ghost predicate RanksInOrder(ranks: seq<Snapshot>)
  {
    && (forall r :: 0 <= r < |ranks| ==> Sorted(ranks[r].sorted))
    && (forall r, q, i, j :: 0 <= r < q < |ranks| && 0 <= i < |ranks[r].sorted| && 0 <= j < |ranks[q].sorted| ==>
          ranks[r].sorted[i] <= ranks[q].sorted[j])
  }

  /** If rank r has keys and its predecessor has none, the predecessor's old first key is not above them. */
  ghost predicate StaleKeyHarmless(ranks: seq<Snapshot>, r: nat)
    requires Snapshots(ranks) && 0 < r < |ranks|
  {
    ranks[r].sorted != [] && ranks[r - 1].sorted == [] ==> ranks[r - 1].before[0] <= ranks[r].sorted[0]
  }

  /**
   On correctly sorted ranks a rank's check passes exactly if it has no keys, or its predecessor
   has keys, or the predecessor's key array began, before the call, with a key that is not above
   the rank's first key.
   */
  lemma FullCheckCondition(ranks: seq<Snapshot>, r: nat)
    requires Snapshots(ranks) && RanksInOrder(ranks) && r < |ranks|
    ensures FullCheckPasses(ranks, r) <==> r == 0 || StaleKeyHarmless(ranks, r)
  {
    var rank := ranks[r];
    assert rank.KeyArray()[..|rank.sorted|] == rank.sorted;
    if r > 0 && rank.sorted != [] && ranks[r - 1].sorted != [] {
      assert ranks[r - 1].sorted[|ranks[r - 1].sorted| - 1] <= rank.sorted[0];
    }
  }

  /** With no empty rank before a nonempty one, correctly sorted ranks all pass. */
  lemma FullChecksPass(ranks: seq<Snapshot>)
    requires Snapshots(ranks) && RanksInOrder(ranks)
    requires forall r :: 0 < r < |ranks| && ranks[r].sorted != [] ==> ranks[r - 1].sorted != []
    ensures forall r :: 0 <= r < |ranks| ==> FullCheckPasses(ranks, r)
  {
    forall r | 0 <= r < |ranks| ensures FullCheckPasses(ranks, r) {
      FullCheckCondition(ranks, r);
    }
  }

  // ---------- what the checks detect ----------

  /** A rank with sorted keys sends one of them, and none of them is above it. */
  lemma SentKeyIsGreatest(rank: Snapshot, i: nat)
    requires rank.HasRoom() && Sorted(rank.sorted) && i < |rank.sorted|
    ensures SentKey(rank) in rank.sorted && rank.sorted[i] <= SentKey(rank)
  {
    assert rank.KeyArray()[|rank.sorted| - 1] == rank.sorted[|rank.sorted| - 1];
  }

  /**
   For whatever keys and key arrays: a rank's check passes exactly if its keys are sorted and, when
   it has keys and a predecessor, the predecessor's last key is not above its first one; a
   predecessor without keys counts with the old first entry of its key array.
   */
  lemma FullCheckIsExact(ranks: seq<Snapshot>, r: nat)
    requires Snapshots(ranks) && r < |ranks|
    ensures FullCheckPasses(ranks, r)
       <==> Sorted(ranks[r].sorted)
            && (r > 0 && ranks[r].sorted != [] ==>
                  if ranks[r - 1].sorted == [] then ranks[r - 1].before[0] <= ranks[r].sorted[0]
                  else ranks[r - 1].sorted[|ranks[r - 1].sorted| - 1] <= ranks[r].sorted[0])
  {
    assert ranks[r].KeyArray()[..|ranks[r].sorted|] == ranks[r].sorted;
  }

  ghost predicate AllPass(ranks: seq<Snapshot>)
    requires Snapshots(ranks)
  {
    forall r :: 0 <= r < |ranks| ==> FullCheckPasses(ranks, r)
  }

  /** Ranks r and q have keys, and there are ranks between them, none of which has. */
  ghost predicate Gap(ranks: seq<Snapshot>, r: nat, q: nat)
    requires r < q < |ranks|
  {
    && r + 1 < q && ranks[r].sorted != [] && ranks[q].sorted != []
    && forall e :: r < e < q ==> ranks[e].sorted == []
  }

  /** Across ranks without keys, which the checks do not look through, the order holds. */
  ghost predicate GapsInOrder(ranks: seq<Snapshot>)
  {
    forall r, q :: 0 <= r < q < |ranks| && Gap(ranks, r, q) ==>
      ranks[r].sorted[|ranks[r].sorted| - 1] <= ranks[q].sorted[0]
  }

  /** The last rank below q with keys. */
  lemma {:induction false} NearestWithKeys(ranks: seq<Snapshot>, r: nat, q: nat) returns (n: nat)
    requires r < q < |ranks| && ranks[r].sorted != []
    ensures r <= n < q && ranks[n].sorted != [] && forall e :: n < e < q ==> ranks[e].sorted == []
    decreases q
  {
    if ranks[q - 1].sorted != [] {
      n := q - 1;
    } else {
      n := NearestWithKeys(ranks, r, q - 1);
    }
  }

  /** The last key of a rank is not above the first key of any later rank. */
  lemma {:induction false} LastBelowFirst(ranks: seq<Snapshot>, r: nat, q: nat)
    requires Snapshots(ranks) && AllPass(ranks) && GapsInOrder(ranks)
    requires r < q < |ranks| && ranks[r].sorted != [] && ranks[q].sorted != []
    ensures ranks[r].sorted[|ranks[r].sorted| - 1] <= ranks[q].sorted[0]
    decreases q
  {
    var n := NearestWithKeys(ranks, r, q);
    FullCheckIsExact(ranks, q);
    FullCheckIsExact(ranks, n);
    assert n + 1 < q ==> Gap(ranks, n, q);
    if r < n {
      LastBelowFirst(ranks, r, n);
    }
  }

  /**
   What passing means: the ranks' keys are in order exactly if they are across the ranks without
   keys. Nothing else can be wrong when every rank has passed.
   */
  lemma PassingIsSound(ranks: seq<Snapshot>)
    requires Snapshots(ranks) && AllPass(ranks)
    ensures RanksInOrder(ranks) <==> GapsInOrder(ranks)
  {
    forall r | 0 <= r < |ranks| ensures Sorted(ranks[r].sorted) {
      FullCheckIsExact(ranks, r);
    }
    if GapsInOrder(ranks) {
      forall r, q, i, j | 0 <= r < q < |ranks| && 0 <= i < |ranks[r].sorted| && 0 <= j < |ranks[q].sorted|
        ensures ranks[r].sorted[i] <= ranks[q].sorted[j]
      {
        LastBelowFirst(ranks, r, q);
      }
    }
  }

  /** The keys of the ranks, one after the other. */
  function JoinedKeys(ranks: seq<Snapshot>): seq<int>
  {
    if ranks == [] then [] else JoinedKeys(ranks[..|ranks| - 1]) + ranks[|ranks| - 1].sorted
  }

  lemma {:induction false} KeyOfSomeRank(ranks: seq<Snapshot>, i: nat) returns (r: nat, j: nat)
    requires i < |JoinedKeys(ranks)|
    ensures r < |ranks| && j < |ranks[r].sorted| && ranks[r].sorted[j] == JoinedKeys(ranks)[i]
  {
    var front := ranks[..|ranks| - 1];
    if i < |JoinedKeys(front)| {
      r, j := KeyOfSomeRank(front, i);
    } else {
      r, j := |ranks| - 1, i - |JoinedKeys(front)|;
    }
  }

  lemma {:induction false} OrderJoins(ranks: seq<Snapshot>)
    requires RanksInOrder(ranks)
    ensures Sorted(JoinedKeys(ranks))
  {
    if ranks != [] {
      var front, joined := ranks[..|ranks| - 1], JoinedKeys(ranks);
      OrderJoins(front);
      forall i, j | 0 <= i < j < |joined| ensures joined[i] <= joined[j] {
        if i < |JoinedKeys(front)| <= j {
          var r, k := KeyOfSomeRank(front, i);
          assert ranks[r].sorted[k] <= ranks[|ranks| - 1].sorted[j - |JoinedKeys(front)|];
        }
      }
    }
  }

  /** With keys on every rank the checks are sound: when all pass, the keys of all ranks are sorted. */
  lemma PassingMeansSorted(ranks: seq<Snapshot>)
    requires Snapshots(ranks) && AllPass(ranks) && forall r :: 0 <= r < |ranks| ==> ranks[r].sorted != []
    ensures RanksInOrder(ranks) && Sorted(JoinedKeys(ranks))
  {
    assert GapsInOrder(ranks) by {
      forall r, q | 0 <= r < q < |ranks| ensures !Gap(ranks, r, q) {
        assert r + 1 < q ==> ranks[r + 1].sorted != [];
      }
    }
    PassingIsSound(ranks);
    OrderJoins(ranks);
  }

  /** Behind a rank without keys a disorder goes unnoticed: 9 before 5, and all four checks pass. */
  lemma DisorderBehindEmptyRank(ranks: seq<Snapshot>)
    requires ranks == [Snapshot([9], [9]), Snapshot([0], []), Snapshot([5], [5]), Snapshot([7], [7])]
    ensures Snapshots(ranks) && AllPass(ranks) && !RanksInOrder(ranks)
  {
    forall r | 0 <= r < |ranks| ensures FullCheckPasses(ranks, r) {
      FullCheckIsExact(ranks, r);
    }
    assert ranks[0].sorted[0] > ranks[2].sorted[0];
  }

  // ---------- full_verify after a sort phase ----------

  /** Every rank has expanded what phase p delivered to it over its key array `inputs[d]`. */
  ghost predicate ExpandedBy(c: Config, p: nat, plan: SortPlan, inputs: seq<seq<int>>, ranks: seq<Snapshot>)
    requires IsSortPhase(c, p, plan)
  {
    && |ranks| == |inputs| == c.rankCount && Snapshots(ranks)
    && forall d :: 0 <= d < c.rankCount ==> ranks[d] == Snapshot(inputs[d], LocalKeys(plan, Total(c, p, d), d))
  }

  lemma LaterIntervalIsAbove(c: Config, p: nat, plan: SortPlan, r: nat, q: nat, x: int, y: int)
    requires IsSortPhase(c, p, plan) && r < q < c.rankCount
    requires plan.MinKey(r) <= x <= plan.MaxKey(r) && plan.MinKey(q) <= y <= plan.MaxKey(q)
    ensures x < y
  {
    if plan.used <= q {
      EmptyInterval(plan, q, y);
    } else {
      IntervalsBefore(plan.counts, plan.average, plan.first, plan.last, plan.used);
      MulOrder(plan.last[r], plan.first[q], plan.width);
    }
  }

  lemma KeysInInterval(plan: SortPlan, h: multiset<Key>, d: nat)
    requires d < |plan.first| && d < |plan.last|
    ensures Sorted(LocalKeys(plan, h, d))
    ensures forall i :: 0 <= i < |LocalKeys(plan, h, d)| ==>
              plan.MinKey(d) <= LocalKeys(plan, h, d)[i] <= plan.MaxKey(d)
  {
    ExpandIsSorted(h, plan.MinKey(d), plan.MaxKey(d) + 1);
  }

  /** The expansions of a delivered phase are in order over all ranks. */
  lemma ExpandedRanksAreInOrder(c: Config, p: nat, plan: SortPlan, inputs: seq<seq<int>>, ranks: seq<Snapshot>)
    requires IsSortPhase(c, p, plan) && ExpandedBy(c, p, plan, inputs, ranks)
    ensures RanksInOrder(ranks)
  {
    forall d | 0 <= d < c.rankCount
      ensures Sorted(ranks[d].sorted)
      ensures forall i :: 0 <= i < |ranks[d].sorted| ==> plan.MinKey(d) <= ranks[d].sorted[i] <= plan.MaxKey(d)
    {
      KeysInInterval(plan, Total(c, p, d), d);
    }
    forall r, q, i, j | 0 <= r < q < |ranks| && 0 <= i < |ranks[r].sorted| && 0 <= j < |ranks[q].sorted|
      ensures ranks[r].sorted[i] <= ranks[q].sorted[j]
    {
      LaterIntervalIsAbove(c, p, plan, r, q, ranks[r].sorted[i], ranks[q].sorted[j]);
    }
  }

  lemma DeliveredInInterval(c: Config, p: nat, plan: SortPlan, d: nat, k: Key)
    requires IsSortPhase(c, p, plan) && d < c.rankCount && k in Total(c, p, d)
    ensures plan.MinKey(d) <= k <= plan.MaxKey(d)
  {
    ReceivesItsInterval(c, p, plan, d, k);
  }

  ghost predicate InInterval(plan: SortPlan, h: multiset<Key>, d: nat)
    requires d < |plan.first| && d < |plan.last|
  {
    forall k :: k in h ==> plan.MinKey(d) <= k <= plan.MaxKey(d)
  }

  lemma AllDeliveredInInterval(c: Config, p: nat, plan: SortPlan, d: nat)
    requires IsSortPhase(c, p, plan) && d < c.rankCount
    ensures InInterval(plan, Total(c, p, d), d)
  {
    forall k | k in Total(c, p, d) ensures plan.MinKey(d) <= k <= plan.MaxKey(d) {
      DeliveredInInterval(c, p, plan, d, k);
    }
  }

  lemma ExpandInterval(plan: SortPlan, h: multiset<Key>, d: nat)
    requires d < |plan.first| && d < |plan.last| && InInterval(plan, h, d)
    ensures multiset(LocalKeys(plan, h, d)) == h
  {
    ExpandIsPermutation(h, plan.MinKey(d), plan.MaxKey(d) + 1);
  }

  /** The sorted keys of a rank are a permutation of what the phase delivered to it. */
  lemma LocalKeysArePermutation(c: Config, p: nat, plan: SortPlan, d: nat)
    requires IsSortPhase(c, p, plan) && d < c.rankCount
    ensures multiset(LocalKeys(plan, Total(c, p, d), d)) == Total(c, p, d)
  {
    AllDeliveredInInterval(c, p, plan, d);
    ExpandInterval(plan, Total(c, p, d), d);
  }

  /**
   Known before full_verify is called: either rank r - 1 has been delivered keys, or its key array
   begins with a key that is not above any key delivered to rank r.
   */
  ghost predicate StaleKeyFits(c: Config, p: nat, inputs: seq<seq<int>>, r: nat)
    requires 0 < p <= |c.phases| && |c.phases[p - 1].work| == |c.home|
    requires 0 < r <= |inputs| && 0 < |inputs[r - 1]|
  {
    Total(c, p, r - 1) == multiset{} ==> forall k :: k in Total(c, p, r) ==> inputs[r - 1][0] <= k
  }

  lemma SmallestFirst(sorted: seq<int>, bound: int)
    requires Sorted(sorted) && sorted != []
    ensures bound <= sorted[0] <==> forall k :: k in multiset(sorted) ==> bound <= k
  {
    assert sorted[0] in multiset(sorted);
    forall k | k in multiset(sorted) ensures sorted[0] <= k {
      assert k in sorted;
    }
  }

  lemma StaleKeyBeforeTheCall(c: Config, p: nat, plan: SortPlan, inputs: seq<seq<int>>, ranks: seq<Snapshot>, r: nat)
    requires IsSortPhase(c, p, plan) && ExpandedBy(c, p, plan, inputs, ranks) && 0 < r < c.rankCount
    ensures 0 < |inputs[r - 1]|
    ensures StaleKeyHarmless(ranks, r) <==> StaleKeyFits(c, p, inputs, r)
  {
    assert ranks[r - 1].HasRoom();
    LocalKeysArePermutation(c, p, plan, r - 1);
    LocalKeysArePermutation(c, p, plan, r);
    KeysInInterval(plan, Total(c, p, r), r);
    assert ranks[r - 1].sorted == [] <==> multiset(ranks[r - 1].sorted) == multiset{} by {
      assert ranks[r - 1].sorted != [] ==> ranks[r - 1].sorted[0] in multiset(ranks[r - 1].sorted);
    }
    if ranks[r].sorted != [] {
      SmallestFirst(ranks[r].sorted, inputs[r - 1][0]);
    }
  }

  /**
   After a sort phase the check of rank r passes exactly if r is the first rank or the condition
   above holds; everything in it is known before the call.
   */
  lemma FullCheckAfterPhase(c: Config, p: nat, plan: SortPlan, inputs: seq<seq<int>>, ranks: seq<Snapshot>, r: nat)
    requires IsSortPhase(c, p, plan) && ExpandedBy(c, p, plan, inputs, ranks) && r < c.rankCount
    ensures r > 0 ==> 0 < |inputs[r - 1]|
    ensures FullCheckPasses(ranks, r) <==> r == 0 || StaleKeyFits(c, p, inputs, r)
  {
    ExpandedRanksAreInOrder(c, p, plan, inputs, ranks);
    FullCheckCondition(ranks, r);
    if r > 0 {
      StaleKeyBeforeTheCall(c, p, plan, inputs, ranks, r);
    }
  }

  /** A rank of a sort phase is delivered keys exactly if the buckets of its interval count some. */
  lemma DeliveredByPlan(c: Config, p: nat, plan: SortPlan, d: nat)
    requires IsSortPhase(c, p, plan) && d < c.rankCount
    ensures |Total(c, p, d)| == if d < plan.used then IntervalKeys(plan.counts, plan.first[d], plan.last[d]) else 0
  {
    ExpectedIsReceived(c, p, plan, d);
    PlanCountsOwnedKeys(plan.counts, plan.average, c.rankCount, plan.toRank, plan.first, plan.last, plan.used, d);
  }

  lemma SortPhaseCounts(c: Config, p: nat, plan: SortPlan)
    requires IsSortPhase(c, p, plan)
    ensures Counts(plan.counts)
  {
  }

  /** Whether a rank is delivered any key is decided by the counts before anybody plans. */
  lemma DeliveredByCounts(c: Config, p: nat, plan: SortPlan, d: nat)
    requires IsSortPhase(c, p, plan) && d < c.rankCount
    ensures |Total(c, p, d)| > 0 <==> Busy(plan.counts, plan.average, d)
  {
    DeliveredByPlan(c, p, plan, d);
    SortPhaseCounts(c, p, plan);
    RankHasKeys(plan.counts, plan.average, c.rankCount, plan.first, plan.last, plan.used, d);
  }

  /** With small buckets a rank that is delivered keys follows one that is. */
  lemma SmallBucketsDeliverInOrder(c: Config, p: nat, plan: SortPlan, r: nat)
    requires IsSortPhase(c, p, plan) && 0 < r < c.rankCount && plan.average > 0
    requires forall b :: 0 <= b < |plan.counts| ==> plan.counts[b] <= plan.average
    ensures |Total(c, p, r)| == 0 || |Total(c, p, r - 1)| > 0
  {
    DeliveredByPlan(c, p, plan, r);
    DeliveredByPlan(c, p, plan, r - 1);
    if r < plan.used {
      SortPhaseCounts(c, p, plan);
      SmallBucketsFillUsedRanks(plan.counts, plan.average, c.rankCount, plan.first, plan.last, plan.used, r - 1);
    }
  }

  /**
   When no bucket counts more keys than a rank's average load, every check passes, whatever the
   key arrays held: the ranks with keys come first.
   */
  lemma SmallBucketsPass(c: Config, p: nat, plan: SortPlan, inputs: seq<seq<int>>, ranks: seq<Snapshot>, r: nat)
    requires IsSortPhase(c, p, plan) && ExpandedBy(c, p, plan, inputs, ranks) && r < c.rankCount && plan.average > 0
    requires forall b :: 0 <= b < |plan.counts| ==> plan.counts[b] <= plan.average
    ensures FullCheckPasses(ranks, r)
  {
    FullCheckAfterPhase(c, p, plan, inputs, ranks, r);
    if 0 < r {
      SmallBucketsDeliverInOrder(c, p, plan, r);
    }
  }
}
