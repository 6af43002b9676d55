/**
 One small sort, worked out: eight keys below 8 in four buckets of two keys, two keys on each of
 four ranks. Its plan leaves rank 2 without keys, and both surprises of the verification show.
 */
module SmallSort {
  import opened Collections
  import opened Histograms
  import opened BucketPlan
  import opened AmProtocol
  import opened AmSafety
  import opened IntegerSort
  import opened FullVerify
  import opened Verification

  /** One worker per rank, one device, any batch size, with or without loopback. */
  function Program(capacity: nat, loopback: bool): Config
  {
    Config(4, [0, 1, 2, 3], [0, 0, 0, 0], capacity, loopback,
           [Phase([[0, 1], [2, 3], [7, 0], [3, 6]], (k: Key) => if k < 0 then 0 else k / 2, [3, 3, 0, 2])])
  }

  ghost predicate SmallPhase(phase: Phase)
  {
    && phase.expected == [3, 3, 0, 2] && |phase.work| == 4
    && phase.work[0] == [0, 1] && phase.work[1] == [2, 3] && phase.work[2] == [7, 0] && phase.work[3] == [3, 6]
    && forall k: nat :: k < 8 ==> phase.route(k) == k / 2
  }

  ghost predicate SmallProgram(c: Config)
  {
    && c.rankCount == |c.home| == |c.device| == 4 && c.capacity > 0 && |c.phases| == 1
    && (forall g :: 0 <= g < 4 ==> c.home[g] == g && c.device[g] == 0)
    && SmallPhase(PhaseOf(c, 1))
  }

  lemma ProgramIsSmall(capacity: nat, loopback: bool)
    requires capacity > 0
    ensures SmallProgram(Program(capacity, loopback))
  {
  }

  /** All keys of the program. */
  ghost predicate EightKeys(h: multiset<Key>)
  {
    && h[0] == 2 && h[1] == 1 && h[2] == 1 && h[3] == 2 && h[4] == 0 && h[5] == 0 && h[6] == 1 && h[7] == 1
    && forall k :: k in h ==> 0 <= k < 8
  }

  ghost predicate SmallPlan(plan: SortPlan)
  {
    && plan.counts == [3, 3, 0, 2] && plan.average == 2 && plan.width == 2 && plan.used == 4
    && plan.toRank == plan.first == plan.last == [0, 1, 2, 3]
  }

  lemma MSumOfFour(ms: seq<multiset<int>>)
    requires |ms| == 4
    ensures MSum(ms) == ms[0] + ms[1] + ms[2] + ms[3]
  {
    assert ms[..3][..2] == ms[..2] && ms[..2][..1] == [ms[0]];
    MSumOne(ms[0]);
    assert MSum(ms[..2]) == ms[0] + ms[1];
    assert MSum(ms[..3]) == ms[0] + ms[1] + ms[2];
  }

  /** Four workers, each with two keys. */
  lemma KeysOfPairs(c: Config, a: seq<Key>, b: seq<Key>)
    requires |c.phases| == 1 && |c.home| == |a| == |b| == 4 && |PhaseOf(c, 1).work| == 4
    requires forall g :: 0 <= g < 4 ==> PhaseOf(c, 1).work[g] == [a[g], b[g]]
    ensures AllKeys(c, 1)
         == multiset{a[0], b[0]} + multiset{a[1], b[1]} + multiset{a[2], b[2]} + multiset{a[3], b[3]}
  {
    var keys := KeysByWorker(c, 1);
    forall g | 0 <= g < 4 ensures keys[g] == multiset{a[g], b[g]} {
      assert multiset([a[g], b[g]]) == multiset{a[g], b[g]};
    }
    MSumOfFour(keys);
  }

  lemma KeysOfProgram(c: Config)
    requires SmallProgram(c)
    ensures EightKeys(AllKeys(c, 1))
  {
    KeysOfPairs(c, [0, 2, 7, 3], [1, 3, 0, 6]);
  }

  lemma CountTwo(h: multiset<Key>, lo: int)
    ensures CountRange(h, lo, lo + 2) == h[lo] + h[lo + 1]
  {
    assert CountRange(h, lo, lo + 1) == h[lo];
  }

  /** The first two buckets overshoot the shares of ranks 0 and 1 so far that rank 2 closes on an empty bucket. */
  lemma PlanWithEmptyMiddleRank()
    ensures GreedyPlan([3, 3, 0, 2], 2, 4, [0, 1, 2, 3], [0, 1, 2, 3], 4)
  {
    var counts := [3, 3, 0, 2];
    assert counts[..0] == [];
    SumStep(counts, 0);
    SumStep(counts, 1);
    SumStep(counts, 2);
    SumStep(counts, 3);
    assert Share(1, 2) == 2 && Share(2, 2) == 4 && Share(3, 2) == 6 && Share(4, 2) == 8;
  }

  /** With all keys in one bucket only one rank gets any; the others form the tail. */
  lemma PlanWithIdleTail()
    ensures GreedyPlan([8], 2, 4, [0, 1, 1, 1], [0, 0, 0, 0], 1)
  {
    var counts := [8];
    assert counts[..0] == [];
    SumStep(counts, 0);
    assert Share(1, 2) == 2;
  }

  lemma KeyIsRouted(c: Config, plan: SortPlan, k: nat)
    requires SmallProgram(c) && SmallPlan(plan) && k < 8
    ensures Routed(c, 1, plan, k)
  {
  }

  lemma ProgramSorts(c: Config, plan: SortPlan)
    requires SmallProgram(c) && SmallPlan(plan)
    ensures IsSortPhase(c, 1, plan)
  {
    var all := AllKeys(c, 1);
    KeysOfProgram(c);
    PlanWithEmptyMiddleRank();
    forall b | 0 <= b < 4 ensures plan.counts[b] == CountRange(all, b * 2, (b + 1) * 2) {
      CountTwo(all, b * 2);
    }
    forall k: nat | k < 8 ensures Routed(c, 1, plan, k) {
      KeyIsRouted(c, plan, k);
    }
  }

  /** Rank d is delivered the keys of its only bucket. */
  lemma DeliveredCount(c: Config, plan: SortPlan, d: nat)
    requires SmallProgram(c) && SmallPlan(plan) && d < 4
    ensures IsSortPhase(c, 1, plan) && |Total(c, 1, d)| == plan.counts[d]
  {
    ProgramSorts(c, plan);
    DeliveredByPlan(c, 1, plan, d);
    SumStep(plan.counts, d);
  }

  /** Ranks expect what the plan counts, so this is a program of one phase that the protocol completes. */
  lemma IsSortProgram(c: Config, plan: SortPlan)
    requires SmallProgram(c) && SmallPlan(plan)
    ensures SortProgram(c, [plan])
  {
    ProgramSorts(c, plan);
    forall d | 0 <= d < c.rankCount ensures d in c.home {
      assert c.home[d] == d;
    }
    forall d, g | 0 <= d < c.rankCount && 0 <= g < |c.home| ensures ServedBy(c, d, c.device[g]) {
      assert c.home[d] == d && c.device[d] == c.device[g];
    }
    forall d | 0 <= d < 4 ensures Expects(c, [plan], 1, d) {
      DeliveredCount(c, plan, d);
      ExpectedIsReceived(c, 1, plan, d);
    }
  }

  // ---------- the check against the neighbour ----------

  /** Key arrays with the keys the ranks have counted, and one more slot: room for twice the average minus one. */
  ghost predicate KeysInArrays(c: Config, inputs: seq<seq<int>>)
    requires |c.phases| > 0
  {
    && |inputs| == |PhaseOf(c, 1).work| == 4
    && forall d :: 0 <= d < 4 ==> |inputs[d]| == 3 && PhaseOf(c, 1).work[d] == inputs[d][..2]
  }

  /** What the ranks write over their key arrays. */
  function SnapshotsOf(c: Config, plan: SortPlan, inputs: seq<seq<int>>): (ranks: seq<Snapshot>)
    requires 0 < |c.phases| && |c.phases[0].work| == |c.home|
    requires |inputs| <= |plan.first| && |inputs| <= |plan.last|
    ensures |ranks| == |inputs|
  {
    seq(|inputs|, d requires 0 <= d < |inputs| => Snapshot(inputs[d], LocalKeys(plan, Total(c, 1, d), d)))
  }

  lemma AtMostThree(plan: SortPlan, d: nat)
    requires SmallPlan(plan) && d < 4
    ensures plan.counts[d] <= 3
  {
  }

  lemma PermutationSize(keys: seq<int>, h: multiset<int>)
    requires multiset(keys) == h
    ensures |keys| == |h|
  {
  }

  lemma HasRoom(c: Config, plan: SortPlan, inputs: seq<seq<int>>, d: nat)
    requires SmallProgram(c) && SmallPlan(plan) && KeysInArrays(c, inputs) && d < 4
    ensures SnapshotsOf(c, plan, inputs)[d].HasRoom()
  {
    DeliveredCount(c, plan, d);
    LocalKeysArePermutation(c, 1, plan, d);
    PermutationSize(LocalKeys(plan, Total(c, 1, d), d), Total(c, 1, d));
    AtMostThree(plan, d);
  }

  lemma AllExpand(c: Config, plan: SortPlan, inputs: seq<seq<int>>)
    requires SmallProgram(c) && SmallPlan(plan) && KeysInArrays(c, inputs)
    ensures IsSortPhase(c, 1, plan) && ExpandedBy(c, 1, plan, inputs, SnapshotsOf(c, plan, inputs))
  {
    ProgramSorts(c, plan);
    forall d | 0 <= d < 4 ensures SnapshotsOf(c, plan, inputs)[d].HasRoom() {
      HasRoom(c, plan, inputs, d);
    }
  }

  lemma SixGoesToRankThree(c: Config, plan: SortPlan)
    requires SmallProgram(c) && SmallPlan(plan)
    ensures 6 in Total(c, 1, 3)
  {
    ProgramSorts(c, plan);
    KeysOfProgram(c);
    ReceivesItsInterval(c, 1, plan, 3, 6);
  }

  lemma StaleKeyDoesNotFit(c: Config, plan: SortPlan, inputs: seq<seq<int>>)
    requires SmallProgram(c) && SmallPlan(plan) && KeysInArrays(c, inputs)
    ensures !StaleKeyFits(c, 1, inputs, 3)
  {
    DeliveredCount(c, plan, 2);
    SixGoesToRankThree(c, plan);
    assert inputs[2][..2][0] == 7 by {
      assert PhaseOf(c, 1).work[2] == [7, 0];
    }
  }

  /**
   The phase leaves the ranks in order, and the check of rank 3 fails: rank 2 has no keys, and the
   first key of its array, the 7 that it had counted, is above the 6 that rank 3 begins with.
   */
  lemma StaleKeyRejectsSortedRanks(c: Config, plan: SortPlan, inputs: seq<seq<int>>)
    requires SmallProgram(c) && SmallPlan(plan) && KeysInArrays(c, inputs)
    ensures IsSortPhase(c, 1, plan) && ExpandedBy(c, 1, plan, inputs, SnapshotsOf(c, plan, inputs))
    ensures RanksInOrder(SnapshotsOf(c, plan, inputs)) && !FullCheckPasses(SnapshotsOf(c, plan, inputs), 3)
  {
    var ranks := SnapshotsOf(c, plan, inputs);
    AllExpand(c, plan, inputs);
    ExpandedRanksAreInOrder(c, 1, plan, inputs, ranks);
    FullCheckAfterPhase(c, 1, plan, inputs, ranks, 3);
    StaleKeyDoesNotFit(c, plan, inputs);
  }

  /** Whatever the iterations recorded, the verdict on these sorted ranks is a failure. */
  lemma SortedRanksAreRejected(c: Config, plan: SortPlan, inputs: seq<seq<int>>, records: seq<PhaseRecord>, tests: nat)
    requires SmallProgram(c) && SmallPlan(plan) && KeysInArrays(c, inputs)
    requires forall i :: 0 <= i < |records| ==> Recorded(c, records[i], tests)
    ensures IsSortPhase(c, 1, plan) && ExpandedBy(c, 1, plan, inputs, SnapshotsOf(c, plan, inputs))
    ensures Sum(FinalCounters(AllMarks(c, records, tests), FullMarks(SnapshotsOf(c, plan, inputs))))
         != |records| * tests + c.rankCount
  {
    AllExpand(c, plan, inputs);
    VerdictIsExact(c, records, tests, 1, plan, inputs, SnapshotsOf(c, plan, inputs));
    StaleKeyDoesNotFit(c, plan, inputs);
  }

  // ---------- the lookup of a rank ----------

  /** Rank 1 has the keys 2, 3, 3. */
  lemma RankOneIsRanked(c: Config, plan: SortPlan, cumulative: seq<int>)
    requires SmallProgram(c) && SmallPlan(plan) && cumulative == [1, 3]
    ensures IsSortPhase(c, 1, plan) && RankedBy(c, 1, plan, 1, cumulative)
  {
    ProgramSorts(c, plan);
    KeysOfProgram(c);
    ReceivesItsInterval(c, 1, plan, 1, 2);
    ReceivesItsInterval(c, 1, plan, 1, 3);
    CountTwo(Total(c, 1, 1), 2);
  }

  /**
   The first key of rank 1's interval: three keys are smaller, but unless the slot below the table
   is zero the check for that rank fails.
   */
  lemma FirstKeyOfIntervalMisranked(c: Config, plan: SortPlan, cumulative: seq<int>, below: int)
    requires SmallProgram(c) && SmallPlan(plan) && cumulative == [1, 3] && below != 0
    ensures IsSortPhase(c, 1, plan) && RankedBy(c, 1, plan, 1, cumulative) && CountRange(AllKeys(c, 1), 0, 2) == 3
    ensures CheckOn(plan, 1, cumulative, below, 2, 3) == Checked(3 + below, false)
  {
    RankOneIsRanked(c, plan, cumulative);
    KeysOfProgram(c);
    CountTwo(AllKeys(c, 1), 0);
    SmallerKeys(c, 1, plan, 1, 2);
    PartialCheckIsExact(c, 1, plan, 1, cumulative, below, 2, 3 + below);
  }
}
