/**
 The program of the small sort, run: its counting, reduction and plans on every rank, its tables and
 its verdict. Every maximal run of it sorts its keys, passes its partial check and is rejected.
 */
module SmallRun {
  import opened Collections
  import opened Histograms
  import opened BucketPlan
  import opened BucketCounting
  import opened AmProtocol
  import opened AmSafety
  import opened AmProgress
  import opened IntegerSort
  import opened SortPipeline
  import opened FullVerify
  import opened Verification
  import opened BenchmarkRun
  import opened SmallSort

  // ---------- counting, reducing and planning ----------

  /** Slots 0 .. 3 count the rank's keys by bucket; slot 4 takes the test key, the 7 on rank 2. */
  function CountersOf(c: Config, r: nat): (slots: seq<int>)
    requires |c.phases| > 0 && |c.phases[0].work| == |c.home| && r < c.rankCount
    ensures |slots| == 5
  {
    seq(5, b requires 0 <= b < 5 =>
      if b < 4 then InBucket(KeysByRank(c, 1)[r], 2, b) else if r == 2 then 7 else 0)
  }

  function PlanOfRank(expected: int): RankPlan
  {
    RankPlan([0, 1, 2, 3], [0, 1, 2, 3], [0, 1, 2, 3], 4, expected)
  }

  function SmallIteration(c: Config): Iteration
    requires c.rankCount > 0
    requires |c.phases| > 0 && |c.phases[0].work| == |c.home| && |c.phases[0].expected| == c.rankCount
  {
    Iteration(2, 4, seq(c.rankCount, r requires 0 <= r < c.rankCount => CountersOf(c, r)), 5,
              Chain(c.rankCount), 2,
              seq(c.rankCount, r requires 0 <= r < c.rankCount => PlanOfRank(c.phases[0].expected[r])))
  }

  lemma {:induction false} OneWorkerEach(work: seq<multiset<Key>>, home: seq<nat>, r: nat)
    requires |work| <= |home| && forall g :: 0 <= g < |work| ==> home[g] == g
    ensures HeldBy(work, home, r) == if r < |work| then work[r] else multiset{}
  {
    if work != [] {
      OneWorkerEach(work[..|work| - 1], home, r);
    }
  }

  /** Every rank holds the keys of its worker. */
  lemma RankHoldsWork(c: Config, r: nat)
    requires SmallProgram(c) && r < 4
    ensures KeysByRank(c, 1)[r] == multiset(PhaseOf(c, 1).work[r])
  {
    OneWorkerEach(KeysByWorker(c, 1), c.home, r);
  }

  lemma IsStaffed(c: Config)
    requires SmallProgram(c)
    ensures Staffed(c)
  {
    forall d | 0 <= d < c.rankCount ensures d in c.home {
      assert c.home[d] == d;
    }
    forall d, g | 0 <= d < c.rankCount && 0 <= g < |c.home| ensures ServedBy(c, d, c.device[g]) {
      assert c.home[d] == d && c.device[d] == c.device[g];
    }
  }

  lemma SmallCountsReduced(c: Config)
    requires SmallProgram(c)
    ensures CountsReduced(c, 1, SmallIteration(c))
  {
    KeysOfProgram(c);
    ChainCovers(c.rankCount);
  }

  lemma ReducedTo(c: Config, b: nat)
    requires SmallProgram(c) && b < 4
    ensures CountsReduced(c, 1, SmallIteration(c))
    ensures GlobalCounts(SmallIteration(c))[b] == AllKeys(c, 1)[b * 2] + AllKeys(c, 1)[b * 2 + 1]
  {
    var it := SmallIteration(c);
    SmallCountsReduced(c);
    ReducedCountsAreGlobal(c, 1, it.width, it.numBuckets, it.buffers, it.slots, it.tree, b);
    CountTwo(AllKeys(c, 1), b * 2);
  }

  lemma SmallGlobalCounts(c: Config)
    requires SmallProgram(c)
    ensures CountsReduced(c, 1, SmallIteration(c))
    ensures GlobalCounts(SmallIteration(c)) == [3, 3, 0, 2]
  {
    KeysOfProgram(c);
    ReducedTo(c, 0);
    ReducedTo(c, 1);
    ReducedTo(c, 2);
    ReducedTo(c, 3);
  }

  lemma SmallRankPlans(counts: seq<int>, out: RankPlan, r: nat)
    requires counts == [3, 3, 0, 2] && r < 4 && out == PlanOfRank(counts[r])
    ensures PlannedOn(counts, 2, 4, r, out)
  {
    PlanWithEmptyMiddleRank();
    PlanCountsOwnedKeys(counts, 2, 4, out.toRank, out.first, out.last, out.used, r);
    SumStep(counts, r);
  }

  /** Every rank plans for itself and expects what the program says. */
  lemma SmallRunsOnPlans(c: Config)
    requires SmallProgram(c)
    ensures RunsOnPlans(c, 1, SmallIteration(c))
  {
    var it := SmallIteration(c);
    SmallGlobalCounts(c);
    forall r | 0 <= r < 4 ensures PlannedOn(GlobalCounts(it), 2, 4, r, it.outputs[r]) {
      SmallRankPlans(GlobalCounts(it), it.outputs[r], r);
    }
    forall k: nat | k < 8 ensures RoutedByFirst(c, 1, it, k) {
    }
  }

  /** The hypothesis of the pipeline's theorems. */
  lemma SmallIterationsRun(c: Config)
    requires SmallProgram(c)
    ensures AllRunOnPlans(c, [SmallIteration(c)])
    ensures SmallPlan(PlansOf(c, [SmallIteration(c)])[0])
  {
    var its := [SmallIteration(c)];
    IsStaffed(c);
    SmallRunsOnPlans(c);
    assert IterationRuns(c, its, 1);
    SmallGlobalCounts(c);
  }

  /** There is a maximal run, and it leaves the eight keys in order. */
  lemma SmallRunsSort(c: Config) returns (steps: seq<Step>)
    requires SmallProgram(c)
    ensures Maximal(c, steps)
    ensures AllRunOnPlans(c, [SmallIteration(c)])
    ensures var plan, s := PlansOf(c, [SmallIteration(c)])[0], Execute(c, steps).state;
            && |s.ranks| == c.rankCount <= |plan.first| && c.rankCount <= |plan.last|
            && Sorted(Gathered(plan, HistogramsOf(s), c.rankCount))
            && multiset(Gathered(plan, HistogramsOf(s), c.rankCount)) == AllKeys(c, 1)
  {
    var its := [SmallIteration(c)];
    SmallIterationsRun(c);
    IterationsMakeSortProgram(c, its);
    SortProgramsAreWellFormed(c, PlansOf(c, its));
    steps := EveryRunExtends(c, []);
    assert [] + steps == steps;
    IterationsSort(c, its, steps);
  }

  // ---------- ranking ----------

  /** At the end of a maximal run every rank's completion test of its only phase has succeeded. */
  lemma SmallRunCompletes(c: Config, steps: seq<Step>, d: nat)
    requires SmallProgram(c) && Maximal(c, steps) && d < 4
    ensures CompletedAt(c, steps, |steps|, 1, d) && HistogramAt(c, steps, |steps|, 1, d) == Total(c, 1, d)
  {
    SmallIterationsRun(c);
    IterationsMakeSortProgram(c, [SmallIteration(c)]);
    SortProgramsAreWellFormed(c, PlansOf(c, [SmallIteration(c)]));
    MaximalRunsComplete(c, steps, d);
    assert steps[..|steps|] == steps;
    CompletedIsTotal(c, steps, |steps|, 1, d);
  }

  /** The frequency table of the two keys lo and lo + 1 with its sums, and any slot below. */
  function TwoSlotTables(at: nat, h: multiset<Key>, lo: int, below: int): RankTables
  {
    RankTables(at, [h[lo], h[lo + 1]], [h[lo], h[lo] + h[lo + 1]], below)
  }

  lemma TwoSlotSums(t: RankTables, h: multiset<Key>, at: nat, lo: int, below: int)
    requires t == TwoSlotTables(at, h, lo, below)
    ensures forall i :: 0 <= i < |t.cumulative| ==> t.cumulative[i] == Prefix(t.frequency, i + 1)
  {
    assert t.frequency[..0] == [];
    SumStep(t.frequency, 0);
    SumStep(t.frequency, 1);
  }

  function SmallTables(c: Config, at: nat, below: int, d: nat): RankTables
    requires |c.phases| > 0 && |c.phases[0].work| == |c.home|
  {
    TwoSlotTables(at, Total(c, 1, d), 2 * d, below)
  }

  lemma SmallInterval(plan: SortPlan, d: nat)
    requires SmallPlan(plan) && d < 4
    ensures plan.MinKey(d) == 2 * d && plan.MaxKey(d) == 2 * d + 1
  {
  }

  lemma TablesAreRead(c: Config, plan: SortPlan, steps: seq<Step>, d: nat, at: nat, below: int, tables: RankTables)
    requires CompletedAt(c, steps, at, 1, d) && d < |plan.first| && d < |plan.last|
    requires plan.MaxKey(d) == plan.MinKey(d) + 1
    requires tables == TwoSlotTables(at, HistogramAt(c, steps, at, 1, d), plan.MinKey(d), below)
    ensures TablesOf(c, plan, steps, 1, d, tables)
  {
    TwoSlotSums(tables, HistogramAt(c, steps, at, 1, d), at, plan.MinKey(d), below);
  }

  lemma SmallTablesAreRead(c: Config, plan: SortPlan, steps: seq<Step>, below: int, d: nat)
    requires SmallProgram(c) && SmallPlan(plan) && Maximal(c, steps) && d < 4
    ensures TablesOf(c, plan, steps, 1, d, SmallTables(c, |steps|, below, d))
  {
    SmallRunCompletes(c, steps, d);
    SmallInterval(plan, d);
    TablesAreRead(c, plan, steps, d, |steps|, below, SmallTables(c, |steps|, below, d));
  }

  // ---------- the timed iteration ----------

  /** The key arrays of the ranks. */
  ghost predicate SmallKeys(c: Config, keys: seq<seq<nat>>)
    requires |c.phases| > 0
  {
    |keys| == |PhaseOf(c, 1).work| == 4 && forall r :: 0 <= r < 4 ==> keys[r] == PhaseOf(c, 1).work[r]
  }

  lemma SmallKeysExist(c: Config) returns (keys: seq<seq<nat>>)
    requires SmallProgram(c)
    ensures SmallKeys(c, keys)
  {
    keys := [[0, 1], [2, 3], [7, 0], [3, 6]];
  }

  /** One test: index 4 of the key sequence, which is the 7; seven keys are smaller. */
  function SmallTimed(c: Config, keys: seq<seq<nat>>, at: nat, below: int): TimedIteration
    requires |c.phases| > 0 && |c.phases[0].work| == |c.home|
  {
    TimedIteration(keys, seq(c.rankCount, d requires 0 <= d < c.rankCount => SmallTables(c, at, below, d)), [7])
  }

  lemma SmallKeyArrays(c: Config, keys: seq<seq<nat>>, each: nat)
    requires SmallProgram(c) && SmallKeys(c, keys) && each == 2
    ensures KeyArrays(c, 1, keys, each)
  {
    forall r | 0 <= r < 4 ensures |keys[r]| == each && multiset(keys[r]) == KeysByRank(c, 1)[r] {
      RankHoldsWork(c, r);
    }
  }

  lemma SmallTestKey(c: Config, keys: seq<seq<nat>>, each: nat, testIndex: seq<nat>)
    requires SmallProgram(c) && SmallKeys(c, keys) && each == 2 && testIndex == [4]
    ensures Captured(c, 1, SmallIteration(c), keys, each, testIndex)
  {
    SmallCountsReduced(c);
    SmallKeyArrays(c, keys, each);
    assert keys[testIndex[0] / each][testIndex[0] % each] == 7;
  }

  lemma SmallTimedRun(c: Config, keys: seq<seq<nat>>, steps: seq<Step>, below: int, each: nat, testIndex: seq<nat>)
    requires SmallProgram(c) && SmallKeys(c, keys) && Maximal(c, steps) && each == 2 && testIndex == [4]
    ensures TimedRun(c, [SmallIteration(c)], steps, 0, [SmallTimed(c, keys, |steps|, below)], each, testIndex)
  {
    var its, timed := [SmallIteration(c)], SmallTimed(c, keys, |steps|, below);
    SmallIterationsRun(c);
    var plan := PlansOf(c, its)[0];
    SmallTestKey(c, keys, each, testIndex);
    ProgramSorts(c, plan);
    forall d | 0 <= d < 4 ensures TablesOf(c, plan, steps, 1, d, timed.tables[d]) {
      SmallTablesAreRead(c, plan, steps, below, d);
    }
    assert Timed(c, its, steps, 1, timed, each, testIndex);
  }

  // ---------- the verdict ----------

  lemma SmallFinalSnapshot(c: Config, plan: SortPlan, steps: seq<Step>, at: seq<nat>, inputs: seq<seq<int>>)
    requires SmallProgram(c) && SmallPlan(plan) && Maximal(c, steps) && KeysInArrays(c, inputs)
    requires |at| == 4 && forall d :: 0 <= d < 4 ==> at[d] == |steps|
    ensures FinalSnapshot(c, plan, steps, at, inputs, SnapshotsOf(c, plan, inputs))
  {
    var ranks := SnapshotsOf(c, plan, inputs);
    AllExpand(c, plan, inputs);
    forall d | 0 <= d < c.rankCount
      ensures CompletedAt(c, steps, at[d], |c.phases|, d)
      ensures ranks[d] == Snapshot(inputs[d], LocalKeys(plan, HistogramAt(c, steps, at[d], |c.phases|, d), d))
    {
      SmallRunCompletes(c, steps, d);
    }
  }

  /** Seven keys are smaller than the 7, and it is not the first key of an interval. */
  lemma SmallExpectation(c: Config, plan: SortPlan)
    requires SmallProgram(c) && SmallPlan(plan)
    ensures CountRange(AllKeys(c, 1), 0, 7) == 7
    ensures forall d :: 0 <= d < 4 ==> plan.MinKey(d) != 7
  {
    var h := AllKeys(c, 1);
    KeysOfProgram(c);
    CountTwo(h, 0);
    CountTwo(h, 2);
    CountTwo(h, 4);
    CountRangeSplit(h, 0, 2, 7);
    CountRangeSplit(h, 2, 4, 7);
    CountRangeSplit(h, 4, 6, 7);
    assert CountRange(h, 6, 6) == 0;
  }

  /** The records of the run's partial checks: one iteration, one test key, the 7. */
  lemma SmallRecords(c: Config, keys: seq<seq<nat>>, steps: seq<Step>, below: int, each: nat, testIndex: seq<nat>)
    returns (records: seq<PhaseRecord>)
    requires SmallProgram(c) && SmallKeys(c, keys) && Maximal(c, steps) && each == 2 && testIndex == [4]
    ensures TimedRun(c, [SmallIteration(c)], steps, 0, [SmallTimed(c, keys, |steps|, below)], each, testIndex)
    ensures records == Records(c, [SmallIteration(c)], steps, 0, [SmallTimed(c, keys, |steps|, below)], each, testIndex)
    ensures |records| == 1 && Recorded(c, records[0], 1) && SmallPlan(records[0].plan) && records[0].phase == 1
    ensures records[0].testKeys == [7] && records[0].expectedRanks == [7]
  {
    SmallIterationsRun(c);
    SmallTimedRun(c, keys, steps, below, each, testIndex);
    records := Records(c, [SmallIteration(c)], steps, 0, [SmallTimed(c, keys, |steps|, below)], each, testIndex);
    RecordFields(c, [SmallIteration(c)], steps, 0, [SmallTimed(c, keys, |steps|, below)], each, testIndex, 0);
    RecordedTestKeys(c, [SmallIteration(c)], steps, 0, [SmallTimed(c, keys, |steps|, below)], each, testIndex, 0, 0);
  }

  lemma SmallTestHolds(c: Config, rec: PhaseRecord, tests: nat)
    requires SmallProgram(c) && Recorded(c, rec, tests) && tests == 1
    requires SmallPlan(rec.plan) && rec.phase == 1 && rec.testKeys == [7] && rec.expectedRanks == [7]
    ensures PhaseHolds(c, rec, tests)
  {
    SmallExpectation(c, rec.plan);
  }

  /**
   Every maximal run of the program, whatever the slots below the tables hold: the only test
   passes, as seven is the true rank, the ranks are in order, and the verdict is a failure.
   */
  lemma SmallRunIsRejected(c: Config, keys: seq<seq<nat>>, steps: seq<Step>, below: int, inputs: seq<seq<int>>,
                           plan: SortPlan, each: nat, testIndex: seq<nat>) returns (records: seq<PhaseRecord>)
    requires SmallProgram(c) && SmallKeys(c, keys) && Maximal(c, steps) && each == 2 && testIndex == [4]
    requires SmallPlan(plan) && KeysInArrays(c, inputs)
    ensures TimedRun(c, [SmallIteration(c)], steps, 0, [SmallTimed(c, keys, |steps|, below)], each, testIndex)
    ensures records == Records(c, [SmallIteration(c)], steps, 0, [SmallTimed(c, keys, |steps|, below)], each, testIndex)
    ensures AllExpectationsHold(c, records, 1)
    ensures IsSortPhase(c, 1, plan) && ExpandedBy(c, 1, plan, inputs, SnapshotsOf(c, plan, inputs))
    ensures RanksInOrder(SnapshotsOf(c, plan, inputs))
    ensures Sum(FinalCounters(AllMarks(c, records, 1), FullMarks(SnapshotsOf(c, plan, inputs)))) != 1 + c.rankCount
  {
    records := SmallRecords(c, keys, steps, below, each, testIndex);
    SmallTestHolds(c, records[0], 1);
    StaleKeyRejectsSortedRanks(c, plan, inputs);
    SortedRanksAreRejected(c, plan, inputs, records, 1);
  }
}
