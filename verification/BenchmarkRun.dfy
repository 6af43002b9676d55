/**
 The verdict of a whole run: the tables, test keys and snapshots of the verification are taken
 from the states that the redistribution protocol reaches.
 */
module BenchmarkRun {
  import opened Collections
  import opened Histograms
  import opened BucketCounting
  import opened AmProtocol
  import opened AmSafety
  import opened IntegerSort
  import opened SortPipeline
  import opened FullVerify
  import opened Verification

  /** After n steps of the run, rank d's completion test of phase p has succeeded. */
  ghost predicate CompletedAt(c: Config, steps: seq<Step>, n: nat, p: nat, d: nat)
  {
    && n <= |steps| && Execute(c, steps[..n]).Reached? && Shape(c, Execute(c, steps[..n]).state)
    && d < c.rankCount && 0 < p <= |c.phases| && d < |PhaseOf(c, p).expected|
    && Execute(c, steps[..n]).state.ranks[d].phase == p
    && Execute(c, steps[..n]).state.ranks[d].recvCount >= PhaseOf(c, p).expected[d]
  }

  /** What the rank has counted after n steps. */
  ghost function HistogramAt(c: Config, steps: seq<Step>, n: nat, p: nat, d: nat): multiset<Key>
    requires CompletedAt(c, steps, n, p, d)
  {
    Execute(c, steps[..n]).state.ranks[d].histogram
  }

  lemma CompletedIsTotal(c: Config, steps: seq<Step>, n: nat, p: nat, d: nat)
    requires WellFormed(c) && CompletedAt(c, steps, n, p, d)
    ensures HistogramAt(c, steps, n, p, d) == Total(c, p, d)
  {
    LocalCompletionIsSafe(c, steps[..n], d);
  }

  /** The tables of rank d when it has ranked phase p, read after `at` steps, and the slot below them. */
  datatype RankTables = RankTables(at: nat, frequency: seq<int>, cumulative: seq<int>, below: int)

  ghost predicate TablesOf(c: Config, plan: SortPlan, steps: seq<Step>, p: nat, d: nat, tables: RankTables)
    requires d < |plan.first| && d < |plan.last|
  {
    && CompletedAt(c, steps, tables.at, p, d)
    && IsFrequencyTable(tables.frequency, HistogramAt(c, steps, tables.at, p, d), plan.MinKey(d), plan.MaxKey(d))
    && |tables.cumulative| == plan.MaxKey(d) - plan.MinKey(d) + 1
    && forall i :: 0 <= i < |tables.cumulative| ==> tables.cumulative[i] == Prefix(tables.frequency, i + 1)
  }

  lemma TablesRank(c: Config, plan: SortPlan, steps: seq<Step>, p: nat, d: nat, tables: RankTables)
    requires WellFormed(c) && IsSortPhase(c, p, plan) && d < c.rankCount && TablesOf(c, plan, steps, p, d, tables)
    ensures RankedBy(c, p, plan, d, tables.cumulative)
  {
    CompletedIsTotal(c, steps, tables.at, p, d);
    PrefixSumsRank(c, p, plan, d, tables.frequency, tables.cumulative);
  }

  // ---------- test keys ----------

  /** Every rank holds `each` keys in phase p. */
  ghost predicate KeyArrays(c: Config, p: nat, keys: seq<seq<nat>>, each: nat)
    requires 0 < p <= |c.phases| && |c.phases[p - 1].work| == |c.home|
  {
    && each > 0 && |keys| == c.rankCount
    && forall r :: 0 <= r < c.rankCount ==> |keys[r]| == each && multiset(keys[r]) == KeysByRank(c, p)[r]
  }

  /** The slot after the buckets that holds a test key: only the rank with the key has written it. */
  ghost predicate CapturedIn(buffers: seq<seq<int>>, keys: seq<seq<nat>>, each: nat, index: nat, slot: nat)
    requires each > 0
  {
    && |buffers| == |keys| && index < |keys| * each
    && forall r :: 0 <= r < |buffers| ==>
         && slot < |buffers[r]| && |keys[r]| == each
         && buffers[r][slot] == if index / each == r then keys[r][index % each] else 0
  }

  ghost predicate Captured(c: Config, p: nat, it: Iteration, keys: seq<seq<nat>>, each: nat, testIndex: seq<nat>)
  {
    && CountsReduced(c, p, it) && KeyArrays(c, p, keys, each) && it.numBuckets + |testIndex| <= it.slots
    && forall t :: 0 <= t < |testIndex| ==> CapturedIn(it.buffers, keys, each, testIndex[t], it.numBuckets + t)
  }

  /** The test keys as every rank reads them from the reduced counters. */
  function TestKeys(it: Iteration, tests: nat): (keys: seq<int>)
    requires it.numBuckets + tests <= it.slots
    requires forall r :: r in Ranks(it.tree) ==> r < |it.buffers| && |it.buffers[r]| == it.slots
    ensures |keys| == tests
  {
    Reduced(it.tree, it.buffers, it.slots)[it.numBuckets..it.numBuckets + tests]
  }

  /** The keys of a rank's array are keys of the phase. */
  lemma KeyOfRankIsKey(c: Config, p: nat, keys: seq<seq<nat>>, each: nat, r: nat, i: nat)
    requires 0 < p <= |c.phases| && |c.phases[p - 1].work| == |c.home|
    requires forall g :: 0 <= g < |c.home| ==> c.home[g] < c.rankCount
    requires KeyArrays(c, p, keys, each) && r < c.rankCount && i < each
    ensures (keys[r][i] as int) in AllKeys(c, p)
  {
    RanksHoldAllKeys(c, p);
    MSumAround(KeysByRank(c, p), r);
    assert keys[r][i] in multiset(keys[r]);
    assert (keys[r][i] as int) in KeysByRank(c, p)[r];
  }

  lemma CapturedKey(it: Iteration, keys: seq<seq<nat>>, each: nat, index: nat, slot: nat)
    requires each > 0 && CoversRanks(it.tree, |keys|) && slot < it.slots
    requires forall r :: 0 <= r < |it.buffers| ==> |it.buffers[r]| == it.slots
    requires CapturedIn(it.buffers, keys, each, index, slot)
    ensures index / each < |keys|
    ensures Reduced(it.tree, it.buffers, it.slots)[slot] == keys[index / each][index % each]
  {
    TestKeySurvives(keys, each, index, it.buffers, it.slots, slot, it.tree);
  }

  /** A test key is the key at its index of the whole key sequence, and hence a key of the phase. */
  lemma TestKeyIsAKey(c: Config, p: nat, it: Iteration, keys: seq<seq<nat>>, each: nat, testIndex: seq<nat>, t: nat)
    requires Staffed(c) && Captured(c, p, it, keys, each, testIndex) && t < |testIndex|
    ensures testIndex[t] / each < c.rankCount
    ensures TestKeys(it, |testIndex|)[t] == keys[testIndex[t] / each][testIndex[t] % each]
    ensures TestKeys(it, |testIndex|)[t] in AllKeys(c, p)
  {
    CapturedKey(it, keys, each, testIndex[t], it.numBuckets + t);
    KeyOfRankIsKey(c, p, keys, each, testIndex[t] / each, testIndex[t] % each);
  }

  /** The value is the key at the index of the whole key sequence. */
  ghost predicate KeyAtIndex(keys: seq<seq<nat>>, each: nat, index: nat, value: int)
  {
    && each > 0 && index / each < |keys| && |keys[index / each]| == each
    && value == keys[index / each][index % each]
  }

  lemma TestKeyAtIndex(c: Config, p: nat, it: Iteration, keys: seq<seq<nat>>, each: nat, testIndex: seq<nat>, t: nat)
    requires Staffed(c) && Captured(c, p, it, keys, each, testIndex) && t < |testIndex|
    ensures KeyAtIndex(keys, each, testIndex[t], TestKeys(it, |testIndex|)[t])
  {
    TestKeyIsAKey(c, p, it, keys, each, testIndex, t);
  }

  // ---------- one timed iteration ----------

  datatype TimedIteration = TimedIteration(keys: seq<seq<nat>>, tables: seq<RankTables>, expectedRanks: seq<int>)

  ghost predicate Timed(c: Config, its: seq<Iteration>, steps: seq<Step>, p: nat, timed: TimedIteration,
                        each: nat, testIndex: seq<nat>)
    requires AllRunOnPlans(c, its)
  {
    && 0 < p <= |c.phases| && Captured(c, p, its[p - 1], timed.keys, each, testIndex)
    && |timed.tables| == c.rankCount && |timed.expectedRanks| == |testIndex|
    && IsSortPhase(c, p, PlansOf(c, its)[p - 1])
    && forall d :: 0 <= d < c.rankCount ==> TablesOf(c, PlansOf(c, its)[p - 1], steps, p, d, timed.tables[d])
  }

  /** What the partial checks of phase p work on. */
  ghost function RecordOf(c: Config, its: seq<Iteration>, steps: seq<Step>, p: nat, timed: TimedIteration,
                          each: nat, testIndex: seq<nat>): PhaseRecord
    requires AllRunOnPlans(c, its) && Timed(c, its, steps, p, timed, each, testIndex)
  {
    PhaseRecord(p, PlansOf(c, its)[p - 1],
                seq(c.rankCount, d requires 0 <= d < c.rankCount =>
                  Table(timed.tables[d].cumulative, timed.tables[d].below)),
                TestKeys(its[p - 1], |testIndex|), timed.expectedRanks)
  }

  lemma RecordIsRecorded(c: Config, its: seq<Iteration>, steps: seq<Step>, p: nat, timed: TimedIteration,
                         each: nat, testIndex: seq<nat>)
    requires AllRunOnPlans(c, its) && Timed(c, its, steps, p, timed, each, testIndex)
    ensures Recorded(c, RecordOf(c, its, steps, p, timed, each, testIndex), |testIndex|)
  {
    IterationsMakeSortProgram(c, its);
    SortProgramsAreWellFormed(c, PlansOf(c, its));
    var rec := RecordOf(c, its, steps, p, timed, each, testIndex);
    forall t | 0 <= t < |testIndex| ensures rec.testKeys[t] in AllKeys(c, p) {
      TestKeyIsAKey(c, p, its[p - 1], timed.keys, each, testIndex, t);
    }
    forall d | 0 <= d < c.rankCount ensures RankedBy(c, p, rec.plan, d, rec.tables[d].cumulative) {
      TablesRank(c, rec.plan, steps, p, d, timed.tables[d]);
    }
  }

  // ---------- the run ----------

  /** The timed iterations follow the warm-up iterations. */
  ghost predicate TimedRun(c: Config, its: seq<Iteration>, steps: seq<Step>, warmups: nat, timed: seq<TimedIteration>,
                           each: nat, testIndex: seq<nat>)
  {
    && AllRunOnPlans(c, its) && warmups + |timed| == |its|
    && forall i :: 0 <= i < |timed| ==> Timed(c, its, steps, warmups + i + 1, timed[i], each, testIndex)
  }

  ghost function RecordAt(c: Config, its: seq<Iteration>, steps: seq<Step>, warmups: nat, timed: seq<TimedIteration>,
                          each: nat, testIndex: seq<nat>, i: nat): (rec: PhaseRecord)
    requires TimedRun(c, its, steps, warmups, timed, each, testIndex) && i < |timed|
    ensures Recorded(c, rec, |testIndex|)
  {
    RecordIsRecorded(c, its, steps, warmups + i + 1, timed[i], each, testIndex);
    RecordOf(c, its, steps, warmups + i + 1, timed[i], each, testIndex)
  }

  ghost function Records(c: Config, its: seq<Iteration>, steps: seq<Step>, warmups: nat, timed: seq<TimedIteration>,
                         each: nat, testIndex: seq<nat>): (records: seq<PhaseRecord>)
    requires TimedRun(c, its, steps, warmups, timed, each, testIndex)
    ensures |records| == |timed|
    ensures forall i :: 0 <= i < |records| ==> Recorded(c, records[i], |testIndex|)
  {
    seq(|timed|, i requires 0 <= i < |timed| && TimedRun(c, its, steps, warmups, timed, each, testIndex) =>
      RecordAt(c, its, steps, warmups, timed, each, testIndex, i))
  }

  lemma IterationIsCaptured(c: Config, its: seq<Iteration>, steps: seq<Step>, p: nat, timed: TimedIteration,
                            each: nat, testIndex: seq<nat>)
    requires AllRunOnPlans(c, its) && Timed(c, its, steps, p, timed, each, testIndex)
    ensures Staffed(c) && Captured(c, p, its[p - 1], timed.keys, each, testIndex) && |timed.keys| == c.rankCount
    ensures each > 0 && forall r :: 0 <= r < c.rankCount ==> |timed.keys[r]| == each
  {
  }

  lemma RecordFields(c: Config, its: seq<Iteration>, steps: seq<Step>, warmups: nat, timed: seq<TimedIteration>,
                     each: nat, testIndex: seq<nat>, i: nat)
    requires TimedRun(c, its, steps, warmups, timed, each, testIndex) && i < |timed|
    ensures CountsReduced(c, warmups + i + 1, its[warmups + i])
    ensures its[warmups + i].numBuckets + |testIndex| <= its[warmups + i].slots
    ensures var rec := Records(c, its, steps, warmups, timed, each, testIndex)[i];
            && rec.phase == warmups + i + 1 && rec.plan == PlansOf(c, its)[warmups + i]
            && rec.testKeys == TestKeys(its[warmups + i], |testIndex|) && rec.expectedRanks == timed[i].expectedRanks
  {
    IterationIsCaptured(c, its, steps, warmups + i + 1, timed[i], each, testIndex);
  }

  /** The final snapshot: every rank expands what it had counted when it completed the last phase. */
  ghost predicate FinalSnapshot(c: Config, plan: SortPlan, steps: seq<Step>, at: seq<nat>, inputs: seq<seq<int>>,
                                ranks: seq<Snapshot>)
  {
    && |at| == |inputs| == |ranks| == c.rankCount && Snapshots(ranks)
    && c.rankCount <= |plan.first| && c.rankCount <= |plan.last|
    && forall d :: 0 <= d < c.rankCount ==>
         && CompletedAt(c, steps, at[d], |c.phases|, d)
         && ranks[d] == Snapshot(inputs[d], LocalKeys(plan, HistogramAt(c, steps, at[d], |c.phases|, d), d))
  }

  lemma FinalSnapshotExpands(c: Config, plan: SortPlan, steps: seq<Step>, at: seq<nat>, inputs: seq<seq<int>>,
                             ranks: seq<Snapshot>)
    requires WellFormed(c) && IsSortPhase(c, |c.phases|, plan) && FinalSnapshot(c, plan, steps, at, inputs, ranks)
    ensures ExpandedBy(c, |c.phases|, plan, inputs, ranks)
  {
    forall d | 0 <= d < c.rankCount
      ensures ranks[d] == Snapshot(inputs[d], LocalKeys(plan, Total(c, |c.phases|, d), d))
    {
      CompletedIsTotal(c, steps, at[d], |c.phases|, d);
    }
  }

  /** Every expected rank is the true global rank of its test key, up to the slot below its owner's table. */
  ghost predicate AllExpectationsHold(c: Config, records: seq<PhaseRecord>, tests: nat)
  {
    forall i :: 0 <= i < |records| ==> Recorded(c, records[i], tests) && PhaseHolds(c, records[i], tests)
  }

  /** No rank with keys follows an empty rank whose key array began with a larger key. */
  ghost predicate AllStaleKeysFit(c: Config, p: nat, inputs: seq<seq<int>>)
  {
    && 0 < p <= |c.phases| && |c.phases[p - 1].work| == |c.home| && c.rankCount <= |inputs|
    && forall r :: 0 < r < c.rankCount ==> 0 < |inputs[r - 1]| && StaleKeyFits(c, p, inputs, r)
  }

  lemma RecordsVerdict(c: Config, records: seq<PhaseRecord>, tests: nat, last: nat, plan: SortPlan,
                       inputs: seq<seq<int>>, ranks: seq<Snapshot>)
    requires forall i :: 0 <= i < |records| ==> Recorded(c, records[i], tests)
    requires IsSortPhase(c, last, plan) && ExpandedBy(c, last, plan, inputs, ranks)
    ensures Sum(FinalCounters(AllMarks(c, records, tests), FullMarks(ranks))) == |records| * tests + c.rankCount
       <==> AllExpectationsHold(c, records, tests) && AllStaleKeysFit(c, last, inputs)
  {
    VerdictIsExact(c, records, tests, last, plan, inputs, ranks);
  }

  /**
   The verdict of a run, for every interleaving: with every rank planning for itself, ranking and
   expanding what it has counted when its own completion test succeeds, the reduced counter equals
   the number of tests of the timed iterations plus the number of ranks exactly if all expectations
   hold and all stale keys fit.
   */
  lemma RunVerdict(c: Config, its: seq<Iteration>, steps: seq<Step>, warmups: nat, timed: seq<TimedIteration>,
                   each: nat, testIndex: seq<nat>, at: seq<nat>, inputs: seq<seq<int>>, ranks: seq<Snapshot>)
    requires TimedRun(c, its, steps, warmups, timed, each, testIndex) && |its| > 0
    requires FinalSnapshot(c, PlansOf(c, its)[|its| - 1], steps, at, inputs, ranks)
    ensures var records := Records(c, its, steps, warmups, timed, each, testIndex);
            Sum(FinalCounters(AllMarks(c, records, |testIndex|), FullMarks(ranks)))
            == |timed| * |testIndex| + c.rankCount
            <==> AllExpectationsHold(c, records, |testIndex|) && AllStaleKeysFit(c, |its|, inputs)
  {
    var plans, records := PlansOf(c, its), Records(c, its, steps, warmups, timed, each, testIndex);
    IterationsMakeSortProgram(c, its);
    SortProgramsAreWellFormed(c, plans);
    assert Planned(c, plans, |its|);
    FinalSnapshotExpands(c, plans[|its| - 1], steps, at, inputs, ranks);
    RecordsVerdict(c, records, |testIndex|, |its|, plans[|its| - 1], inputs, ranks);
  }

  /** The recorded test keys are the keys at the test indices, counted over all ranks' arrays. */
  lemma RecordedTestKeys(c: Config, its: seq<Iteration>, steps: seq<Step>, warmups: nat, timed: seq<TimedIteration>,
                         each: nat, testIndex: seq<nat>, i: nat, t: nat)
    requires TimedRun(c, its, steps, warmups, timed, each, testIndex) && i < |timed| && t < |testIndex|
    ensures KeyAtIndex(timed[i].keys, each, testIndex[t],
                       Records(c, its, steps, warmups, timed, each, testIndex)[i].testKeys[t])
  {
    RecordFields(c, its, steps, warmups, timed, each, testIndex, i);
    IterationIsCaptured(c, its, steps, warmups + i + 1, timed[i], each, testIndex);
    TestKeyAtIndex(c, warmups + i + 1, its[warmups + i], timed[i].keys, each, testIndex, t);
  }
}
