/**
 The partial checks of the benchmark and its verdict: which test keys are captured and checked
 where, and exactly when the reduced counter reaches the expected count.
 */
module Verification {
  import opened Collections
  import opened Histograms
  import opened BucketPlan
  import opened BucketCounting
  import opened AmProtocol
  import opened AmSafety
  import opened IntegerSort
  import opened FullVerify

  // ---------- the test keys ----------

  /**
   capture_partial_verification_keys: the test keys that lie in this rank's part of the key
   sequence go into the slots after the buckets.
   */
  method CaptureTestKeys(keys: seq<int>, testIndex: seq<nat>, myRank: nat, localBucketCounts: array<int>,
                         numBuckets: nat)
    requires 0 < |keys| && numBuckets + |testIndex| <= localBucketCounts.Length
    modifies localBucketCounts
    ensures forall t :: 0 <= t < |testIndex| ==>
              localBucketCounts[numBuckets + t]
              == if testIndex[t] / |keys| == myRank then keys[testIndex[t] % |keys|]
                 else old(localBucketCounts[numBuckets + t])
    ensures forall b :: 0 <= b < localBucketCounts.Length && !(numBuckets <= b < numBuckets + |testIndex|) ==>
              localBucketCounts[b] == old(localBucketCounts[b])
  {
    for t := 0 to |testIndex|
      invariant forall u :: 0 <= u < |testIndex| ==>
                  localBucketCounts[numBuckets + u]
                  == if u < t && testIndex[u] / |keys| == myRank then keys[testIndex[u] % |keys|]
                     else old(localBucketCounts[numBuckets + u])
      invariant forall b :: 0 <= b < localBucketCounts.Length && !(numBuckets <= b < numBuckets + |testIndex|) ==>
                  localBucketCounts[b] == old(localBucketCounts[b])
    {
      if testIndex[t] / |keys| == myRank {
        var localIndex := testIndex[t] % |keys|;
        localBucketCounts[numBuckets + t] := keys[localIndex];
      }
    }
  }

  /** Only one element of the sequence is not zero. */
  lemma {:induction false} SumOfOne(values: seq<int>, at: nat)
    requires forall r :: 0 <= r < |values| && r != at ==> values[r] == 0
    ensures Sum(values) == if at < |values| then values[at] else 0
  {
    if values != [] {
      if at == |values| - 1 {
        SumZeros(values[..at]);
      } else {
        SumOfOne(values[..|values| - 1], at);
      }
    }
  }

  /**
   Exactly one rank captures a test key, and the sum reduction leaves it as it is: the slot holds
   the key at the test index of the whole key sequence.
   */
  lemma TestKeySurvives(keys: seq<seq<int>>, each: nat, index: nat, buffers: seq<seq<int>>, n: nat, slot: nat,
                        tree: Reduction)
    requires each > 0 && |keys| == |buffers| && index < |keys| * each && slot < n
    requires forall r :: 0 <= r < |keys| ==> |keys[r]| == each && |buffers[r]| == n
    requires forall r :: 0 <= r < |buffers| ==>
               buffers[r][slot] == if index / each == r then keys[r][index % each] else 0
    requires CoversRanks(tree, |keys|)
    ensures index / each < |keys|
    ensures Reduced(tree, buffers, n)[slot] == keys[index / each][index % each]
  {
    BucketInRange(index, |keys|, each);
    assert BucketOf(index, each) == index / each;
    ReductionIsSum(tree, buffers, n, slot);
    SumOfOne(Slot(buffers, slot), index / each);
  }

  // ---------- the partial checks ----------

  /** The outcome of one partial check; unchecked when the key is in no slot of this rank's table. */
  datatype PartialCheck = Unchecked | Checked(computedRank: int, passed: bool)

  function CheckTestKey(key: int, minKey: int, maxKey: int, lesser: int, cumulative: seq<int>, below: int,
                        expectedRank: int): PartialCheck
    requires |cumulative| == maxKey - minKey + 1
  {
    if key < minKey || key > maxKey then Unchecked
    else
      var computed := LookedUpRank(cumulative, below, minKey, lesser, key);
      Checked(computed, computed == expectedRank)
  }

  /** One for every test key that this rank checks and finds at its expected rank. */
  function Marks(testKeys: seq<int>, minKey: int, maxKey: int, lesser: int, cumulative: seq<int>, below: int,
                 expectedRanks: seq<int>): (marks: seq<int>)
    requires |cumulative| == maxKey - minKey + 1 && |testKeys| == |expectedRanks|
    ensures |marks| == |testKeys|
  {
    seq(|testKeys|, t requires 0 <= t < |testKeys| =>
      match CheckTestKey(testKeys[t], minKey, maxKey, lesser, cumulative, below, expectedRanks[t])
      case Unchecked => 0
      case Checked(_, passed) => if passed then 1 else 0)
  }

  /** verify_partial_keys. */
  method VerifyPartialKeys(testKeys: seq<int>, minKey: int, maxKey: int, lesser: int, cumulative: seq<int>, below: int,
                           expectedRanks: seq<int>, passedVerification: int)
    returns (passed: int)
    requires |cumulative| == maxKey - minKey + 1 && |testKeys| == |expectedRanks|
    ensures passed
         == passedVerification + Sum(Marks(testKeys, minKey, maxKey, lesser, cumulative, below, expectedRanks))
  {
    ghost var marks := Marks(testKeys, minKey, maxKey, lesser, cumulative, below, expectedRanks);
    passed := passedVerification;
    for t := 0 to |testKeys|
      invariant passed == passedVerification + Sum(marks[..t])
    {
      SumStep(marks, t);
      var result := CheckTestKey(testKeys[t], minKey, maxKey, lesser, cumulative, below, expectedRanks[t]);
      if result.Checked? && result.passed {
        passed := passed + 1;
      }
    }
    assert marks[..|marks|] == marks;
  }

  /** Every key has exactly one rank whose table contains it. */
  lemma OneRankChecks(c: Config, p: nat, plan: SortPlan, k: nat) returns (owner: nat)
    requires IsSortPhase(c, p, plan) && k in AllKeys(c, p)
    ensures owner < c.rankCount
    ensures forall d :: 0 <= d < c.rankCount ==> (plan.MinKey(d) <= k <= plan.MaxKey(d) <==> d == owner)
  {
    var b := BucketOf(k, plan.width);
    BucketBounds(k, plan.width, b);
    BucketInRange(k, |plan.counts|, plan.width);
    if plan.counts[b] == 0 {
      CountRangeZero(AllKeys(c, p), b * plan.width, (b + 1) * plan.width, k);
    }
    BucketsArePartitioned(plan.counts, plan.average, c.rankCount, plan.toRank, plan.first, plan.last, plan.used, b);
    owner := plan.toRank[b];
    forall d | 0 <= d < c.rankCount ensures plan.MinKey(d) <= k <= plan.MaxKey(d) <==> d == owner {
      KeyInterval(plan, d, k);
      assert plan.toRank[b] == d <==> plan.first[d] <= b <= plan.last[d];
    }
  }

  /** The cumulative table of rank d: for every key of its interval the keys up to and including it. */
  ghost predicate RankedBy(c: Config, p: nat, plan: SortPlan, d: nat, cumulative: seq<int>)
    requires IsSortPhase(c, p, plan) && d < c.rankCount
  {
    && |cumulative| == plan.MaxKey(d) - plan.MinKey(d) + 1
    && forall i :: 0 <= i < |cumulative| ==>
         cumulative[i] == CountRange(Total(c, p, d), plan.MinKey(d), plan.MinKey(d) + i + 1)
  }

  /** The prefix sums of the rank's frequency table are such a table. */
  lemma PrefixSumsRank(c: Config, p: nat, plan: SortPlan, d: nat, frequency: seq<int>, cumulative: seq<int>)
    requires IsSortPhase(c, p, plan) && d < c.rankCount
    requires IsFrequencyTable(frequency, Total(c, p, d), plan.MinKey(d), plan.MaxKey(d))
    requires |cumulative| == plan.MaxKey(d) - plan.MinKey(d) + 1
    requires forall i :: 0 <= i < |cumulative| ==> cumulative[i] == Prefix(frequency, i + 1)
    ensures RankedBy(c, p, plan, d, cumulative)
  {
    forall i | 0 <= i < |cumulative|
      ensures cumulative[i] == CountRange(Total(c, p, d), plan.MinKey(d), plan.MinKey(d) + i + 1)
    {
      PrefixSumCounts(frequency, Total(c, p, d), plan.MinKey(d), plan.MaxKey(d), i + 1);
    }
  }

  /** The check of rank d for a test key, with the rank's own plan and table. */
  function CheckOn(plan: SortPlan, d: nat, cumulative: seq<int>, below: int, key: int, expectedRank: int): PartialCheck
    requires d < |plan.first| && d < |plan.last| && |plan.counts| <= |plan.toRank|
    requires |cumulative| == plan.MaxKey(d) - plan.MinKey(d) + 1
  {
    CheckTestKey(key, plan.MinKey(d), plan.MaxKey(d), OwnedKeys(plan.counts, plan.toRank, 0, d, |plan.counts|),
                 cumulative, below, expectedRank)
  }

  /** What the slot below the table adds to the looked-up rank of a key. */
  function FromBelow(plan: SortPlan, d: nat, below: int, k: int): int
    requires d < |plan.first|
  {
    if k == plan.MinKey(d) then below else 0
  }

  /**
   The owning rank's check of a test key passes exactly if the expected rank is the number of
   smaller keys on all ranks, plus, for the first key of the rank's interval, whatever the slot
   below the table holds.
   */
  lemma PartialCheckIsExact(c: Config, p: nat, plan: SortPlan, d: nat, cumulative: seq<int>, below: int,
                            k: nat, expectedRank: int)
    requires IsSortPhase(c, p, plan) && d < c.rankCount && plan.MinKey(d) <= k <= plan.MaxKey(d)
    requires RankedBy(c, p, plan, d, cumulative)
    ensures var check := CheckOn(plan, d, cumulative, below, k, expectedRank);
            && check.Checked? && check.computedRank == CountRange(AllKeys(c, p), 0, k) + FromBelow(plan, d, below, k)
            && (check.passed <==> expectedRank == CountRange(AllKeys(c, p), 0, k) + FromBelow(plan, d, below, k))
  {
    SmallerKeys(c, p, plan, d, k);
    assert k > plan.MinKey(d) ==>
      cumulative[k - 1 - plan.MinKey(d)] == CountRange(Total(c, p, d), plan.MinKey(d), k);
  }

  // ---------- the reduced counter ----------

  /** The number of the first n ranks that passed test j. */
  function PassesOf(passes: seq<seq<int>>, tests: nat, n: nat): (counts: seq<int>)
    requires n <= |passes| && forall r :: 0 <= r < |passes| ==> |passes[r]| == tests
    ensures |counts| == tests
  {
    if n == 0 then Zeros(tests) else PointwiseSum(PassesOf(passes, tests, n - 1), passes[n - 1])
  }

  lemma {:induction false} PointwiseTotal(a: seq<int>, b: seq<int>)
    requires |a| == |b|
    ensures Sum(PointwiseSum(a, b)) == Sum(a) + Sum(b)
  {
    if a != [] {
      PointwiseTotal(a[..|a| - 1], b[..|b| - 1]);
      assert PointwiseSum(a, b)[..|a| - 1] == PointwiseSum(a[..|a| - 1], b[..|b| - 1]);
    }
  }

  /** What each rank's counter gains from one phase. */
  function PassTotals(passes: seq<seq<int>>): (totals: seq<int>)
    ensures |totals| == |passes|
  {
    seq(|passes|, r requires 0 <= r < |passes| => Sum(passes[r]))
  }

  lemma {:induction false} TotalsByTest(passes: seq<seq<int>>, tests: nat, n: nat)
    requires n <= |passes| && forall r :: 0 <= r < |passes| ==> |passes[r]| == tests
    ensures Prefix(PassTotals(passes), n) == Sum(PassesOf(passes, tests, n))
  {
    if n == 0 {
      SumZeros(Zeros(tests));
    } else {
      TotalsByTest(passes, tests, n - 1);
      SumStep(PassTotals(passes), n - 1);
      PointwiseTotal(PassesOf(passes, tests, n - 1), passes[n - 1]);
    }
  }

  lemma {:induction false} SumOfBits(bits: seq<int>)
    requires forall i :: 0 <= i < |bits| ==> 0 <= bits[i] <= 1
    ensures 0 <= Sum(bits) <= |bits|
    ensures Sum(bits) == |bits| <==> forall i :: 0 <= i < |bits| ==> bits[i] == 1
  {
    if bits != [] {
      SumOfBits(bits[..|bits| - 1]);
    }
  }

  /** Column j of the marks: nobody but the owner can have passed test j. */
  ghost predicate OwnedColumn(passes: seq<seq<int>>, owner: nat, j: nat)
  {
    && owner < |passes|
    && forall r :: 0 <= r < |passes| ==>
         j < |passes[r]| && 0 <= passes[r][j] <= 1 && (r != owner ==> passes[r][j] == 0)
  }

  /** Each test is passed by at most the one rank that checks it. */
  ghost predicate OnlyOwnerPasses(passes: seq<seq<int>>, tests: nat, owner: seq<nat>)
  {
    && |owner| == tests
    && (forall r :: 0 <= r < |passes| ==> |passes[r]| == tests)
    && (forall j :: 0 <= j < tests ==> OwnedColumn(passes, owner[j], j))
  }

  lemma {:induction false} PassesOfOwner(passes: seq<seq<int>>, tests: nat, owner: seq<nat>, n: nat, j: nat)
    requires OnlyOwnerPasses(passes, tests, owner) && n <= |passes| && j < tests
    ensures PassesOf(passes, tests, n)[j] == if owner[j] < n then passes[owner[j]][j] else 0
  {
    assert OwnedColumn(passes, owner[j], j);
    if n > 0 {
      PassesOfOwner(passes, tests, owner, n - 1, j);
    }
  }

  /** The ranks together gain at most one per test, and all of them exactly if every owner passed its test. */
  lemma TestsPassed(passes: seq<seq<int>>, tests: nat, owner: seq<nat>)
    requires OnlyOwnerPasses(passes, tests, owner)
    ensures forall j :: 0 <= j < tests ==> owner[j] < |passes|
    ensures Sum(PassTotals(passes)) <= tests
    ensures Sum(PassTotals(passes)) == tests <==> forall j :: 0 <= j < tests ==> passes[owner[j]][j] == 1
  {
    var counts := PassesOf(passes, tests, |passes|);
    TotalsByTest(passes, tests, |passes|);
    assert PassTotals(passes)[..|passes|] == PassTotals(passes);
    forall j | 0 <= j < tests ensures owner[j] < |passes| && 0 <= counts[j] <= 1 && counts[j] == passes[owner[j]][j] {
      assert OwnedColumn(passes, owner[j], j);
      PassesOfOwner(passes, tests, owner, |passes|, j);
    }
    SumOfBits(counts);
  }

  /** The counters of the ranks after n phases, from zeros at the start of the timed region. */
  function Accumulated(marks: seq<seq<seq<int>>>, ranks: nat, n: nat): (counters: seq<int>)
    requires n <= |marks| && forall i :: 0 <= i < |marks| ==> |marks[i]| == ranks
    ensures |counters| == ranks
  {
    if n == 0 then Zeros(ranks) else PointwiseSum(Accumulated(marks, ranks, n - 1), PassTotals(marks[n - 1]))
  }

  lemma {:induction false} AccumulatedTotal(marks: seq<seq<seq<int>>>, ranks: nat, tests: nat, n: nat)
    requires n <= |marks| && forall i :: 0 <= i < |marks| ==> |marks[i]| == ranks
    requires forall i :: 0 <= i < |marks| ==> Sum(PassTotals(marks[i])) <= tests
    ensures Sum(Accumulated(marks, ranks, n)) <= n * tests
    ensures Sum(Accumulated(marks, ranks, n)) == n * tests
       <==> forall i :: 0 <= i < n ==> Sum(PassTotals(marks[i])) == tests
  {
    if n == 0 {
      SumZeros(Zeros(ranks));
    } else {
      AccumulatedTotal(marks, ranks, tests, n - 1);
      PointwiseTotal(Accumulated(marks, ranks, n - 1), PassTotals(marks[n - 1]));
      assert n * tests == (n - 1) * tests + tests;
    }
  }

  /** The counters before the final reduction: full_verify adds the rank's own outcome. */
  function FinalCounters(marks: seq<seq<seq<int>>>, full: seq<int>): (counters: seq<int>)
    requires forall i :: 0 <= i < |marks| ==> |marks[i]| == |full|
    ensures |counters| == |full|
  {
    PointwiseSum(Accumulated(marks, |full|, |marks|), full)
  }

  /** Every test was passed by its owner. */
  ghost predicate AllPassed(passes: seq<seq<int>>, owner: seq<nat>)
  {
    forall j :: 0 <= j < |owner| ==> owner[j] < |passes| && j < |passes[owner[j]]| && passes[owner[j]][j] == 1
  }

  /**
   The reduced counter reaches the tests of all phases plus the number of ranks exactly if every
   test of every phase was passed by its owner and every rank passed its full check.
   */
  lemma CounterIsExact(marks: seq<seq<seq<int>>>, full: seq<int>, tests: nat, owners: seq<seq<nat>>)
    requires |owners| == |marks| && forall i :: 0 <= i < |marks| ==> |marks[i]| == |full|
    requires forall i :: 0 <= i < |marks| ==> OnlyOwnerPasses(marks[i], tests, owners[i])
    requires forall r :: 0 <= r < |full| ==> 0 <= full[r] <= 1
    ensures Sum(FinalCounters(marks, full)) == |marks| * tests + |full|
       <==> (forall i :: 0 <= i < |marks| ==> AllPassed(marks[i], owners[i]))
            && (forall r :: 0 <= r < |full| ==> full[r] == 1)
  {
    forall i | 0 <= i < |marks|
      ensures Sum(PassTotals(marks[i])) <= tests
      ensures Sum(PassTotals(marks[i])) == tests <==> AllPassed(marks[i], owners[i])
    {
      TestsPassed(marks[i], tests, owners[i]);
    }
    AccumulatedTotal(marks, |full|, tests, |marks|);
    PointwiseTotal(Accumulated(marks, |full|, |marks|), full);
    SumOfBits(full);
  }

  // ---------- the verdict ----------

  /** The table a rank has after the ranking of one phase, and the slot below it. */
  datatype Table = Table(cumulative: seq<int>, below: int)

  /** One iteration as the partial checks see it. */
  datatype PhaseRecord = PhaseRecord(phase: nat, plan: SortPlan, tables: seq<Table>, testKeys: seq<int>,
                                     expectedRanks: seq<int>)

  ghost predicate Recorded(c: Config, rec: PhaseRecord, tests: nat)
  {
    && IsSortPhase(c, rec.phase, rec.plan)
    && |rec.tables| == c.rankCount && |rec.testKeys| == |rec.expectedRanks| == tests
    && (forall t :: 0 <= t < tests ==> rec.testKeys[t] in AllKeys(c, rec.phase))
    && (forall r :: 0 <= r < c.rankCount ==> RankedBy(c, rec.phase, rec.plan, r, rec.tables[r].cumulative))
  }

  /** What verify_partial_keys adds on rank r in this phase, test by test. */
  ghost function MarksOf(c: Config, rec: PhaseRecord, tests: nat, r: nat): (marks: seq<int>)
    requires Recorded(c, rec, tests) && r < c.rankCount
    ensures |marks| == tests
  {
    Marks(rec.testKeys, rec.plan.MinKey(r), rec.plan.MaxKey(r),
          OwnedKeys(rec.plan.counts, rec.plan.toRank, 0, r, |rec.plan.counts|),
          rec.tables[r].cumulative, rec.tables[r].below, rec.expectedRanks)
  }

  ghost function MarksByRank(c: Config, rec: PhaseRecord, tests: nat): (marks: seq<seq<int>>)
    requires Recorded(c, rec, tests)
    ensures |marks| == c.rankCount
  {
    seq(c.rankCount, r requires 0 <= r < c.rankCount => MarksOf(c, rec, tests, r))
  }

  /** Whether the expected rank of test t is the true global rank, up to what the slot below adds on its owner. */
  ghost predicate ExpectationHolds(c: Config, rec: PhaseRecord, tests: nat, t: nat)
    requires Recorded(c, rec, tests) && t < tests
  {
    forall r :: 0 <= r < c.rankCount && rec.plan.MinKey(r) <= rec.testKeys[t] <= rec.plan.MaxKey(r) ==>
      rec.expectedRanks[t] == CountRange(AllKeys(c, rec.phase), 0, rec.testKeys[t])
                              + FromBelow(rec.plan, r, rec.tables[r].below, rec.testKeys[t])
  }

  /** Nobody but the owner can have passed test t, and the owner has if the expectation holds. */
  ghost predicate DecidedBy(c: Config, rec: PhaseRecord, tests: nat, owner: nat, t: nat)
    requires Recorded(c, rec, tests) && t < tests
  {
    && OwnedColumn(MarksByRank(c, rec, tests), owner, t)
    && (MarksByRank(c, rec, tests)[owner][t] == 1 <==> ExpectationHolds(c, rec, tests, t))
  }

  /** A test is decided by the one rank that owns its key. */
  lemma TestIsExact(c: Config, rec: PhaseRecord, tests: nat, t: nat) returns (owner: nat)
    requires Recorded(c, rec, tests) && t < tests
    ensures DecidedBy(c, rec, tests, owner, t)
  {
    var k := rec.testKeys[t];
    owner := OneRankChecks(c, rec.phase, rec.plan, k);
    forall r | 0 <= r < c.rankCount
      ensures 0 <= MarksOf(c, rec, tests, r)[t] <= 1 && (r != owner ==> MarksOf(c, rec, tests, r)[t] == 0)
    {
      assert rec.plan.MinKey(r) <= k <= rec.plan.MaxKey(r) <==> r == owner;
    }
    assert RankedBy(c, rec.phase, rec.plan, owner, rec.tables[owner].cumulative);
    PartialCheckIsExact(c, rec.phase, rec.plan, owner, rec.tables[owner].cumulative, rec.tables[owner].below, k,
                        rec.expectedRanks[t]);
  }

  /** The owners of the first n tests of a phase. */
  lemma {:induction false} TestOwners(c: Config, rec: PhaseRecord, tests: nat, n: nat) returns (owner: seq<nat>)
    requires Recorded(c, rec, tests) && n <= tests
    ensures |owner| == n && forall t :: 0 <= t < n ==> DecidedBy(c, rec, tests, owner[t], t)
  {
    if n == 0 {
      owner := [];
    } else {
      var front := TestOwners(c, rec, tests, n - 1);
      var last := TestIsExact(c, rec, tests, n - 1);
      owner := front + [last];
    }
  }

  /** All tests of a phase are passed exactly if every expectation holds. */
  ghost predicate PhaseHolds(c: Config, rec: PhaseRecord, tests: nat)
    requires Recorded(c, rec, tests)
  {
    forall t :: 0 <= t < tests ==> ExpectationHolds(c, rec, tests, t)
  }

  ghost predicate PhaseDecidedBy(c: Config, rec: PhaseRecord, tests: nat, owner: seq<nat>)
    requires Recorded(c, rec, tests)
  {
    && OnlyOwnerPasses(MarksByRank(c, rec, tests), tests, owner)
    && (AllPassed(MarksByRank(c, rec, tests), owner) <==> PhaseHolds(c, rec, tests))
  }

  lemma PhaseIsExact(c: Config, rec: PhaseRecord, tests: nat) returns (owner: seq<nat>)
    requires Recorded(c, rec, tests)
    ensures PhaseDecidedBy(c, rec, tests, owner)
  {
    owner := TestOwners(c, rec, tests, tests);
    var marks := MarksByRank(c, rec, tests);
    forall t | 0 <= t < tests
      ensures OwnedColumn(marks, owner[t], t) && owner[t] < |marks| && t < |marks[owner[t]]|
      ensures marks[owner[t]][t] == 1 <==> ExpectationHolds(c, rec, tests, t)
    {
      assert DecidedBy(c, rec, tests, owner[t], t);
    }
    if AllPassed(marks, owner) {
      forall t | 0 <= t < tests ensures ExpectationHolds(c, rec, tests, t) {
        assert marks[owner[t]][t] == 1;
      }
    }
  }

  ghost function AllMarks(c: Config, records: seq<PhaseRecord>, tests: nat): (marks: seq<seq<seq<int>>>)
    requires forall i :: 0 <= i < |records| ==> Recorded(c, records[i], tests)
    ensures |marks| == |records| && forall i :: 0 <= i < |marks| ==> |marks[i]| == c.rankCount
  {
    seq(|records|, i requires 0 <= i < |records| => MarksByRank(c, records[i], tests))
  }

  lemma {:induction false} PhaseOwners(c: Config, records: seq<PhaseRecord>, tests: nat) returns (owners: seq<seq<nat>>)
    requires forall i :: 0 <= i < |records| ==> Recorded(c, records[i], tests)
    ensures |owners| == |records|
    ensures forall i :: 0 <= i < |records| ==> PhaseDecidedBy(c, records[i], tests, owners[i])
  {
    if records == [] {
      owners := [];
    } else {
      var front := PhaseOwners(c, records[..|records| - 1], tests);
      var last := PhaseIsExact(c, records[|records| - 1], tests);
      owners := front + [last];
    }
  }

  /** What full_verify adds on each rank. */
  ghost function FullMarks(ranks: seq<Snapshot>): (full: seq<int>)
    requires Snapshots(ranks)
    ensures |full| == |ranks|
  {
    seq(|ranks|, r requires 0 <= r < |ranks| => if FullCheckPasses(ranks, r) then 1 else 0)
  }

  /**
   The verdict: the reduced counter equals the number of tests of all recorded iterations plus the
   number of ranks exactly if every expected rank is the true global rank of its test key (up to
   the slot below the table of the key's owner) and no rank with keys follows an empty rank whose
   key array began with a larger key. `last` is the phase of the final snapshot.
   */
  lemma VerdictIsExact(c: Config, records: seq<PhaseRecord>, tests: nat, last: nat, plan: SortPlan,
                       inputs: seq<seq<int>>, ranks: seq<Snapshot>)
    requires forall i :: 0 <= i < |records| ==> Recorded(c, records[i], tests)
    requires IsSortPhase(c, last, plan) && ExpandedBy(c, last, plan, inputs, ranks)
    ensures forall d :: 0 <= d < c.rankCount ==> 0 < |inputs[d]|
    ensures Sum(FinalCounters(AllMarks(c, records, tests), FullMarks(ranks))) == |records| * tests + c.rankCount
       <==> (forall i :: 0 <= i < |records| ==> PhaseHolds(c, records[i], tests))
            && (forall r :: 0 < r < c.rankCount ==> StaleKeyFits(c, last, inputs, r))
  {
    var owners := PhaseOwners(c, records, tests);
    var marks := AllMarks(c, records, tests);
    forall i | 0 <= i < |records|
      ensures OnlyOwnerPasses(marks[i], tests, owners[i])
      ensures AllPassed(marks[i], owners[i]) <==> PhaseHolds(c, records[i], tests)
    {
      assert PhaseDecidedBy(c, records[i], tests, owners[i]);
    }
    CounterIsExact(marks, FullMarks(ranks), tests, owners);
    forall d | 0 <= d < c.rankCount ensures 0 < |inputs[d]| {
      assert ranks[d].HasRoom();
    }
    forall r | 0 <= r < c.rankCount ensures FullMarks(ranks)[r] == 1 <==> r == 0 || StaleKeyFits(c, last, inputs, r) {
      FullCheckAfterPhase(c, last, plan, inputs, ranks, r);
    }
  }
}
