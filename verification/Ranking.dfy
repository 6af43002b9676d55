/**
 The two-pass multithreaded prefix sum. Between two barriers any unfinished thread may take
 the next step: the scheduler's choice is the arbitrary value picked at the top of each loop.
 */
module Ranking {
  import opened Collections

  /** A static schedule: one contiguous chunk of iterations per thread, in thread order. */
  datatype Schedule = Schedule(begin: seq<nat>, end: seq<nat>) {
    function Threads(): nat { |begin| }

    ghost predicate Covers(range: nat)
    {
      && 0 < |begin| == |end|
      && begin[0] == 0 && end[|end| - 1] == range
      && (forall t :: 0 <= t < |begin| ==> begin[t] <= end[t] <= range)
      && (forall t :: 0 < t < |begin| ==> begin[t] == end[t - 1])
      && (forall t, u :: 0 <= t < u < |begin| ==> end[t] <= begin[u])
    }
  }

  lemma {:induction false} ChunkOf(chunks: Schedule, range: nat, n: nat, i: nat) returns (owner: nat)
    requires chunks.Covers(range) && 0 < n <= chunks.Threads() && i < chunks.end[n - 1]
    ensures owner < n && chunks.begin[owner] <= i < chunks.end[owner]
  {
    if chunks.begin[n - 1] <= i {
      owner := n - 1;
    } else {
      owner := ChunkOf(chunks, range, n - 1, i);
    }
  }

  /** The steps a thread has left: its iterations and the arrival at the barrier. */
  function StepsLeft(chunks: Schedule, pos: seq<nat>, arrived: seq<bool>): (steps: seq<int>)
    requires |chunks.end| == |pos| && |arrived| == |pos|
    ensures |steps| == |pos|
  {
    seq(|pos|, t requires 0 <= t < |pos| => chunks.end[t] as int - pos[t] + if arrived[t] then 0 else 1)
  }

  /** One step of thread t leaves one step less in total. */
  lemma StepTaken(chunks: Schedule, pos: seq<nat>, arrived: seq<bool>, pos': seq<nat>, arrived': seq<bool>, t: nat)
    requires |chunks.end| == |pos| && |arrived| == |pos| && t < |pos|
    requires (pos' == pos[t := pos[t] + 1] && arrived' == arrived)
          || (pos' == pos && !arrived[t] && arrived' == arrived[t := true])
    ensures Sum(StepsLeft(chunks, pos', arrived')) == Sum(StepsLeft(chunks, pos, arrived)) - 1
  {
    var before, after := StepsLeft(chunks, pos, arrived), StepsLeft(chunks, pos', arrived');
    assert after == before[t := before[t] - 1];
    SumUpdate(before, t, before[t] - 1);
  }

  lemma StepsRemain(chunks: Schedule, pos: seq<nat>, arrived: seq<bool>)
    requires |chunks.end| == |pos| && |arrived| == |pos|
    requires forall t :: 0 <= t < |pos| ==> pos[t] <= chunks.end[t]
    ensures Sum(StepsLeft(chunks, pos, arrived)) >= 0
  {
    SumNonnegative(StepsLeft(chunks, pos, arrived));
  }

  /** Every thread is inside its own chunk. */
  ghost predicate InChunks(chunks: Schedule, range: nat, pos: seq<nat>)
  {
    && chunks.Covers(range) && |pos| == chunks.Threads()
    && forall t :: 0 <= t < |pos| ==> chunks.begin[t] <= pos[t] <= chunks.end[t] <= range
  }

  /** The sum of f[lo], ..., f[hi - 1]. */
  function RangeSum(f: seq<int>, lo: nat, hi: nat): int
    requires lo <= hi <= |f|
  {
    Prefix(f, hi) - Prefix(f, lo)
  }

  /** Each private sum covers the part of the thread's chunk behind its position. */
  ghost predicate Summing(f: seq<int>, chunks: Schedule, pos: seq<nat>, localSum: seq<int>)
  {
    && InChunks(chunks, |f|, pos) && |localSum| == |pos|
    && forall t :: 0 <= t < |pos| ==> localSum[t] == RangeSum(f, chunks.begin[t], pos[t])
  }

  function ChunkSum(f: seq<int>, chunks: Schedule, t: nat): int
    requires t < |chunks.begin| && t < |chunks.end| && chunks.begin[t] <= chunks.end[t] <= |f|
  {
    RangeSum(f, chunks.begin[t], chunks.end[t])
  }

  /** The chunk sums of the threads at the barrier are in place. */
  ghost predicate Posted(f: seq<int>, chunks: Schedule, arrived: seq<bool>, partialSums: seq<int>)
  {
    && chunks.Covers(|f|) && |arrived| == |partialSums| == chunks.Threads()
    && forall t :: 0 <= t < |arrived| && arrived[t] ==> partialSums[t] == ChunkSum(f, chunks, t)
  }

  /** The state of the first pass. */
  ghost predicate FirstPass(f: seq<int>, chunks: Schedule, pos: seq<nat>, localSum: seq<int>,
                            arrived: seq<bool>, partialSums: seq<int>)
  {
    Summing(f, chunks, pos, localSum) && Posted(f, chunks, arrived, partialSums)
  }

  lemma NothingSummed(f: seq<int>, chunks: Schedule, partialSums: seq<int>)
    requires chunks.Covers(|f|) && |partialSums| == chunks.Threads()
    ensures FirstPass(f, chunks, chunks.begin, seq(chunks.Threads(), _ => 0), seq(chunks.Threads(), _ => false),
                      partialSums)
  {
  }

  lemma SumOneKey(f: seq<int>, chunks: Schedule, pos: seq<nat>, localSum: seq<int>,
                  arrived: seq<bool>, partialSums: seq<int>, t: nat)
    requires FirstPass(f, chunks, pos, localSum, arrived, partialSums) && t < |pos| && pos[t] < chunks.end[t]
    ensures FirstPass(f, chunks, pos[t := pos[t] + 1], localSum[t := localSum[t] + f[pos[t]]], arrived, partialSums)
  {
    SumStep(f, pos[t]);
    var pos', localSum' := pos[t := pos[t] + 1], localSum[t := localSum[t] + f[pos[t]]];
    forall u | 0 <= u < |pos|
      ensures chunks.begin[u] <= pos'[u] <= chunks.end[u] <= |f|
      ensures localSum'[u] == RangeSum(f, chunks.begin[u], pos'[u])
    {
      assert localSum[u] == RangeSum(f, chunks.begin[u], pos[u]);
    }
  }

  lemma PostSum(f: seq<int>, chunks: Schedule, pos: seq<nat>, localSum: seq<int>,
                arrived: seq<bool>, partialSums: seq<int>, t: nat)
    requires FirstPass(f, chunks, pos, localSum, arrived, partialSums) && t < |pos| && pos[t] == chunks.end[t]
    ensures FirstPass(f, chunks, pos, localSum, arrived[t := true], partialSums[t := localSum[t]])
  {
  }

  lemma FirstPassDone(f: seq<int>, chunks: Schedule, pos: seq<nat>, localSum: seq<int>,
                      arrived: seq<bool>, partialSums: seq<int>)
    requires FirstPass(f, chunks, pos, localSum, arrived, partialSums)
    requires forall t :: 0 <= t < |arrived| ==> arrived[t]
    ensures forall t :: 0 <= t < |partialSums| ==> partialSums[t] == ChunkSum(f, chunks, t)
  {
  }

  /** The next step of thread t in the first pass: one more iteration, or the arrival at the barrier. */
  method SumOrArrive(frequency: array<int>, range: nat, partialSums: array<int>, chunks: Schedule,
                     pos: seq<nat>, localSum: seq<int>, arrived: seq<bool>, t: nat)
    returns (pos': seq<nat>, localSum': seq<int>, arrived': seq<bool>)
    requires frequency != partialSums && range <= frequency.Length
    requires FirstPass(frequency[..range], chunks, pos, localSum, arrived, partialSums[..])
    requires t < |pos| && !arrived[t]
    modifies partialSums
    ensures |pos'| == |arrived'| == |pos|
    ensures FirstPass(frequency[..range], chunks, pos', localSum', arrived', partialSums[..])
    ensures Sum(StepsLeft(chunks, pos', arrived')) == Sum(StepsLeft(chunks, pos, arrived)) - 1
  {
    ghost var f, sums := frequency[..range], partialSums[..];
    pos', localSum', arrived' := pos, localSum, arrived;
    if pos[t] < chunks.end[t] {
      SumOneKey(f, chunks, pos, localSum, arrived, sums, t);
      StepTaken(chunks, pos, arrived, pos[t := pos[t] + 1], arrived, t);
      localSum' := localSum[t := localSum[t] + frequency[pos[t]]];
      pos' := pos[t := pos[t] + 1];
    } else {
      PostSum(f, chunks, pos, localSum, arrived, sums, t);
      StepTaken(chunks, pos, arrived, pos, arrived[t := true], t);
      partialSums[t] := localSum[t];
      arrived' := arrived[t := true];
      assert partialSums[..] == sums[t := localSum[t]];
    }
  }

  /** First pass: every thread sums its chunk and stores the sum, then waits at the barrier. */
  method SumChunks(frequency: array<int>, range: nat, partialSums: array<int>, chunks: Schedule)
    requires frequency != partialSums && range <= frequency.Length
    requires chunks.Covers(range) && partialSums.Length == chunks.Threads()
    modifies partialSums
    ensures forall t :: 0 <= t < |partialSums[..]| ==> partialSums[..][t] == ChunkSum(frequency[..range], chunks, t)
  {
    ghost var f := frequency[..range];
    var n := chunks.Threads();
    var pos, localSum, arrived := chunks.begin, seq(n, _ => 0), seq(n, _ => false);
    NothingSummed(f, chunks, partialSums[..]);
    while exists t :: 0 <= t < n && !arrived[t]
      invariant |pos| == |arrived| == n && frequency[..range] == f
      invariant FirstPass(f, chunks, pos, localSum, arrived, partialSums[..])
      decreases Sum(StepsLeft(chunks, pos, arrived))
    {
      StepsRemain(chunks, pos, arrived);
      var t :| 0 <= t < n && !arrived[t];
      pos, localSum, arrived := SumOrArrive(frequency, range, partialSums, chunks, pos, localSum, arrived, t);
    }
    FirstPassDone(f, chunks, pos, localSum, arrived, partialSums[..]);
  }

  /** The chunk sums up to thread i are replaced by the sums of everything before the chunk. */
  ghost predicate Scanned(f: seq<int>, chunks: Schedule, partialSums: seq<int>, i: nat)
  {
    && chunks.Covers(|f|) && |partialSums| == chunks.Threads() && i <= |partialSums|
    && (forall t :: 0 <= t < i ==> partialSums[t] == RangeSum(f, 0, chunks.begin[t]))
    && (forall t :: i <= t < |partialSums| ==> partialSums[t] == ChunkSum(f, chunks, t))
  }

  lemma ScanStep(f: seq<int>, chunks: Schedule, partialSums: seq<int>, i: nat, tempSum: int)
    requires Scanned(f, chunks, partialSums, i) && i < |partialSums| && tempSum == RangeSum(f, 0, chunks.begin[i])
    ensures Scanned(f, chunks, partialSums[i := tempSum], i + 1)
    ensures tempSum + partialSums[i] == RangeSum(f, 0, chunks.end[i])
  {
  }

  /** The single section: an exclusive scan of the chunk sums, in place. */
  method ScanPartialSums(partialSums: array<int>, chunks: Schedule, ghost f: seq<int>)
    requires chunks.Covers(|f|) && partialSums.Length == chunks.Threads()
    requires forall t :: 0 <= t < partialSums.Length ==> partialSums[t] == ChunkSum(f, chunks, t)
    modifies partialSums
    ensures forall t :: 0 <= t < partialSums.Length ==> partialSums[t] == RangeSum(f, 0, chunks.begin[t])
  {
    var tempSum := 0;
    for i := 0 to partialSums.Length
      invariant i < partialSums.Length ==> tempSum == RangeSum(f, 0, chunks.begin[i])
      invariant Scanned(f, chunks, partialSums[..], i)
    {
      ScanStep(f, chunks, partialSums[..], i, tempSum);
      var value := partialSums[i];
      partialSums[i] := tempSum;
      tempSum := tempSum + value;
    }
    assert forall t :: 0 <= t < partialSums.Length ==> partialSums[..][t] == RangeSum(f, 0, chunks.begin[t]);
  }

  /** Each private offset is the inclusive prefix sum at the thread's position. */
  ghost predicate Continuing(f: seq<int>, chunks: Schedule, pos: seq<nat>, offset: seq<int>)
  {
    && InChunks(chunks, |f|, pos) && |offset| == |pos|
    && forall t :: 0 <= t < |pos| ==> offset[t] == RangeSum(f, 0, pos[t])
  }

  /** The ranks stored so far: everything behind each thread's position. */
  ghost predicate Stored(f: seq<int>, chunks: Schedule, pos: seq<nat>, ranks: seq<int>)
    requires InChunks(chunks, |f|, pos) && |f| <= |ranks|
  {
    forall t, i :: 0 <= t < |pos| && chunks.begin[t] <= i < pos[t] ==> ranks[i] == RangeSum(f, 0, i + 1)
  }

  /** The state of the second pass. */
  ghost predicate SecondPass(f: seq<int>, chunks: Schedule, pos: seq<nat>, offset: seq<int>,
                             arrived: seq<bool>, ranks: seq<int>)
  {
    && Continuing(f, chunks, pos, offset) && |arrived| == |pos| && |f| <= |ranks| && Stored(f, chunks, pos, ranks)
    && forall t :: 0 <= t < |pos| && arrived[t] ==> pos[t] == chunks.end[t]
  }

  lemma AdvanceRank(f: seq<int>, chunks: Schedule, pos: seq<nat>, offset: seq<int>, t: nat)
    requires Continuing(f, chunks, pos, offset) && t < |pos| && pos[t] < chunks.end[t]
    ensures pos[t] < |f| && offset[t] + f[pos[t]] == RangeSum(f, 0, pos[t] + 1)
    ensures Continuing(f, chunks, pos[t := pos[t] + 1], offset[t := offset[t] + f[pos[t]]])
  {
    SumStep(f, pos[t]);
    var pos', offset' := pos[t := pos[t] + 1], offset[t := offset[t] + f[pos[t]]];
    forall u | 0 <= u < |pos|
      ensures chunks.begin[u] <= pos'[u] <= chunks.end[u] <= |f| && offset'[u] == RangeSum(f, 0, pos'[u])
    {
      assert offset[u] == RangeSum(f, 0, pos[u]);
    }
  }

  lemma ExtendStored(f: seq<int>, chunks: Schedule, pos: seq<nat>, ranks: seq<int>, t: nat)
    requires InChunks(chunks, |f|, pos) && |f| <= |ranks| && Stored(f, chunks, pos, ranks)
    requires t < |pos| && pos[t] < chunks.end[t]
    ensures InChunks(chunks, |f|, pos[t := pos[t] + 1])
    ensures Stored(f, chunks, pos[t := pos[t] + 1], ranks[pos[t] := RangeSum(f, 0, pos[t] + 1)])
  {
  }

  lemma StoreRank(f: seq<int>, chunks: Schedule, pos: seq<nat>, offset: seq<int>, arrived: seq<bool>,
                  ranks: seq<int>, t: nat)
    requires SecondPass(f, chunks, pos, offset, arrived, ranks) && t < |pos| && pos[t] < chunks.end[t]
    ensures pos[t] < |f|
    ensures SecondPass(f, chunks, pos[t := pos[t] + 1], offset[t := offset[t] + f[pos[t]]], arrived,
                       ranks[pos[t] := offset[t] + f[pos[t]]])
  {
    AdvanceRank(f, chunks, pos, offset, t);
    ExtendStored(f, chunks, pos, ranks, t);
  }

  lemma ArriveAtEnd(f: seq<int>, chunks: Schedule, pos: seq<nat>, offset: seq<int>, arrived: seq<bool>,
                    ranks: seq<int>, t: nat)
    requires SecondPass(f, chunks, pos, offset, arrived, ranks) && t < |pos| && pos[t] == chunks.end[t]
    ensures SecondPass(f, chunks, pos, offset, arrived[t := true], ranks)
  {
  }

  lemma EveryRankStored(f: seq<int>, chunks: Schedule, pos: seq<nat>, offset: seq<int>, arrived: seq<bool>,
                        ranks: seq<int>)
    requires SecondPass(f, chunks, pos, offset, arrived, ranks)
    requires forall t :: 0 <= t < |arrived| ==> arrived[t]
    ensures forall i :: 0 <= i < |f| ==> ranks[i] == RangeSum(f, 0, i + 1)
  {
    forall i | 0 <= i < |f| ensures ranks[i] == RangeSum(f, 0, i + 1) {
      var t := ChunkOf(chunks, |f|, |pos|, i);
    }
  }

  /** One iteration of thread t in the second pass. */
  method RankOneKey(frequency: array<int>, range: nat, cumulative: array<int>, chunks: Schedule,
                    pos: seq<nat>, offset: seq<int>, t: nat, ghost arrived: seq<bool>)
    returns (pos': seq<nat>, offset': seq<int>)
    requires range <= frequency.Length && range <= cumulative.Length && cumulative != frequency
    requires SecondPass(frequency[..range], chunks, pos, offset, arrived, cumulative[..])
    requires t < |pos| && pos[t] < chunks.end[t]
    modifies cumulative
    ensures pos' == pos[t := pos[t] + 1]
    ensures SecondPass(frequency[..range], chunks, pos', offset', arrived, cumulative[..])
    ensures cumulative[..][range..] == old(cumulative[..])[range..]
  {
    StoreRank(frequency[..range], chunks, pos, offset, arrived, cumulative[..], t);
    ghost var ranks := cumulative[..];
    var rank := offset[t] + frequency[pos[t]];
    cumulative[pos[t]] := rank;
    pos', offset' := pos[t := pos[t] + 1], offset[t := rank];
    assert cumulative[..] == ranks[pos[t] := rank];
  }

  /** Second pass: every thread continues from its offset and stores the running sums of its chunk. */
  method StoreRanks(frequency: array<int>, range: nat, cumulative: array<int>, partialSums: array<int>,
                    chunks: Schedule)
    requires range <= frequency.Length && range <= cumulative.Length
    requires cumulative != frequency && cumulative != partialSums
    requires chunks.Covers(range) && partialSums.Length == chunks.Threads()
    requires forall t :: 0 <= t < partialSums.Length ==>
               partialSums[t] == RangeSum(frequency[..range], 0, chunks.begin[t])
    modifies cumulative
    ensures forall i :: 0 <= i < range ==> cumulative[..][i] == RangeSum(frequency[..range], 0, i + 1)
    ensures cumulative[..][range..] == old(cumulative[..])[range..]
  {
    ghost var f := frequency[..range];
    var n := chunks.Threads();
    var pos, offset, arrived := chunks.begin, partialSums[..], seq(n, _ => false);
    while exists t :: 0 <= t < n && !arrived[t]
      invariant |pos| == |arrived| == n && frequency[..range] == f
      invariant SecondPass(f, chunks, pos, offset, arrived, cumulative[..])
      invariant cumulative[..][range..] == old(cumulative[..])[range..]
      decreases Sum(StepsLeft(chunks, pos, arrived))
    {
      StepsRemain(chunks, pos, arrived);
      var t :| 0 <= t < n && !arrived[t];
      if pos[t] < chunks.end[t] {
        StepTaken(chunks, pos, arrived, pos[t := pos[t] + 1], arrived, t);
        pos, offset := RankOneKey(frequency, range, cumulative, chunks, pos, offset, t, arrived);
      } else {
        StepTaken(chunks, pos, arrived, pos, arrived[t := true], t);
        ArriveAtEnd(f, chunks, pos, offset, arrived, cumulative[..], t);
        arrived := arrived[t := true];
      }
    }
    EveryRankStored(f, chunks, pos, offset, arrived, cumulative[..]);
  }

  /**
   compute_local_ranks: for every team size, static schedule and interleaving, the cumulative
   ranks are the inclusive prefix sums of the frequencies. Both arrays are the rank's work
   storage; the slot of a key is key - minKey.
   */
  method ComputeLocalRanks(frequency: array<int>, cumulative: array<int>, minKey: int, maxKey: int, chunks: Schedule)
    requires frequency != cumulative && minKey <= maxKey + 1
    requires maxKey - minKey + 1 <= frequency.Length && maxKey - minKey + 1 <= cumulative.Length
    requires chunks.Covers(maxKey - minKey + 1)
    modifies cumulative
    ensures forall i :: 0 <= i < maxKey - minKey + 1 ==>
              cumulative[..][i] == Prefix(frequency[..maxKey - minKey + 1], i + 1)
    ensures cumulative[..][maxKey - minKey + 1..] == old(cumulative[..])[maxKey - minKey + 1..]
  {
    var range := maxKey - minKey + 1;
    var partialSums := new int[chunks.Threads()];
    SumChunks(frequency, range, partialSums, chunks);
    assert forall t :: 0 <= t < partialSums.Length ==> partialSums[..][t] == partialSums[t];
    ScanPartialSums(partialSums, chunks, frequency[..range]);
    StoreRanks(frequency, range, cumulative, partialSums, chunks);
  }
}
