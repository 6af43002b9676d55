/**
 Every run of the redistribution protocol ends: a state that is not final has an enabled step,
 every step uses up weight, and a run that cannot continue has finished every phase.
 */
module AmProgress {
  import opened Collections
  import opened AmBuffers
  import opened AmProtocol
  import opened AmSafety

  // ---------- the weight of a state ----------

  function Sizes(buffers: Buffers<Key>): (sizes: seq<int>)
    ensures |sizes| == |buffers|
  {
    seq(|buffers|, d requires 0 <= d < |buffers| => |buffers[d]|)
  }

  function StageWeight(c: Config, stage: Stage): nat
  {
    match stage
    case Posting => c.rankCount + 3
    case Flushing(n) => if n <= c.rankCount then c.rankCount + 2 - n else 2
    case Waiting => 1
    case Done => 0
  }

  function ReceiptWeight(receipt: Receipt): nat
  {
    match receipt
    case NoReceipt => 0
    case Receipt(rest, _) => |rest| + 1
  }

  /** The worker's loops of the phases after p. */
  function FutureWeight(c: Config, g: nat, p: nat): nat
    requires forall q :: 0 <= q < |c.phases| ==> g < |c.phases[q].work|
    decreases |c.phases| - p
  {
    if p >= |c.phases| then 0
    else 6 * |c.phases[p].work[g]| + c.rankCount + 4 + FutureWeight(c, g, p + 1)
  }

  function WorkerWeight(c: Config, w: Worker): int
  {
    6 * |w.todo| + 4 * Sum(Sizes(w.buffers)) + StageWeight(c, w.stage) + ReceiptWeight(w.receipt)
  }

  function WorkerWeights(c: Config, s: State): (weights: seq<int>)
    requires Shape(c, s)
    ensures |weights| == |c.home|
  {
    seq(|c.home|, g requires 0 <= g < |c.home| =>
      WorkerWeight(c, s.workers[g]) + FutureWeight(c, g, RankOf(c, s, g).phase))
  }

  function RankWeight(c: Config, rank: Rank): int
  {
    3 * (|c.phases| - rank.phase) + match rank.mode case Idle => 0 case AtBarrier => 2 case Running => 1
  }

  function RankWeights(c: Config, s: State): (weights: seq<int>)
    ensures |weights| == |s.ranks|
  {
    seq(|s.ranks|, r requires 0 <= r < |s.ranks| => RankWeight(c, s.ranks[r]))
  }

  function MessageWeights(network: seq<Message>): (weights: seq<int>)
    ensures |weights| == |network|
  {
    seq(|network|, i requires 0 <= i < |network| => 2 * |network[i].batch| + 1)
  }

  function Weight(c: Config, s: State): int
    requires Shape(c, s)
  {
    Sum(WorkerWeights(c, s)) + Sum(RankWeights(c, s)) + Sum(MessageWeights(s.network))
  }

  lemma SizesNonnegative(buffers: Buffers<Key>)
    ensures Sum(Sizes(buffers)) >= 0
  {
    SumNonnegative(Sizes(buffers));
  }

  lemma WeightNonnegative(c: Config, s: State)
    requires Shape(c, s)
    ensures Weight(c, s) >= 0
  {
    forall g | 0 <= g < |c.home| ensures WorkerWeights(c, s)[g] >= 0 {
      SizesNonnegative(s.workers[g].buffers);
    }
    SumNonnegative(WorkerWeights(c, s));
    SumNonnegative(RankWeights(c, s));
    SumNonnegative(MessageWeights(s.network));
  }

  // ---------- every step uses up weight ----------

  lemma OneWorkerWeight(c: Config, s: State, s': State, g: nat)
    requires Shape(c, s) && WorkerStep(c, s, s', g)
    ensures WorkerWeights(c, s') == WorkerWeights(c, s)[g := WorkerWeights(c, s')[g]]
    ensures RankWeights(c, s') == RankWeights(c, s)
  {
    forall h | 0 <= h < |c.home| && h != g ensures WorkerWeights(c, s')[h] == WorkerWeights(c, s)[h] {
      assert s'.workers[h] == s.workers[h];
      assert RankOf(c, s', h).phase == RankOf(c, s, h).phase;
    }
  }

  /** A step of worker g changes the weight by the worker's and the network's change. */
  lemma WorkerStepWeight(c: Config, s: State, s': State, g: nat)
    requires Shape(c, s) && WorkerStep(c, s, s', g)
    ensures Weight(c, s') - Weight(c, s)
         == WorkerWeight(c, s'.workers[g]) - WorkerWeight(c, s.workers[g])
            + Sum(MessageWeights(s'.network)) - Sum(MessageWeights(s.network))
  {
    OneWorkerWeight(c, s, s', g);
    SumUpdate(WorkerWeights(c, s), g, WorkerWeights(c, s')[g]);
    assert RankOf(c, s', g).phase == RankOf(c, s, g).phase;
  }

  lemma MessageWeightAppend(network: seq<Message>, m: Message)
    ensures Sum(MessageWeights(network + [m])) == Sum(MessageWeights(network)) + 2 * |m.batch| + 1
  {
    assert MessageWeights(network + [m]) == MessageWeights(network) + [2 * |m.batch| + 1];
    SumConcat(MessageWeights(network), [2 * |m.batch| + 1]);
    assert Sum([2 * |m.batch| + 1]) == 2 * |m.batch| + 1;
  }

  lemma MessageWeightsConcat(a: seq<Message>, b: seq<Message>)
    ensures Sum(MessageWeights(a + b)) == Sum(MessageWeights(a)) + Sum(MessageWeights(b))
  {
    assert MessageWeights(a + b) == MessageWeights(a) + MessageWeights(b);
    SumConcat(MessageWeights(a), MessageWeights(b));
  }

  lemma MessageWeightRemove(network: seq<Message>, i: nat)
    requires i < |network|
    ensures Sum(MessageWeights(network[..i] + network[i + 1..]))
         == Sum(MessageWeights(network)) - (2 * |network[i].batch| + 1)
  {
    var rest := network[i + 1..];
    MessageWeightsConcat(network[..i], rest);
    MessageWeightsConcat(network[..i], [network[i]]);
    MessageWeightsConcat(network[..i] + [network[i]], rest);
    assert network == (network[..i] + [network[i]]) + rest;
    assert MessageWeights([network[i]]) == [2 * |network[i].batch| + 1];
    assert Sum([2 * |network[i].batch| + 1]) == 2 * |network[i].batch| + 1;
  }

  lemma BufferWeight(buffers: Buffers<Key>, d: nat, b: seq<Key>)
    requires d < |buffers|
    ensures Sum(Sizes(buffers[d := b])) == Sum(Sizes(buffers)) - |buffers[d]| + |b|
  {
    assert Sizes(buffers[d := b]) == Sizes(buffers)[d := |b|];
    SumUpdate(Sizes(buffers), d, |b|);
  }

  /** Sending a batch from a worker costs at most the weight of its message. */
  lemma SendWeight(c: Config, s: State, g: nat, w: Worker, dst: nat, batch: seq<Key>)
    requires Shape(c, s) && g < |c.home| && |w.buffers| == c.rankCount && w.receipt.NoReceipt? && !s.failed
    ensures var s' := Send(c, WithWorker(s, g, w), g, dst, batch);
            Shape(c, s') && Weight(c, s') - Weight(c, s)
              <= WorkerWeight(c, w) - WorkerWeight(c, s.workers[g]) + if batch == [] then 0 else 2 * |batch| + 1
  {
    var s' := Send(c, WithWorker(s, g, w), g, dst, batch);
    assert s'.workers == s.workers[g := s'.workers[g]];
    assert s'.ranks == s.ranks[c.home[g] := s'.ranks[c.home[g]]];
    WorkerStepWeight(c, s, s', g);
    if batch != [] && !(dst == c.home[g] && c.loopback) {
      MessageWeightAppend(s.network, Message(RankOf(c, s, g).phase, g, dst, batch));
    }
  }

  lemma PostUsesWeight(c: Config, s: State, g: nat)
    requires Inv(c, s) && Enabled(c, s, Post(g))
    ensures Shape(c, DoPost(c, s, g)) && Weight(c, DoPost(c, s, g)) < Weight(c, s)
  {
    var w, dst := s.workers[g], PhaseOf(c, RankOf(c, s, g).phase).route(s.workers[g].todo[0]);
    assert WorkerOk(c, s, g);
    var (buffers, batch) := AfterPost(w.buffers, c.capacity, dst, w.todo[0]);
    BufferWeight(w.buffers, dst, buffers[dst]);
    SendWeight(c, s, g, PostedWorker(w, c.capacity, dst), dst, batch);
  }

  lemma FlushUsesWeight(c: Config, s: State, g: nat)
    requires Inv(c, s) && Enabled(c, s, Flush(g))
    ensures Shape(c, DoFlush(c, s, g)) && Weight(c, DoFlush(c, s, g)) < Weight(c, s)
  {
    var w, dst := s.workers[g], FlushTarget(c.home[g], s.workers[g].stage.next, c.rankCount);
    BufferWeight(w.buffers, dst, []);
    SendWeight(c, s, g, FlushedWorker(w, dst), dst, AfterFlush(w.buffers, dst).1);
  }

  lemma DeliverUsesWeight(c: Config, s: State, g: nat, i: nat)
    requires Inv(c, s) && Enabled(c, s, Deliver(g, i))
    ensures Shape(c, DoDeliver(c, s, g, i)) && Weight(c, DoDeliver(c, s, g, i)) < Weight(c, s)
  {
    var s' := DoDeliver(c, s, g, i);
    assert MessageOk(c, s, s.network[i]);
    MessageWeightRemove(s.network, i);
    assert s'.ranks == s.ranks[c.home[g] := s'.ranks[c.home[g]]];
    WorkerStepWeight(c, s, s', g);
  }

  /** Steps of one worker that leave the network alone. */
  lemma LocalStepUsesWeight(c: Config, s: State, s': State, g: nat)
    requires Inv(c, s) && WorkerStep(c, s, s', g) && s'.network == s.network
    requires WorkerWeight(c, s'.workers[g]) < WorkerWeight(c, s.workers[g])
    ensures Weight(c, s') < Weight(c, s)
  {
    WorkerStepWeight(c, s, s', g);
  }

  lemma StageUsesWeight(c: Config, s: State, g: nat, stage: Stage)
    requires Inv(c, s) && Active(c, s, g)
    requires StageWeight(c, stage) < StageWeight(c, s.workers[g].stage)
    ensures Shape(c, DoStage(s, g, stage)) && Weight(c, DoStage(s, g, stage)) < Weight(c, s)
  {
    var s' := DoStage(s, g, stage);
    assert s'.ranks == s.ranks[c.home[g] := s'.ranks[c.home[g]]];
    LocalStepUsesWeight(c, s, s', g);
  }

  /** Handling a record, completing a batch, and changes of stage. */
  lemma OtherStepsUseWeight(c: Config, s: State, step: Step)
    requires Inv(c, s) && Enabled(c, s, step)
    requires step.EndPosting? || step.EndFlush? || step.Finish? || step.Handle? || step.Complete?
    ensures Shape(c, Apply(c, s, step)) && Weight(c, Apply(c, s, step)) < Weight(c, s)
  {
    match step
    case EndPosting(g) => StageUsesWeight(c, s, g, Flushing(0));
    case EndFlush(g) => StageUsesWeight(c, s, g, Waiting);
    case Finish(g) => StageUsesWeight(c, s, g, Done);
    case Handle(g) => LocalStepUsesWeight(c, s, DoHandle(c, s, g), g);
    case Complete(g) => LocalStepUsesWeight(c, s, DoComplete(c, s, g), g);
  }

  lemma ModeStepUsesWeight(c: Config, s: State, s': State, r: nat)
    requires Shape(c, s) && ModeStep(c, s, s', r)
    requires RankWeight(c, s'.ranks[r]) < RankWeight(c, s.ranks[r])
    ensures Weight(c, s') < Weight(c, s)
  {
    forall g | 0 <= g < |c.home| ensures RankOf(c, s', g).phase == RankOf(c, s, g).phase {
    }
    assert WorkerWeights(c, s') == WorkerWeights(c, s);
    assert RankWeights(c, s') == RankWeights(c, s)[r := RankWeight(c, s'.ranks[r])];
    SumUpdate(RankWeights(c, s), r, RankWeight(c, s'.ranks[r]));
  }

  lemma SetRankWeight(c: Config, s: State, r: nat)
    requires Inv(c, s) && Enabled(c, s, SetHandler(r))
    ensures Sum(RankWeights(c, DoSet(c, s, r))) < Sum(RankWeights(c, s))
  {
    var before, after := RankWeights(c, s), RankWeights(c, DoSet(c, s, r));
    assert after == before[r := after[r]];
    SumUpdate(before, r, after[r]);
  }

  lemma SetWorkerWeight(c: Config, s: State, r: nat, g: nat)
    requires Inv(c, s) && Enabled(c, s, SetHandler(r)) && g < |c.home|
    ensures Shape(c, DoSet(c, s, r)) && WorkerWeights(c, DoSet(c, s, r))[g] <= WorkerWeights(c, s)[g]
  {
    SizesNonnegative(s.workers[g].buffers);
    SumZeros(Sizes(EmptyBuffers(c.rankCount)));
  }

  lemma SetUsesWeight(c: Config, s: State, r: nat)
    requires Inv(c, s) && Enabled(c, s, SetHandler(r))
    ensures Shape(c, DoSet(c, s, r)) && Weight(c, DoSet(c, s, r)) < Weight(c, s)
  {
    var s' := DoSet(c, s, r);
    SetKeepsShape(c, s, r);
    forall g | 0 <= g < |c.home| ensures WorkerWeights(c, s')[g] <= WorkerWeights(c, s)[g] {
      SetWorkerWeight(c, s, r, g);
    }
    SumAtMost(WorkerWeights(c, s'), WorkerWeights(c, s));
    SetRankWeight(c, s, r);
  }

  lemma StepUsesWeight(c: Config, s: State, step: Step)
    requires Inv(c, s) && Enabled(c, s, step)
    ensures Shape(c, Apply(c, s, step)) && Weight(c, Apply(c, s, step)) < Weight(c, s)
  {
    match step
    case SetHandler(r) => SetUsesWeight(c, s, r);
    case LeaveBarrier(r) => ModeStepUsesWeight(c, s, Apply(c, s, step), r);
    case Post(g) => PostUsesWeight(c, s, g);
    case Flush(g) => FlushUsesWeight(c, s, g);
    case ClearHandler(r) =>
      ClearKeepsInv(c, s, r);
      TeamDoneMeansComplete(c, s, r);
      ModeStepUsesWeight(c, s, Apply(c, s, step), r);
    case Deliver(g, i) => DeliverUsesWeight(c, s, g, i);
    case _ => OtherStepsUseWeight(c, s, step);
  }

  /** The length of a run is bounded by the weight of the initial state. */
  lemma {:induction false} RunsAreBounded(c: Config, steps: seq<Step>)
    requires WellFormed(c) && Execute(c, steps).Reached?
    ensures Shape(c, Initial(c)) && Shape(c, Execute(c, steps).state)
    ensures |steps| + Weight(c, Execute(c, steps).state) <= Weight(c, Initial(c))
    ensures |steps| <= Weight(c, Initial(c))
    decreases |steps|
  {
    RunKeepsInv(c, steps);
    WeightNonnegative(c, Execute(c, steps).state);
    if steps == [] {
    } else {
      var before := steps[..|steps| - 1];
      RunsAreBounded(c, before);
      RunKeepsInv(c, before);
      StepUsesWeight(c, Execute(c, before).state, steps[|steps| - 1]);
    }
  }

  // ---------- a state that is not final can go on ----------

  ghost predicate Final(c: Config, s: State)
    requires Shape(c, s)
  {
    forall r :: 0 <= r < c.rankCount ==> s.ranks[r].mode.Idle? && s.ranks[r].phase == |c.phases|
  }

  /**
   Steps the program really takes: a batch is only taken from the network by a worker that is
   polling in its wait loop.
   */
  ghost predicate Genuine(c: Config, s: State, step: Step)
    requires Shape(c, s)
  {
    && Enabled(c, s, step)
    && (step.Deliver? ==> Active(c, s, step.g) && s.workers[step.g].stage.Waiting?)
  }

  /** A worker that is handling a batch, posting or flushing can take its next step. */
  lemma BusyWorkerSteps(c: Config, s: State, g: nat) returns (step: Step)
    requires Inv(c, s) && g < |c.home|
    requires s.workers[g].receipt.Receipt?
          || (Active(c, s, g) && (s.workers[g].stage.Posting? || s.workers[g].stage.Flushing?))
    ensures Genuine(c, s, step)
  {
    var w := s.workers[g];
    if w.receipt.Receipt? {
      step := if w.receipt.rest != [] then Handle(g) else Complete(g);
    } else if w.stage.Posting? {
      step := if w.todo != [] then Post(g) else EndPosting(g);
    } else {
      step := if w.stage.next < c.rankCount then Flush(g) else EndFlush(g);
    }
  }

  ghost predicate NobodyBusy(c: Config, s: State)
    requires Shape(c, s)
  {
    forall g :: 0 <= g < |c.home| ==>
      && s.workers[g].receipt.NoReceipt?
      && (RankOf(c, s, g).mode.Running? ==> s.workers[g].stage.Waiting? || s.workers[g].stage.Done?)
  }

  /** Ranks that stand at a barrier or between phases: the one furthest behind can go on. */
  lemma LaggardSteps(c: Config, s: State, r: nat) returns (step: Step)
    requires Inv(c, s) && NobodyBusy(c, s) && r < c.rankCount
    requires forall q :: 0 <= q < c.rankCount ==> s.ranks[r].phase <= s.ranks[q].phase
    requires s.ranks[r].mode.AtBarrier? || (s.ranks[r].mode.Idle? && s.ranks[r].phase < |c.phases|)
    ensures Genuine(c, s, step)
  {
    step := if s.ranks[r].mode.AtBarrier? then LeaveBarrier(r) else SetHandler(r);
  }

  /** When nobody is busy and nothing is owed to a rank, it has counted everything it expects. */
  lemma NothingOwedMeansCounted(c: Config, s: State, r: nat)
    requires Inv(c, s) && NobodyBusy(c, s) && r < c.rankCount && 0 < s.ranks[r].phase
    requires forall i :: 0 <= i < |s.network| ==> s.network[i].dst != r
    requires forall g :: 0 <= g < |c.home| ==> Outstanding(c, s, g, r, s.ranks[r].phase) == multiset{}
    ensures s.ranks[r].histogram == Total(c, s.ranks[r].phase, r)
    ensures s.ranks[r].recvCount == PhaseOf(c, s.ranks[r].phase).expected[r]
  {
    assert Counted(c, s, r) && Conserved(c, s, r);
    SumZeros(HandledByWorker(c, s, r));
    MSumEmpty(OwedByWorker(c, s, r));
    MSumEmpty(BatchesFor(s.network, r));
    assert multiset{} + (multiset{} + s.ranks[r].histogram) == s.ranks[r].histogram;
  }

  /** A running rank that has not counted all its records is owed one. */
  lemma SomethingIsOwed(c: Config, s: State, r: nat) returns (inNetwork: bool, who: nat)
    requires Inv(c, s) && NobodyBusy(c, s) && r < c.rankCount && s.ranks[r].mode.Running?
    requires s.ranks[r].recvCount < PhaseOf(c, s.ranks[r].phase).expected[r]
    ensures inNetwork ==> who < |s.network| && s.network[who].dst == r
    ensures !inNetwork ==> who < |c.home| && Outstanding(c, s, who, r, s.ranks[r].phase) != multiset{}
  {
    var p := s.ranks[r].phase;
    if i :| 0 <= i < |s.network| && s.network[i].dst == r {
      inNetwork, who := true, i;
    } else if g :| 0 <= g < |c.home| && Outstanding(c, s, g, r, p) != multiset{} {
      inNetwork, who := false, g;
    } else {
      NothingOwedMeansCounted(c, s, r);
      assert false;
    }
  }

  /** When nobody is busy, a worker that still owes records of a running rank's phase stands at the barrier. */
  lemma DebtorAtBarrier(c: Config, s: State, r: nat, g: nat)
    requires Inv(c, s) && NobodyBusy(c, s) && r < c.rankCount && s.ranks[r].mode.Running? && g < |c.home|
    requires Outstanding(c, s, g, r, s.ranks[r].phase) != multiset{}
    ensures RankOf(c, s, g).mode.AtBarrier? && RankOf(c, s, g).phase == s.ranks[r].phase
  {
    assert WorkerOk(c, s, g);
  }

  /** A message for a running rank whose workers have not all left is taken by a worker of its device. */
  lemma WaitingWorkerReceives(c: Config, s: State, r: nat, i: nat) returns (step: Step)
    requires Inv(c, s) && NobodyBusy(c, s) && r < c.rankCount && s.ranks[r].mode.Running?
    requires s.ranks[r].recvCount < PhaseOf(c, s.ranks[r].phase).expected[r]
    requires i < |s.network| && s.network[i].dst == r
    ensures Genuine(c, s, step)
  {
    var m := s.network[i];
    assert MessageOk(c, s, m);
    assert ServedBy(c, r, c.device[m.sender]);
    var h :| 0 <= h < |c.home| && c.home[h] == r && c.device[h] == c.device[m.sender];
    assert WorkerOk(c, s, h);
    step := Deliver(h, i);
  }

  /** Somebody who owes a record to a running rank can go on, or the rank can take it from the network. */
  lemma OwedRecordMoves(c: Config, s: State, r: nat) returns (step: Step)
    requires Inv(c, s) && NobodyBusy(c, s) && r < c.rankCount && s.ranks[r].mode.Running?
    requires s.ranks[r].recvCount < PhaseOf(c, s.ranks[r].phase).expected[r]
    requires forall q :: 0 <= q < c.rankCount ==> s.ranks[r].phase <= s.ranks[q].phase
    ensures Genuine(c, s, step)
  {
    var inNetwork, who := SomethingIsOwed(c, s, r);
    if inNetwork {
      step := WaitingWorkerReceives(c, s, r, who);
    } else {
      DebtorAtBarrier(c, s, r, who);
      step := LeaveBarrier(c.home[who]);
    }
  }

  /** A running rank whose workers all wait can go on, or somebody who owes it a record can. */
  lemma WaitingRankSteps(c: Config, s: State, r: nat) returns (step: Step)
    requires Inv(c, s) && NobodyBusy(c, s) && r < c.rankCount && s.ranks[r].mode.Running?
    requires forall q :: 0 <= q < c.rankCount ==> s.ranks[r].phase <= s.ranks[q].phase
    ensures Genuine(c, s, step)
  {
    if TeamDone(c, s, r) {
      step := ClearHandler(r);
    } else if s.ranks[r].recvCount >= PhaseOf(c, s.ranks[r].phase).expected[r] {
      var g :| 0 <= g < |c.home| && c.home[g] == r && !s.workers[g].stage.Done?;
      step := Finish(g);
    } else {
      step := OwedRecordMoves(c, s, r);
    }
  }

  /** A rank in the lowest phase. */
  lemma {:induction false} Laggard(c: Config, s: State, n: nat) returns (r: nat)
    requires Shape(c, s) && 0 < n <= c.rankCount
    ensures r < n && forall q :: 0 <= q < n ==> s.ranks[r].phase <= s.ranks[q].phase
  {
    if n == 1 {
      r := 0;
    } else {
      r := Laggard(c, s, n - 1);
      if s.ranks[n - 1].phase < s.ranks[r].phase {
        r := n - 1;
      }
    }
  }

  /** No deadlock: a state that is not final has a step the program can take. */
  lemma Progress(c: Config, s: State) returns (step: Step)
    requires Inv(c, s) && !Final(c, s)
    ensures Genuine(c, s, step)
  {
    if !NobodyBusy(c, s) {
      var g :| 0 <= g < |c.home|
               && !(s.workers[g].receipt.NoReceipt?
                    && (RankOf(c, s, g).mode.Running? ==> s.workers[g].stage.Waiting? || s.workers[g].stage.Done?));
      step := BusyWorkerSteps(c, s, g);
    } else {
      var r := Laggard(c, s, c.rankCount);
      if s.ranks[r].mode.Running? {
        step := WaitingRankSteps(c, s, r);
      } else if s.ranks[r].mode.AtBarrier? || s.ranks[r].phase < |c.phases| {
        step := LaggardSteps(c, s, r);
      } else {
        var q :| 0 <= q < c.rankCount && !(s.ranks[q].mode.Idle? && s.ranks[q].phase == |c.phases|);
        if s.ranks[q].mode.Running? {
          step := WaitingRankSteps(c, s, q);
        } else {
          step := LaggardSteps(c, s, q);
        }
      }
    }
  }

  lemma FirstMessage(network: seq<Message>) returns (i: nat)
    ensures network == [] || (i < |network| && network[i] in network)
  {
    i := 0;
  }

  lemma NothingInFlightBetweenPhases(c: Config, s: State)
    requires Shape(c, s) && MessagesOk(c, s) && forall r :: 0 <= r < c.rankCount ==> s.ranks[r].mode.Idle?
    ensures s.network == []
  {
    var i := FirstMessage(s.network);
  }

  /** A final state: every rank holds the records of its last phase and nothing is left anywhere. */
  lemma FinalMeansComplete(c: Config, s: State, d: nat)
    requires Inv(c, s) && Final(c, s) && d < c.rankCount && |c.phases| > 0
    ensures s.ranks[d].histogram == Total(c, |c.phases|, d)
    ensures s.ranks[d].recvCount == PhaseOf(c, |c.phases|).expected[d]
    ensures s.network == []
    ensures forall g :: 0 <= g < |c.home| ==> s.workers[g].todo == [] && NothingBuffered(s.workers[g].buffers)
  {
    forall g | 0 <= g < |c.home| ensures s.workers[g].todo == [] && NothingBuffered(s.workers[g].buffers) {
      assert WorkerOk(c, s, g);
    }
    NothingInFlightBetweenPhases(c, s);
    forall g | 0 <= g < |c.home| ensures Outstanding(c, s, g, d, |c.phases|) == multiset{} {
      assert PastCleared(c, s, d, |c.phases|);
    }
    forall g | 0 <= g < |c.home| ensures s.workers[g].receipt.NoReceipt? {
      assert WorkerOk(c, s, g);
    }
    NothingOwedMeansCounted(c, s, d);
  }

  lemma StepExtendsRun(c: Config, steps: seq<Step>, step: Step)
    requires Execute(c, steps).Reached? && Shape(c, Execute(c, steps).state)
    requires Enabled(c, Execute(c, steps).state, step)
    ensures Execute(c, steps + [step]).Reached?
  {
    assert (steps + [step])[..|steps + [step]| - 1] == steps;
  }

  /** A run that no step continues. */
  ghost predicate Maximal(c: Config, steps: seq<Step>)
  {
    && Execute(c, steps).Reached?
    && forall step :: Execute(c, steps + [step]).Blocked?
  }

  /**
   A run that cannot be continued has completed every phase: every rank is between phases after
   the last one, with exactly the records sent to it in its histogram and every buffer empty.
   */
  lemma MaximalRunsComplete(c: Config, steps: seq<Step>, d: nat)
    requires WellFormed(c) && Maximal(c, steps) && d < c.rankCount && |c.phases| > 0
    ensures var s := Execute(c, steps).state;
            && Shape(c, s) && Final(c, s) && s.network == []
            && s.ranks[d].histogram == Total(c, |c.phases|, d)
            && d < |PhaseOf(c, |c.phases|).expected| && s.ranks[d].recvCount == PhaseOf(c, |c.phases|).expected[d]
            && forall g :: 0 <= g < |c.home| ==> NothingBuffered(s.workers[g].buffers)
  {
    RunKeepsInv(c, steps);
    var s := Execute(c, steps).state;
    if !Final(c, s) {
      var step := Progress(c, s);
      StepExtendsRun(c, steps, step);
    }
    FinalMeansComplete(c, s, d);
  }

  /** In a final state nobody can take a step. */
  lemma FinalIsBlocked(c: Config, s: State, step: Step)
    requires Inv(c, s) && Final(c, s)
    ensures !Enabled(c, s, step)
  {
    NothingInFlightBetweenPhases(c, s);
    if (step.Handle? || step.Complete?) && step.g < |c.home| {
      assert WorkerOk(c, s, step.g);
    }
  }

  /** The steps `rest` continue the run, and the program can really take each of them. */
  ghost predicate Continues(c: Config, steps: seq<Step>, rest: seq<Step>)
    decreases |rest|
  {
    rest != [] ==>
      && Execute(c, steps).Reached? && Shape(c, Execute(c, steps).state)
      && Genuine(c, Execute(c, steps).state, rest[0]) && Continues(c, steps + [rest[0]], rest[1..])
  }

  lemma FinalRunIsMaximal(c: Config, steps: seq<Step>)
    requires WellFormed(c) && Execute(c, steps).Reached? && Shape(c, Execute(c, steps).state)
    requires Final(c, Execute(c, steps).state)
    ensures Maximal(c, steps)
  {
    RunKeepsInv(c, steps);
    forall step ensures Execute(c, steps + [step]).Blocked? {
      FinalIsBlocked(c, Execute(c, steps).state, step);
      assert (steps + [step])[..|steps|] == steps;
    }
  }

  /** A run is maximal, or the program can take one more step. */
  lemma NextStep(c: Config, steps: seq<Step>) returns (step: Step)
    requires WellFormed(c) && Execute(c, steps).Reached? && !Maximal(c, steps)
    ensures Shape(c, Execute(c, steps).state) && Genuine(c, Execute(c, steps).state, step)
  {
    RunKeepsInv(c, steps);
    if Final(c, Execute(c, steps).state) {
      FinalRunIsMaximal(c, steps);
    }
    step := Progress(c, Execute(c, steps).state);
  }

  lemma OneStepMore(c: Config, steps: seq<Step>, rest: seq<Step>)
    requires rest != [] && Execute(c, steps).Reached? && Shape(c, Execute(c, steps).state)
    requires Genuine(c, Execute(c, steps).state, rest[0]) && Continues(c, steps + [rest[0]], rest[1..])
    ensures Continues(c, steps, rest)
  {
  }

  /** No run is longer. */
  ghost predicate LongestRun(c: Config, bound: int)
  {
    forall steps :: Execute(c, steps).Reached? ==> |steps| <= bound
  }

  lemma {:induction false} RunExtends(c: Config, steps: seq<Step>, bound: int) returns (rest: seq<Step>)
    requires WellFormed(c) && LongestRun(c, bound) && Execute(c, steps).Reached?
    ensures Continues(c, steps, rest) && Maximal(c, steps + rest)
    decreases bound - |steps|
  {
    if Maximal(c, steps) {
      rest := [];
      assert steps + rest == steps;
    } else {
      var step := NextStep(c, steps);
      StepExtendsRun(c, steps, step);
      assert |steps + [step]| <= bound;
      var more := RunExtends(c, steps + [step], bound);
      rest := [step] + more;
      assert rest[1..] == more;
      OneStepMore(c, steps, rest);
      ConcatAssociative(steps, [step], more);
    }
  }

  /** Every run can be continued, by steps the program really takes, to one that cannot go on. */
  lemma EveryRunExtends(c: Config, steps: seq<Step>) returns (rest: seq<Step>)
    requires WellFormed(c) && Execute(c, steps).Reached?
    ensures Continues(c, steps, rest) && Maximal(c, steps + rest)
  {
    InitialInv(c);
    forall run | Execute(c, run).Reached? ensures |run| <= Weight(c, Initial(c)) {
      RunsAreBounded(c, run);
    }
    rest := RunExtends(c, steps, Weight(c, Initial(c)));
  }
}
