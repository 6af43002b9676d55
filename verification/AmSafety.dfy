/**
 What every reachable state of the redistribution protocol satisfies: conservation of records,
 isolation of phases, and safety of the purely local completion test.
 */
module AmSafety {
  import opened Collections
  import opened AmBuffers
  import opened AmProtocol

  // ---------- where records are ----------

  /** The records of a sequence that go to rank d. */
  function DestinedTo(keys: seq<Key>, route: Key -> nat, d: nat): multiset<Key>
  {
    if keys == [] then multiset{}
    else (if route(keys[0]) == d then multiset{keys[0]} else multiset{}) + DestinedTo(keys[1..], route, d)
  }

  /** What each worker sends to rank d in phase p. */
  function WorkFor(c: Config, p: nat, d: nat): (work: seq<multiset<Key>>)
    requires 0 < p <= |c.phases| && |c.phases[p - 1].work| == |c.home|
    ensures |work| == |c.home|
  {
    seq(|c.home|, g requires 0 <= g < |c.home| => DestinedTo(PhaseOf(c, p).work[g], PhaseOf(c, p).route, d))
  }

  /** Everything phase p sends to rank d, from all workers of all ranks. */
  function Total(c: Config, p: nat, d: nat): multiset<Key>
    requires 0 < p <= |c.phases| && |c.phases[p - 1].work| == |c.home|
  {
    MSum(WorkFor(c, p, d))
  }

  /** Records of worker g for d that are not posted, or posted into a buffer that is not sent. */
  function Held(c: Config, s: State, g: nat, d: nat): multiset<Key>
    requires Shape(c, s) && g < |c.home| && d < c.rankCount
  {
    if RankOf(c, s, g).phase == 0 then multiset{}
    else DestinedTo(s.workers[g].todo, PhaseOf(c, RankOf(c, s, g).phase).route, d) + multiset(s.workers[g].buffers[d])
  }

  /** Records worker g still has to send to d in phase p, also when its rank has not reached p. */
  function Outstanding(c: Config, s: State, g: nat, d: nat, p: nat): multiset<Key>
    requires Shape(c, s) && g < |c.home| && d < c.rankCount && 0 < p <= |c.phases|
  {
    if RankOf(c, s, g).phase < p then DestinedTo(PhaseOf(c, p).work[g], PhaseOf(c, p).route, d)
    else if RankOf(c, s, g).phase == p then Held(c, s, g, d)
    else multiset{}
  }

  /** Records of a batch that worker g has taken for d and not yet handed to the handler. */
  function HalfHandled(c: Config, s: State, g: nat, d: nat): multiset<Key>
    requires Shape(c, s) && g < |c.home|
  {
    if c.home[g] == d && s.workers[g].receipt.Receipt? then multiset(s.workers[g].receipt.rest) else multiset{}
  }

  function Owed(c: Config, s: State, g: nat, d: nat): multiset<Key>
    requires Shape(c, s) && g < |c.home| && d < c.rankCount && 0 < s.ranks[d].phase
  {
    Outstanding(c, s, g, d, s.ranks[d].phase) + HalfHandled(c, s, g, d)
  }

  function OwedByWorker(c: Config, s: State, d: nat): (owed: seq<multiset<Key>>)
    requires Shape(c, s) && d < c.rankCount && 0 < s.ranks[d].phase
    ensures |owed| == |c.home|
  {
    seq(|c.home|, g requires 0 <= g < |c.home| => Owed(c, s, g, d))
  }

  function BatchesFor(network: seq<Message>, d: nat): (batches: seq<multiset<Key>>)
    ensures |batches| == |network|
  {
    seq(|network|, i requires 0 <= i < |network| =>
      if network[i].dst == d then multiset(network[i].batch) else multiset{})
  }

  function InFlight(s: State, d: nat): multiset<Key>
  {
    MSum(BatchesFor(s.network, d))
  }

  /** Records for d that are in the network or handled. */
  function Arriving(s: State, d: nat): multiset<Key>
    requires d < |s.ranks|
  {
    InFlight(s, d) + s.ranks[d].histogram
  }

  /** Records handled by worker g in the batch it is working on. */
  function HandledInBatch(c: Config, s: State, g: nat, d: nat): int
    requires Shape(c, s) && g < |c.home|
  {
    if c.home[g] == d && s.workers[g].receipt.Receipt?
    then s.workers[g].receipt.total - |s.workers[g].receipt.rest| else 0
  }

  function HandledByWorker(c: Config, s: State, d: nat): (handled: seq<int>)
    requires Shape(c, s)
    ensures |handled| == |c.home|
  {
    seq(|c.home|, g requires 0 <= g < |c.home| => HandledInBatch(c, s, g, d))
  }

  // ---------- the program the ranks run ----------

  ghost predicate ServedBy(c: Config, d: nat, device: nat)
    requires |c.home| == |c.device|
  {
    exists g :: 0 <= g < |c.home| && c.home[g] == d && c.device[g] == device
  }

  /**
   Records have destinations, every rank waits for exactly the records sent to it, and every
   rank has a worker on every device a message can arrive on.
   */
  ghost predicate WellFormed(c: Config)
  {
    && c.rankCount > 0 && c.capacity > 0 && |c.home| == |c.device|
    && (forall g :: 0 <= g < |c.home| ==> c.home[g] < c.rankCount)
    && (forall d :: 0 <= d < c.rankCount ==> d in c.home)
    && (forall p :: 0 <= p < |c.phases| ==>
          |c.phases[p].work| == |c.home| && |c.phases[p].expected| == c.rankCount)
    && (forall p, g, k :: 0 <= p < |c.phases| && 0 <= g < |c.home| && k in c.phases[p].work[g] ==>
          c.phases[p].route(k) < c.rankCount)
    && (forall p, d :: 0 < p <= |c.phases| && 0 <= d < c.rankCount ==>
          PhaseOf(c, p).expected[d] == |Total(c, p, d)|)
    && (forall d, g :: 0 <= d < c.rankCount && 0 <= g < |c.home| ==> ServedBy(c, d, c.device[g]))
  }

  // ---------- the invariant ----------

  ghost predicate PhasesOrdered(c: Config, s: State)
    requires Shape(c, s)
  {
    && (forall r, q :: 0 <= r < c.rankCount && 0 <= q < c.rankCount ==> s.ranks[r].phase <= s.ranks[q].phase + 1)
    && (forall r, q :: 0 <= r < c.rankCount && 0 <= q < c.rankCount && s.ranks[r].mode != AtBarrier ==>
          s.ranks[r].phase <= s.ranks[q].phase)
  }

  /** The destinations a flushing worker has already visited are empty. */
  ghost predicate Flushed(c: Config, w: Worker, g: nat, n: nat)
    requires g < |c.home| && c.home[g] < c.rankCount && |w.buffers| == c.rankCount && n <= c.rankCount
  {
    forall i :: 0 <= i < n ==> w.buffers[FlushTarget(c.home[g], i, c.rankCount)] == []
  }

  ghost predicate RunningWorkerOk(c: Config, s: State, g: nat)
    requires Shape(c, s) && g < |c.home| && c.rankCount > 0 && RankOf(c, s, g).phase > 0
  {
    var w, ph := s.workers[g], PhaseOf(c, RankOf(c, s, g).phase);
    && (forall k :: k in w.todo ==> ph.route(k) < c.rankCount)
    && BelowCapacity(w.buffers, c.capacity)
    && (!w.stage.Posting? ==> w.todo == [])
    && match w.stage
       case Posting => true
       case Flushing(n) => n <= c.rankCount && Flushed(c, w, g, n)
       case Waiting => NothingBuffered(w.buffers)
       case Done => NothingBuffered(w.buffers) && RankOf(c, s, g).recvCount >= ph.expected[c.home[g]]
  }

  ghost predicate WorkerOk(c: Config, s: State, g: nat)
    requires Shape(c, s) && g < |c.home| && c.rankCount > 0
  {
    var w := s.workers[g];
    && (w.receipt.Receipt? ==> |w.receipt.rest| <= w.receipt.total)
    && match RankOf(c, s, g).mode
       case Idle => w.todo == [] && NothingBuffered(w.buffers) && w.receipt.NoReceipt?
       case AtBarrier =>
         w.stage.Posting? && w.todo == PhaseOf(c, RankOf(c, s, g).phase).work[g] && NothingBuffered(w.buffers)
       case Running => RunningWorkerOk(c, s, g)
  }

  ghost predicate WorkersOk(c: Config, s: State)
    requires Shape(c, s) && c.rankCount > 0
  {
    forall g :: 0 <= g < |c.home| ==> WorkerOk(c, s, g)
  }

  /** A message in flight finds its destination registered in the message's own phase. */
  ghost predicate MessageOk(c: Config, s: State, m: Message)
    requires Shape(c, s)
  {
    && m.dst < c.rankCount && m.sender < |c.home| && m.batch != []
    && s.ranks[m.dst].phase == m.phase && s.ranks[m.dst].mode != Idle
  }

  ghost predicate MessagesOk(c: Config, s: State)
    requires Shape(c, s)
  {
    forall i :: 0 <= i < |s.network| ==> MessageOk(c, s, s.network[i])
  }

  /** recv_count plus the handled part of the open batches is the size of the histogram. */
  ghost predicate Counted(c: Config, s: State, d: nat)
    requires Shape(c, s) && d < c.rankCount
  {
    |s.ranks[d].histogram| == s.ranks[d].recvCount + Sum(HandledByWorker(c, s, d))
  }

  /** No record of rank d's current phase is lost or duplicated. */
  ghost predicate Conserved(c: Config, s: State, d: nat)
    requires Shape(c, s) && d < c.rankCount
  {
    0 < s.ranks[d].phase ==>
      MSum(OwedByWorker(c, s, d)) + Arriving(s, d) == Total(c, s.ranks[d].phase, d)
  }

  /** Once rank d has left phase p, nobody has a record of phase p for it. */
  ghost predicate PastCleared(c: Config, s: State, d: nat, p: nat)
    requires Shape(c, s) && d < c.rankCount && 0 < p <= |c.phases|
  {
    p < s.ranks[d].phase || (p == s.ranks[d].phase && s.ranks[d].mode.Idle?) ==>
      forall g :: 0 <= g < |c.home| ==> Outstanding(c, s, g, d, p) == multiset{}
  }

  ghost predicate Inv(c: Config, s: State)
  {
    && WellFormed(c) && Shape(c, s) && !s.failed
    && PhasesOrdered(c, s) && WorkersOk(c, s) && MessagesOk(c, s)
    && (forall d :: 0 <= d < c.rankCount ==> Counted(c, s, d) && Conserved(c, s, d))
    && (forall d, p :: 0 <= d < c.rankCount && 0 < p <= |c.phases| ==> PastCleared(c, s, d, p))
  }

  // ---------- worker steps ----------

  /** Only worker g, the network, and the counters of g's rank may have changed. */
  ghost predicate WorkerStep(c: Config, s: State, s': State, g: nat)
    requires Shape(c, s)
  {
    && g < |c.home| && Shape(c, s') && !s'.failed
    && s'.workers == s.workers[g := s'.workers[g]]
    && s'.ranks == s.ranks[c.home[g] := s'.ranks[c.home[g]]]
    && s'.ranks[c.home[g]].phase == s.ranks[c.home[g]].phase && s'.ranks[c.home[g]].mode == s.ranks[c.home[g]].mode
    && s'.ranks[c.home[g]].recvCount >= s.ranks[c.home[g]].recvCount
  }

  /** The records for d that a step of worker g can move. */
  function Movable(c: Config, s: State, g: nat, d: nat): multiset<Key>
    requires Shape(c, s) && g < |c.home| && d < c.rankCount
  {
    Held(c, s, g, d) + (HalfHandled(c, s, g, d) + Arriving(s, d))
  }

  /** The step moves records for d only forward, and only in d's own phase, and keeps the count right. */
  ghost predicate MovesFor(c: Config, s: State, s': State, g: nat, d: nat)
    requires Shape(c, s) && Shape(c, s') && g < |c.home| && d < c.rankCount
  {
    && Held(c, s', g, d) <= Held(c, s, g, d)
    && Movable(c, s', g, d) == Movable(c, s, g, d)
    && (s.ranks[d].phase != RankOf(c, s, g).phase ==> Held(c, s', g, d) == Held(c, s, g, d))
    && |s'.ranks[d].histogram| - s'.ranks[d].recvCount - HandledInBatch(c, s', g, d)
       == |s.ranks[d].histogram| - s.ranks[d].recvCount - HandledInBatch(c, s, g, d)
  }

  lemma CountedAfter(c: Config, s: State, s': State, g: nat, d: nat)
    requires Shape(c, s) && WorkerStep(c, s, s', g) && d < c.rankCount
    requires Counted(c, s, d) && MovesFor(c, s, s', g, d)
    ensures Counted(c, s', d)
  {
    var before, after := HandledByWorker(c, s, d), HandledByWorker(c, s', d);
    assert after == before[g := HandledInBatch(c, s', g, d)];
    SumUpdate(before, g, HandledInBatch(c, s', g, d));
  }

  lemma OtherStillOwes(c: Config, s: State, s': State, g: nat, h: nat, d: nat)
    requires Shape(c, s) && WorkerStep(c, s, s', g) && d < c.rankCount && 0 < s.ranks[d].phase
    requires h < |c.home| && h != g
    ensures 0 < s'.ranks[d].phase && Owed(c, s', h, d) == Owed(c, s, h, d)
  {
    assert s'.workers[h] == s.workers[h];
    assert RankOf(c, s', h).phase == RankOf(c, s, h).phase;
  }

  lemma OwedAfter(c: Config, s: State, s': State, g: nat, d: nat)
    requires Shape(c, s) && WorkerStep(c, s, s', g) && d < c.rankCount && 0 < s.ranks[d].phase
    ensures OwedByWorker(c, s', d) == OwedByWorker(c, s, d)[g := Owed(c, s', g, d)]
  {
    forall h | 0 <= h < |c.home| && h != g ensures Owed(c, s', h, d) == Owed(c, s, h, d) {
      OtherStillOwes(c, s, s', g, h, d);
    }
  }

  lemma LocalBalance(c: Config, s: State, s': State, g: nat, d: nat)
    requires Shape(c, s) && WorkerStep(c, s, s', g) && d < c.rankCount && 0 < s.ranks[d].phase
    requires MovesFor(c, s, s', g, d)
    ensures Owed(c, s', g, d) + Arriving(s', d) == Owed(c, s, g, d) + Arriving(s, d)
  {
    var p := s.ranks[d].phase;
    var rest, rest' := HalfHandled(c, s, g, d) + Arriving(s, d), HalfHandled(c, s', g, d) + Arriving(s', d);
    assert Owed(c, s, g, d) + Arriving(s, d) == Outstanding(c, s, g, d, p) + rest;
    assert Owed(c, s', g, d) + Arriving(s', d) == Outstanding(c, s', g, d, p) + rest';
    if RankOf(c, s, g).phase != p {
      Cancel(Held(c, s, g, d), rest, rest');
    }
  }

  lemma Rebalance(sum: multiset<Key>, part: multiset<Key>, rest: multiset<Key>,
                  sum': multiset<Key>, part': multiset<Key>, rest': multiset<Key>)
    requires sum' + part == sum + part' && part' + rest' == part + rest
    ensures sum' + rest' == sum + rest
  {
    forall k ensures (sum' + rest')[k] == (sum + rest)[k] {
      assert (sum' + part)[k] == (sum + part')[k];
      assert (part' + rest')[k] == (part + rest)[k];
    }
  }

  lemma ConservedAfter(c: Config, s: State, s': State, g: nat, d: nat)
    requires Shape(c, s) && WorkerStep(c, s, s', g) && d < c.rankCount
    requires Conserved(c, s, d) && MovesFor(c, s, s', g, d)
    ensures Conserved(c, s', d)
  {
    if 0 < s.ranks[d].phase {
      OwedAfter(c, s, s', g, d);
      MSumUpdate(OwedByWorker(c, s, d), g, Owed(c, s', g, d));
      LocalBalance(c, s, s', g, d);
      Rebalance(MSum(OwedByWorker(c, s, d)), Owed(c, s, g, d), Arriving(s, d),
                MSum(OwedByWorker(c, s', d)), Owed(c, s', g, d), Arriving(s', d));
    }
  }

  lemma PastClearedAfter(c: Config, s: State, s': State, g: nat, d: nat, p: nat)
    requires Shape(c, s) && WorkerStep(c, s, s', g) && d < c.rankCount && 0 < p <= |c.phases|
    requires PastCleared(c, s, d, p) && MovesFor(c, s, s', g, d)
    ensures PastCleared(c, s', d, p)
  {
    if p < s.ranks[d].phase || (p == s.ranks[d].phase && s.ranks[d].mode.Idle?) {
      forall h | 0 <= h < |c.home| ensures Outstanding(c, s', h, d, p) == multiset{} {
        assert Outstanding(c, s, h, d, p) == multiset{};
        assert RankOf(c, s', h).phase == RankOf(c, s, h).phase;
        if h != g {
          assert s'.workers[h] == s.workers[h];
        }
      }
    }
  }

  /** A worker step that moves records correctly keeps the invariant. */
  lemma WorkerStepKeepsInv(c: Config, s: State, s': State, g: nat)
    requires Inv(c, s) && WorkerStep(c, s, s', g)
    requires WorkerOk(c, s', g) && MessagesOk(c, s')
    requires forall d :: 0 <= d < c.rankCount ==> MovesFor(c, s, s', g, d)
    ensures Inv(c, s')
  {
    forall h | 0 <= h < |c.home| ensures WorkerOk(c, s', h) {
      assert WorkerOk(c, s, h);
      if h != g {
        assert s'.workers[h] == s.workers[h];
      }
    }
    forall d | 0 <= d < c.rankCount ensures Counted(c, s', d) && Conserved(c, s', d) {
      assert MovesFor(c, s, s', g, d);
      CountedAfter(c, s, s', g, d);
      ConservedAfter(c, s, s', g, d);
    }
    forall d, p | 0 <= d < c.rankCount && 0 < p <= |c.phases| ensures PastCleared(c, s', d, p) {
      assert MovesFor(c, s, s', g, d);
      PastClearedAfter(c, s, s', g, d, p);
    }
  }

  // ---------- each kind of worker step ----------

  lemma InFlightAppend(network: seq<Message>, m: Message, d: nat)
    ensures MSum(BatchesFor(network + [m], d))
         == MSum(BatchesFor(network, d)) + if m.dst == d then multiset(m.batch) else multiset{}
  {
    var last := if m.dst == d then multiset(m.batch) else multiset{};
    assert BatchesFor(network + [m], d) == BatchesFor(network, d) + [last];
    MSumConcat(BatchesFor(network, d), [last]);
    assert MSum([last]) == last;
  }

  lemma InFlightConcat(a: seq<Message>, b: seq<Message>, d: nat)
    ensures MSum(BatchesFor(a + b, d)) == MSum(BatchesFor(a, d)) + MSum(BatchesFor(b, d))
  {
    assert BatchesFor(a + b, d) == BatchesFor(a, d) + BatchesFor(b, d);
    MSumConcat(BatchesFor(a, d), BatchesFor(b, d));
  }

  lemma InFlightRemove(network: seq<Message>, i: nat, d: nat)
    requires i < |network|
    ensures MSum(BatchesFor(network, d))
         == MSum(BatchesFor(network[..i] + network[i + 1..], d))
            + if network[i].dst == d then multiset(network[i].batch) else multiset{}
  {
    var front, m, back := network[..i], network[i], network[i + 1..];
    assert network == (front + [m]) + back;
    InFlightConcat(front + [m], back, d);
    InFlightAppend(front, m, d);
    InFlightConcat(front, back, d);
    SwapLast(MSum(BatchesFor(front, d)), if m.dst == d then multiset(m.batch) else multiset{},
             MSum(BatchesFor(back, d)));
  }

  /** A rank that is still owed a record of the phase of a running rank is in that phase. */
  lemma DestinationListens(c: Config, s: State, g: nat, d: nat)
    requires Inv(c, s) && Active(c, s, g) && d < c.rankCount
    requires Held(c, s, g, d) != multiset{}
    ensures s.ranks[d].phase == RankOf(c, s, g).phase && s.ranks[d].mode != Idle
  {
    var p := RankOf(c, s, g).phase;
    assert PastCleared(c, s, d, p);
    assert Outstanding(c, s, g, d, p) == Held(c, s, g, d);
  }

  /** What leaves the buffers towards dst, seen by rank d. */
  function Sent(batch: seq<Key>, dst: nat, d: nat): multiset<Key>
  {
    if d == dst then multiset(batch) else multiset{}
  }

  /** The worker moves a batch out of its buffers: the premise of every send. */
  ghost predicate TakesOut(c: Config, s: State, g: nat, w: Worker, dst: nat, batch: seq<Key>)
    requires Shape(c, s)
  {
    && Active(c, s, g) && dst < c.rankCount && |w.buffers| == c.rankCount && w.receipt.NoReceipt?
    && Shape(c, WithWorker(s, g, w))
    && forall d :: 0 <= d < c.rankCount ==>
         Held(c, s, g, d) == Held(c, WithWorker(s, g, w), g, d) + Sent(batch, dst, d)
  }

  /** The batch shows up at the own receiver or in the network. */
  lemma SentArrives(c: Config, s: State, g: nat, w: Worker, dst: nat, batch: seq<Key>, d: nat)
    requires Shape(c, s) && TakesOut(c, s, g, w, dst, batch) && d < c.rankCount
    ensures var s' := Send(c, WithWorker(s, g, w), g, dst, batch);
            && Shape(c, s') && s'.ranks == s.ranks
            && Held(c, s', g, d) == Held(c, WithWorker(s, g, w), g, d)
            && HalfHandled(c, s', g, d) + InFlight(s', d) == Sent(batch, dst, d) + InFlight(s, d)
            && HalfHandled(c, s, g, d) == multiset{} && HandledInBatch(c, s', g, d) == 0
  {
    if batch != [] && !(dst == c.home[g] && c.loopback) {
      InFlightAppend(s.network, Message(RankOf(c, s, g).phase, g, dst, batch), d);
    }
  }

  /** A rank to which a record leaves the buffers is in the sender's phase. */
  lemma SentOnlyInPhase(c: Config, s: State, g: nat, w: Worker, dst: nat, batch: seq<Key>)
    requires Inv(c, s) && TakesOut(c, s, g, w, dst, batch) && batch != []
    ensures s.ranks[dst].phase == RankOf(c, s, g).phase && s.ranks[dst].mode != Idle
  {
    assert Held(c, s, g, dst) == Held(c, WithWorker(s, g, w), g, dst) + Sent(batch, dst, dst);
    assert batch[0] in multiset(batch);
    assert batch[0] in Held(c, s, g, dst);
    DestinationListens(c, s, g, dst);
  }

  lemma RegroupSent(held: multiset<Key>, held': multiset<Key>, half': multiset<Key>, flying': multiset<Key>,
                    sent: multiset<Key>, flying: multiset<Key>, hist: multiset<Key>)
    requires held == held' + sent && half' + flying' == sent + flying
    ensures held' + (half' + (flying' + hist)) == held + (multiset{} + (flying + hist))
  {
    assert held' + (half' + (flying' + hist)) == held' + ((half' + flying') + hist);
    assert held' + ((sent + flying) + hist) == (held' + sent) + (flying + hist);
  }

  lemma SendMovesFor(c: Config, s: State, g: nat, w: Worker, dst: nat, batch: seq<Key>, d: nat)
    requires Inv(c, s) && TakesOut(c, s, g, w, dst, batch) && d < c.rankCount
    ensures Shape(c, Send(c, WithWorker(s, g, w), g, dst, batch))
    ensures MovesFor(c, s, Send(c, WithWorker(s, g, w), g, dst, batch), g, d)
  {
    SentArrives(c, s, g, w, dst, batch, d);
    var s' := Send(c, WithWorker(s, g, w), g, dst, batch);
    RegroupSent(Held(c, s, g, d), Held(c, s', g, d), HalfHandled(c, s', g, d), InFlight(s', d),
                Sent(batch, dst, d), InFlight(s, d), s.ranks[d].histogram);
    if d == dst && batch != [] {
      SentOnlyInPhase(c, s, g, w, dst, batch);
    } else {
      assert Sent(batch, dst, d) == multiset{};
    }
  }

  lemma MessagesStayOk(c: Config, s: State, s': State, g: nat)
    requires Shape(c, s) && WorkerStep(c, s, s', g) && MessagesOk(c, s)
    requires forall i :: 0 <= i < |s'.network| ==> s'.network[i] in s.network || MessageOk(c, s, s'.network[i])
    ensures MessagesOk(c, s')
  {
    forall i | 0 <= i < |s'.network| ensures MessageOk(c, s', s'.network[i]) {
      assert MessageOk(c, s, s'.network[i]);
    }
  }

  lemma SendIsWorkerStep(c: Config, s: State, g: nat, w: Worker, dst: nat, batch: seq<Key>)
    requires Shape(c, s) && !s.failed && g < |c.home| && Shape(c, WithWorker(s, g, w))
    ensures WorkerStep(c, s, Send(c, WithWorker(s, g, w), g, dst, batch), g)
  {
    var s' := Send(c, WithWorker(s, g, w), g, dst, batch);
    assert s'.workers == s.workers[g := s'.workers[g]];
    assert s'.ranks == s.ranks[c.home[g] := s'.ranks[c.home[g]]];
  }

  lemma SentMessagesOk(c: Config, s: State, g: nat, w: Worker, dst: nat, batch: seq<Key>)
    requires Inv(c, s) && TakesOut(c, s, g, w, dst, batch)
    ensures Shape(c, Send(c, WithWorker(s, g, w), g, dst, batch))
    ensures MessagesOk(c, Send(c, WithWorker(s, g, w), g, dst, batch))
  {
    if batch != [] {
      SentOnlyInPhase(c, s, g, w, dst, batch);
    }
    SendIsWorkerStep(c, s, g, w, dst, batch);
    MessagesStayOk(c, s, Send(c, WithWorker(s, g, w), g, dst, batch), g);
  }

  lemma SendKeepsInv(c: Config, s: State, g: nat, w: Worker, dst: nat, batch: seq<Key>)
    requires Inv(c, s) && TakesOut(c, s, g, w, dst, batch)
    requires WorkerOk(c, WithWorker(s, g, w), g)
    ensures Inv(c, Send(c, WithWorker(s, g, w), g, dst, batch))
  {
    var s' := Send(c, WithWorker(s, g, w), g, dst, batch);
    SendIsWorkerStep(c, s, g, w, dst, batch);
    SentMessagesOk(c, s, g, w, dst, batch);
    forall d | 0 <= d < c.rankCount ensures MovesFor(c, s, s', g, d) {
      SendMovesFor(c, s, g, w, dst, batch, d);
    }
    WorkerStepKeepsInv(c, s, s', g);
  }

  lemma MoveOne(todo: multiset<Key>, one: multiset<Key>, buffered: multiset<Key>)
    ensures (one + todo) + buffered == (todo + (buffered + one)) + multiset{}
    ensures (one + todo) + buffered == (todo + multiset{}) + (buffered + one)
  {
  }

  /** One record leaves the loop and enters a buffer, or a full buffer leaves with it. */
  lemma PostMovesOne(w: Worker, capacity: nat, route: Key -> nat, dst: nat, d: nat)
    requires w.todo != [] && d < |w.buffers| && dst == route(w.todo[0]) && dst < |w.buffers|
    ensures var w' := PostedWorker(w, capacity, dst);
            DestinedTo(w.todo, route, d) + multiset(w.buffers[d])
            == (DestinedTo(w'.todo, route, d) + multiset(w'.buffers[d]))
               + Sent(AfterPost(w.buffers, capacity, dst, w.todo[0]).1, dst, d)
  {
    var k := w.todo[0];
    var one: multiset<Key> := if dst == d then multiset{k} else multiset{};
    assert DestinedTo(w.todo, route, d) == one + DestinedTo(w.todo[1..], route, d);
    MoveOne(DestinedTo(w.todo[1..], route, d), one, multiset(w.buffers[d]));
    if dst == d {
      assert multiset(w.buffers[d] + [k]) == multiset(w.buffers[d]) + one;
    } else {
      assert multiset(w.buffers[d]) + one == multiset(w.buffers[d]);
    }
  }

  lemma PostTakesOut(c: Config, s: State, g: nat, dst: nat)
    requires Inv(c, s) && Enabled(c, s, Post(g))
    requires dst == PhaseOf(c, RankOf(c, s, g).phase).route(s.workers[g].todo[0])
    ensures dst < c.rankCount
    ensures var w := s.workers[g];
            TakesOut(c, s, g, PostedWorker(w, c.capacity, dst), dst,
                     AfterPost(w.buffers, c.capacity, dst, w.todo[0]).1)
  {
    var w := s.workers[g];
    assert WorkerOk(c, s, g);
    assert RunningWorkerOk(c, s, g);
    var k := w.todo[0];
    assert k in w.todo;
    assert PhaseOf(c, RankOf(c, s, g).phase).route(k) < c.rankCount;
    assert dst < c.rankCount;
    var s1 := WithWorker(s, g, PostedWorker(w, c.capacity, dst));
    var batch := AfterPost(w.buffers, c.capacity, dst, w.todo[0]).1;
    forall d | 0 <= d < c.rankCount
      ensures Held(c, s, g, d) == Held(c, s1, g, d) + Sent(batch, dst, d)
    {
      PostMovesOne(w, c.capacity, PhaseOf(c, RankOf(c, s, g).phase).route, dst, d);
    }
  }

  lemma PostKeepsInv(c: Config, s: State, g: nat)
    requires Inv(c, s) && Enabled(c, s, Post(g))
    ensures Inv(c, DoPost(c, s, g))
  {
    var w, dst := s.workers[g], PhaseOf(c, RankOf(c, s, g).phase).route(s.workers[g].todo[0]);
    PostTakesOut(c, s, g, dst);
    assert WorkerOk(c, WithWorker(s, g, PostedWorker(w, c.capacity, dst)), g) by {
      assert WorkerOk(c, s, g);
    }
    SendKeepsInv(c, s, g, PostedWorker(w, c.capacity, dst), dst,
                 AfterPost(w.buffers, c.capacity, dst, w.todo[0]).1);
  }

  /** A destination's buffer leaves as it is. */
  lemma FlushTakesOut(c: Config, s: State, g: nat, dst: nat)
    requires Inv(c, s) && Enabled(c, s, Flush(g)) && dst == FlushTarget(c.home[g], s.workers[g].stage.next, c.rankCount)
    ensures TakesOut(c, s, g, FlushedWorker(s.workers[g], dst), dst, AfterFlush(s.workers[g].buffers, dst).1)
  {
    var w := s.workers[g];
    var s1, batch := WithWorker(s, g, FlushedWorker(w, dst)), AfterFlush(w.buffers, dst).1;
    forall d | 0 <= d < c.rankCount
      ensures Held(c, s, g, d) == Held(c, s1, g, d) + Sent(batch, dst, d)
    {
    }
  }

  lemma FlushKeepsInv(c: Config, s: State, g: nat)
    requires Inv(c, s) && Enabled(c, s, Flush(g))
    ensures Inv(c, DoFlush(c, s, g))
  {
    var w, dst := s.workers[g], FlushTarget(c.home[g], s.workers[g].stage.next, c.rankCount);
    FlushTakesOut(c, s, g, dst);
    assert WorkerOk(c, WithWorker(s, g, FlushedWorker(w, dst)), g) by {
      assert WorkerOk(c, s, g);
    }
    SendKeepsInv(c, s, g, FlushedWorker(w, dst), dst, AfterFlush(w.buffers, dst).1);
  }

  /** The flush order reaches every destination. */
  lemma FlushOrderCovers(c: Config, w: Worker, g: nat)
    requires g < |c.home| && c.home[g] < c.rankCount && |w.buffers| == c.rankCount
    requires Flushed(c, w, g, c.rankCount)
    ensures NothingBuffered(w.buffers)
  {
    forall d | 0 <= d < c.rankCount ensures w.buffers[d] == [] {
      assert FlushTarget(c.home[g], Turn(c.home[g], d, c.rankCount), c.rankCount) == d;
    }
  }

  /** A step that only changes the worker's stage. */
  lemma StageKeepsInv(c: Config, s: State, g: nat, stage: Stage)
    requires Inv(c, s) && Active(c, s, g) && WorkerOk(c, DoStage(s, g, stage), g)
    ensures Inv(c, DoStage(s, g, stage))
  {
    var s' := DoStage(s, g, stage);
    assert s'.ranks == s.ranks[c.home[g] := s'.ranks[c.home[g]]];
    MessagesStayOk(c, s, s', g);
    WorkerStepKeepsInv(c, s, s', g);
  }

  lemma StagesKeepInv(c: Config, s: State, step: Step)
    requires Inv(c, s) && Enabled(c, s, step) && (step.EndPosting? || step.EndFlush? || step.Finish?)
    ensures Inv(c, Apply(c, s, step))
  {
    var g := step.g;
    assert WorkerOk(c, s, g);
    match step
    case EndPosting(_) => StageKeepsInv(c, s, g, Flushing(0));
    case EndFlush(_) =>
      FlushOrderCovers(c, s.workers[g], g);
      StageKeepsInv(c, s, g, Waiting);
    case Finish(_) => StageKeepsInv(c, s, g, Done);
  }

  /** A batch moves from the network into the hands of a free worker. */
  lemma RegroupDelivered(batch: multiset<Key>, flying: multiset<Key>, flying': multiset<Key>, hist: multiset<Key>)
    requires flying == flying' + batch
    ensures batch + (flying' + hist) == multiset{} + (flying + hist)
  {
  }

  lemma DeliverMoves(c: Config, s: State, g: nat, i: nat, d: nat)
    requires Shape(c, s) && Enabled(c, s, Deliver(g, i)) && d < c.rankCount
    requires !RankOf(c, s, g).mode.Idle? && s.network[i].batch != []
    ensures Shape(c, DoDeliver(c, s, g, i)) && MovesFor(c, s, DoDeliver(c, s, g, i), g, d)
  {
    var s', batch := DoDeliver(c, s, g, i), s.network[i].batch;
    assert Held(c, s', g, d) == Held(c, s, g, d);
    assert HalfHandled(c, s', g, d) + Arriving(s', d) == HalfHandled(c, s, g, d) + Arriving(s, d) by {
      InFlightRemove(s.network, i, d);
      if d == c.home[g] {
        RegroupDelivered(multiset(batch), InFlight(s, d), InFlight(s', d), s.ranks[d].histogram);
      }
    }
  }

  lemma DeliverKeepsInv(c: Config, s: State, g: nat, i: nat)
    requires Inv(c, s) && Enabled(c, s, Deliver(g, i))
    ensures Inv(c, DoDeliver(c, s, g, i))
  {
    assert MessageOk(c, s, s.network[i]);
    assert WorkerOk(c, s, g);
    var s' := DoDeliver(c, s, g, i);
    assert s'.ranks == s.ranks[c.home[g] := s'.ranks[c.home[g]]];
    forall d | 0 <= d < c.rankCount ensures MovesFor(c, s, s', g, d) {
      DeliverMoves(c, s, g, i, d);
    }
    MessagesStayOk(c, s, s', g);
    WorkerStepKeepsInv(c, s, s', g);
  }

  lemma RegroupHandled(rest: seq<Key>, flying: multiset<Key>, hist: multiset<Key>)
    requires rest != []
    ensures multiset(rest[1..]) + (flying + (hist + multiset{rest[0]})) == multiset(rest) + (flying + hist)
    ensures flying + hist == multiset{} + (flying + hist)
  {
    assert rest == [rest[0]] + rest[1..];
    assert multiset(rest) == multiset{rest[0]} + multiset(rest[1..]);
  }

  /** Another rank sees nothing of a handler invocation. */
  lemma HandleElsewhere(c: Config, s: State, g: nat, d: nat)
    requires Shape(c, s) && Enabled(c, s, Handle(g)) && d < c.rankCount && d != c.home[g]
    ensures Shape(c, DoHandle(c, s, g)) && MovesFor(c, s, DoHandle(c, s, g), g, d)
  {
    var s' := DoHandle(c, s, g);
    assert s'.ranks[d] == s.ranks[d];
    assert Held(c, s', g, d) == Held(c, s, g, d) && Arriving(s', d) == Arriving(s, d);
  }

  /** On the handling rank one record moves from the open batch into the histogram. */
  lemma HandleHere(c: Config, s: State, g: nat)
    requires Shape(c, s) && Enabled(c, s, Handle(g))
    ensures Shape(c, DoHandle(c, s, g)) && MovesFor(c, s, DoHandle(c, s, g), g, c.home[g])
  {
    var s', d, rest := DoHandle(c, s, g), c.home[g], s.workers[g].receipt.rest;
    assert Held(c, s', g, d) == Held(c, s, g, d);
    assert HalfHandled(c, s', g, d) + Arriving(s', d) == HalfHandled(c, s, g, d) + Arriving(s, d) by {
      RegroupHandled(rest, InFlight(s, d), s.ranks[d].histogram);
      assert Arriving(s', d) == InFlight(s, d) + (s.ranks[d].histogram + multiset{rest[0]});
    }
    assert |s'.ranks[d].histogram| == |s.ranks[d].histogram| + 1;
    assert HandledInBatch(c, s', g, d) == HandledInBatch(c, s, g, d) + 1;
  }

  lemma HandleMovesFor(c: Config, s: State, g: nat, d: nat)
    requires Inv(c, s) && Enabled(c, s, Handle(g)) && d < c.rankCount
    ensures Shape(c, DoHandle(c, s, g)) && MovesFor(c, s, DoHandle(c, s, g), g, d)
  {
    if d == c.home[g] {
      HandleHere(c, s, g);
    } else {
      HandleElsewhere(c, s, g, d);
    }
  }

  lemma HandleKeepsInv(c: Config, s: State, g: nat)
    requires Inv(c, s) && Enabled(c, s, Handle(g))
    ensures Inv(c, DoHandle(c, s, g))
  {
    assert WorkerOk(c, s, g);
    var s' := DoHandle(c, s, g);
    forall d | 0 <= d < c.rankCount ensures MovesFor(c, s, s', g, d) {
      HandleMovesFor(c, s, g, d);
    }
    MessagesStayOk(c, s, s', g);
    WorkerStepKeepsInv(c, s, s', g);
  }

  lemma CompleteKeepsInv(c: Config, s: State, g: nat)
    requires Inv(c, s) && Enabled(c, s, Complete(g))
    ensures Inv(c, DoComplete(c, s, g))
  {
    assert WorkerOk(c, s, g);
    var s' := DoComplete(c, s, g);
    forall d | 0 <= d < c.rankCount ensures MovesFor(c, s, s', g, d) {
      assert HalfHandled(c, s', g, d) + Arriving(s', d) == HalfHandled(c, s, g, d) + Arriving(s, d);
    }
    MessagesStayOk(c, s, s', g);
    WorkerStepKeepsInv(c, s, s', g);
  }

  // ---------- the local completion test ----------

  /** Nothing of rank d's current phase is left anywhere outside its histogram. */
  ghost predicate NothingLeftFor(c: Config, s: State, d: nat)
    requires Shape(c, s) && d < c.rankCount && 0 < s.ranks[d].phase
  {
    && (forall g :: 0 <= g < |c.home| ==>
          Outstanding(c, s, g, d, s.ranks[d].phase) == multiset{} && HalfHandled(c, s, g, d) == multiset{})
    && (forall i :: 0 <= i < |s.network| ==> s.network[i].dst != d)
    && s.ranks[d].histogram == Total(c, s.ranks[d].phase, d)
  }

  lemma HandledNonnegative(c: Config, s: State, d: nat)
    requires Inv(c, s)
    ensures Sum(HandledByWorker(c, s, d)) >= 0
  {
    forall g | 0 <= g < |c.home| ensures HandledByWorker(c, s, d)[g] >= 0 {
      assert WorkerOk(c, s, g);
    }
    SumNonnegative(HandledByWorker(c, s, d));
  }

  lemma EmptyParts(x: multiset<Key>, y: multiset<Key>, z: multiset<Key>, total: multiset<Key>)
    requires x + (y + z) == total && |z| >= |total|
    ensures x == multiset{} && y == multiset{} && z == total
  {
    assert |total| == |x| + (|y| + |z|);
    assert multiset{} + (multiset{} + z) == z;
  }

  /** A rank that has counted as many records as it expects has handled every record sent to it. */
  lemma CompletionIsGlobal(c: Config, s: State, d: nat)
    requires Inv(c, s) && d < c.rankCount && 0 < s.ranks[d].phase
    requires s.ranks[d].recvCount >= PhaseOf(c, s.ranks[d].phase).expected[d]
    ensures NothingLeftFor(c, s, d)
    ensures s.ranks[d].recvCount == PhaseOf(c, s.ranks[d].phase).expected[d]
  {
    var owed, p := OwedByWorker(c, s, d), s.ranks[d].phase;
    assert Counted(c, s, d) && Conserved(c, s, d);
    HandledNonnegative(c, s, d);
    EmptyParts(MSum(owed), InFlight(s, d), s.ranks[d].histogram, Total(c, p, d));
    forall g | 0 <= g < |c.home|
      ensures Outstanding(c, s, g, d, p) == multiset{} && HalfHandled(c, s, g, d) == multiset{}
    {
      MSumIsEmpty(owed, g);
      assert owed[g] == Outstanding(c, s, g, d, p) + HalfHandled(c, s, g, d);
    }
    forall i | 0 <= i < |s.network| ensures s.network[i].dst != d {
      MSumIsEmpty(BatchesFor(s.network, d), i);
      assert MessageOk(c, s, s.network[i]);
      assert s.network[i].batch[0] in multiset(s.network[i].batch);
    }
  }

  // ---------- rank steps ----------

  /** Starting a phase does not change who still owes what to whom, in any phase. */
  lemma OutstandingAfterSet(c: Config, s: State, r: nat, g: nat, d: nat, p: nat)
    requires Inv(c, s) && Enabled(c, s, SetHandler(r)) && g < |c.home| && d < c.rankCount && 0 < p <= |c.phases|
    ensures Shape(c, DoSet(c, s, r))
    ensures Outstanding(c, DoSet(c, s, r), g, d, p) == Outstanding(c, s, g, d, p)
  {
    assert WorkerOk(c, s, g);
  }

  lemma SetKeepsShape(c: Config, s: State, r: nat)
    requires Inv(c, s) && Enabled(c, s, SetHandler(r))
    ensures Shape(c, DoSet(c, s, r))
  {
  }

  lemma HandledAfterSet(c: Config, s: State, r: nat, g: nat, d: nat)
    requires Inv(c, s) && Enabled(c, s, SetHandler(r)) && g < |c.home| && d < c.rankCount
    ensures Shape(c, DoSet(c, s, r))
    ensures HandledInBatch(c, DoSet(c, s, r), g, d) == if d == r then 0 else HandledInBatch(c, s, g, d)
  {
  }

  lemma CountedAtStart(c: Config, s: State, r: nat)
    requires Inv(c, s) && Enabled(c, s, SetHandler(r))
    ensures Shape(c, DoSet(c, s, r)) && Counted(c, DoSet(c, s, r), r)
  {
    forall g | 0 <= g < |c.home| ensures HandledByWorker(c, DoSet(c, s, r), r)[g] == 0 {
      HandledAfterSet(c, s, r, g, r);
    }
    SumZeros(HandledByWorker(c, DoSet(c, s, r), r));
  }

  lemma CountedAfterSet(c: Config, s: State, r: nat, d: nat)
    requires Inv(c, s) && Enabled(c, s, SetHandler(r)) && d < c.rankCount && d != r
    ensures Shape(c, DoSet(c, s, r)) && Counted(c, DoSet(c, s, r), d)
  {
    var s' := DoSet(c, s, r);
    SetKeepsShape(c, s, r);
    var before, after := HandledByWorker(c, s, d), HandledByWorker(c, s', d);
    forall g | 0 <= g < |c.home| ensures after[g] == before[g] {
      HandledAfterSet(c, s, r, g, d);
    }
    assert after == before;
    assert Counted(c, s, d) && s'.ranks[d] == s.ranks[d];
  }

  /** At the start of a rank's phase every worker owes it all of the phase's work. */
  lemma OwedAtStart(c: Config, s: State, r: nat, g: nat)
    requires Inv(c, s) && Enabled(c, s, SetHandler(r)) && g < |c.home|
    ensures var p := s.ranks[r].phase + 1;
            Owed(c, DoSet(c, s, r), g, r) == DestinedTo(PhaseOf(c, p).work[g], PhaseOf(c, p).route, r)
  {
    OutstandingAfterSet(c, s, r, g, r, s.ranks[r].phase + 1);
    assert WorkerOk(c, s, g);
  }

  /** At the start of its phase a rank is owed everything the phase sends to it. */
  lemma AllOwedAtStart(c: Config, s: State, r: nat)
    requires Inv(c, s) && Enabled(c, s, SetHandler(r))
    ensures Shape(c, DoSet(c, s, r))
    ensures OwedByWorker(c, DoSet(c, s, r), r) == WorkFor(c, s.ranks[r].phase + 1, r)
  {
    forall g | 0 <= g < |c.home|
      ensures OwedByWorker(c, DoSet(c, s, r), r)[g] == WorkFor(c, s.ranks[r].phase + 1, r)[g]
    {
      OwedAtStart(c, s, r, g);
    }
  }

  lemma NothingInFlightToIdle(c: Config, s: State, r: nat)
    requires Inv(c, s) && r < c.rankCount && s.ranks[r].mode.Idle?
    ensures InFlight(s, r) == multiset{}
  {
    forall i | 0 <= i < |s.network| ensures BatchesFor(s.network, r)[i] == multiset{} {
      assert MessageOk(c, s, s.network[i]);
    }
    MSumEmpty(BatchesFor(s.network, r));
  }

  lemma ConservedAtStart(c: Config, s: State, r: nat)
    requires Inv(c, s) && Enabled(c, s, SetHandler(r))
    ensures Conserved(c, DoSet(c, s, r), r)
  {
    AllOwedAtStart(c, s, r);
    NothingInFlightToIdle(c, s, r);
  }

  lemma OwedAfterSet(c: Config, s: State, r: nat, g: nat, d: nat)
    requires Inv(c, s) && Enabled(c, s, SetHandler(r)) && g < |c.home| && d < c.rankCount && d != r
    requires 0 < s.ranks[d].phase
    ensures Shape(c, DoSet(c, s, r)) && DoSet(c, s, r).ranks[d] == s.ranks[d]
    ensures Owed(c, DoSet(c, s, r), g, d) == Owed(c, s, g, d)
  {
    OutstandingAfterSet(c, s, r, g, d, s.ranks[d].phase);
  }

  lemma ConservedAfterSet(c: Config, s: State, r: nat, d: nat)
    requires Inv(c, s) && Enabled(c, s, SetHandler(r)) && d < c.rankCount && d != r
    ensures Shape(c, DoSet(c, s, r)) && Conserved(c, DoSet(c, s, r), d)
  {
    var s' := DoSet(c, s, r);
    if 0 < s.ranks[d].phase {
      forall g | 0 <= g < |c.home|
        ensures Shape(c, s') && s'.ranks[d] == s.ranks[d] && Owed(c, s', g, d) == Owed(c, s, g, d)
      {
        OwedAfterSet(c, s, r, g, d);
      }
      assert OwedByWorker(c, s', d) == OwedByWorker(c, s, d);
      assert Conserved(c, s, d) && Arriving(s', d) == Arriving(s, d);
    }
  }

  lemma PastClearedAfterSet(c: Config, s: State, r: nat, d: nat, p: nat)
    requires Inv(c, s) && Enabled(c, s, SetHandler(r)) && d < c.rankCount && 0 < p <= |c.phases|
    ensures Shape(c, DoSet(c, s, r)) && PastCleared(c, DoSet(c, s, r), d, p)
  {
    assert PastCleared(c, s, d, p);
    forall g | 0 <= g < |c.home|
      ensures Outstanding(c, DoSet(c, s, r), g, d, p) == Outstanding(c, s, g, d, p)
    {
      OutstandingAfterSet(c, s, r, g, d, p);
    }
  }

  lemma SetKeepsLocal(c: Config, s: State, r: nat)
    requires Inv(c, s) && Enabled(c, s, SetHandler(r))
    ensures var s' := DoSet(c, s, r);
            Shape(c, s') && PhasesOrdered(c, s') && WorkersOk(c, s') && MessagesOk(c, s')
  {
    var s' := DoSet(c, s, r);
    forall g | 0 <= g < |c.home| ensures WorkerOk(c, s', g) {
      assert WorkerOk(c, s, g);
    }
    forall i | 0 <= i < |s'.network| ensures MessageOk(c, s', s'.network[i]) {
      assert MessageOk(c, s, s.network[i]);
    }
  }

  lemma SetKeepsInv(c: Config, s: State, r: nat)
    requires Inv(c, s) && Enabled(c, s, SetHandler(r))
    ensures Inv(c, DoSet(c, s, r))
  {
    var s' := DoSet(c, s, r);
    SetKeepsLocal(c, s, r);
    forall d | 0 <= d < c.rankCount ensures Counted(c, s', d) && Conserved(c, s', d) {
      if d == r {
        CountedAtStart(c, s, r);
        ConservedAtStart(c, s, r);
      } else {
        CountedAfterSet(c, s, r, d);
        ConservedAfterSet(c, s, r, d);
      }
    }
    forall d, p | 0 <= d < c.rankCount && 0 < p <= |c.phases| ensures PastCleared(c, s', d, p) {
      PastClearedAfterSet(c, s, r, d, p);
    }
  }

  /** Only the mode of rank r has changed. */
  ghost predicate ModeStep(c: Config, s: State, s': State, r: nat)
    requires Shape(c, s)
  {
    && r < c.rankCount && Shape(c, s') && !s'.failed
    && s'.workers == s.workers && s'.network == s.network
    && s'.ranks == s.ranks[r := s.ranks[r].(mode := s'.ranks[r].mode)]
  }

  lemma ModeKeepsOutstanding(c: Config, s: State, s': State, r: nat, g: nat, d: nat, p: nat)
    requires Shape(c, s) && ModeStep(c, s, s', r)
    requires g < |c.home| && d < c.rankCount && 0 < p <= |c.phases|
    ensures Outstanding(c, s', g, d, p) == Outstanding(c, s, g, d, p)
  {
    assert RankOf(c, s', g).phase == RankOf(c, s, g).phase;
  }

  lemma ModeKeepsRecords(c: Config, s: State, s': State, r: nat, d: nat)
    requires Shape(c, s) && ModeStep(c, s, s', r) && d < c.rankCount
    requires Counted(c, s, d) && Conserved(c, s, d)
    ensures Counted(c, s', d) && Conserved(c, s', d)
  {
    assert HandledByWorker(c, s', d) == HandledByWorker(c, s, d);
    if 0 < s.ranks[d].phase {
      forall g | 0 <= g < |c.home| ensures Owed(c, s', g, d) == Owed(c, s, g, d) {
        ModeKeepsOutstanding(c, s, s', r, g, d, s.ranks[d].phase);
      }
      assert OwedByWorker(c, s', d) == OwedByWorker(c, s, d);
    }
  }

  /** A mode change keeps the invariant when the rank's own workers fit the new mode. */
  lemma ModeStepKeepsInv(c: Config, s: State, s': State, r: nat)
    requires Inv(c, s) && ModeStep(c, s, s', r) && PhasesOrdered(c, s')
    requires forall g :: 0 <= g < |c.home| && c.home[g] == r ==> WorkerOk(c, s', g)
    requires s'.ranks[r].mode.Idle? ==> 0 < s.ranks[r].phase && NothingLeftFor(c, s, r)
    ensures Inv(c, s')
  {
    forall g | 0 <= g < |c.home| ensures WorkerOk(c, s', g) {
      assert WorkerOk(c, s, g);
    }
    forall i | 0 <= i < |s'.network| ensures MessageOk(c, s', s'.network[i]) {
      assert MessageOk(c, s, s.network[i]);
    }
    forall d | 0 <= d < c.rankCount ensures Counted(c, s', d) && Conserved(c, s', d) {
      assert Counted(c, s, d) && Conserved(c, s, d);
      ModeKeepsRecords(c, s, s', r, d);
    }
    forall d, p | 0 <= d < c.rankCount && 0 < p <= |c.phases| ensures PastCleared(c, s', d, p) {
      assert PastCleared(c, s, d, p);
      forall g | 0 <= g < |c.home| ensures Outstanding(c, s', g, d, p) == Outstanding(c, s, g, d, p) {
        ModeKeepsOutstanding(c, s, s', r, g, d, p);
      }
    }
  }

  lemma LeaveBarrierKeepsInv(c: Config, s: State, r: nat)
    requires Inv(c, s) && Enabled(c, s, LeaveBarrier(r))
    ensures Inv(c, s.(ranks := s.ranks[r := s.ranks[r].(mode := Running)]))
  {
    var s' := s.(ranks := s.ranks[r := s.ranks[r].(mode := Running)]);
    forall g | 0 <= g < |c.home| && c.home[g] == r ensures WorkerOk(c, s', g) {
      assert WorkerOk(c, s, g);
    }
    ModeStepKeepsInv(c, s, s', r);
  }

  /** The workers of a rank all leave their wait loops only when the rank has counted everything. */
  lemma TeamDoneMeansComplete(c: Config, s: State, r: nat)
    requires Inv(c, s) && Enabled(c, s, ClearHandler(r))
    ensures NothingLeftFor(c, s, r)
    ensures forall g :: 0 <= g < |c.home| && c.home[g] == r ==>
              s.workers[g].todo == [] && NothingBuffered(s.workers[g].buffers)
  {
    assert r in c.home;
    var g :| 0 <= g < |c.home| && c.home[g] == r;
    assert WorkerOk(c, s, g);
    CompletionIsGlobal(c, s, r);
    forall h | 0 <= h < |c.home| && c.home[h] == r
      ensures s.workers[h].todo == [] && NothingBuffered(s.workers[h].buffers)
    {
      assert WorkerOk(c, s, h);
    }
  }

  lemma ClearKeepsInv(c: Config, s: State, r: nat)
    requires Inv(c, s) && Enabled(c, s, ClearHandler(r))
    ensures Inv(c, DoClear(c, s, r))
  {
    TeamDoneMeansComplete(c, s, r);
    var s' := s.(ranks := s.ranks[r := s.ranks[r].(mode := Idle)]);
    assert DoClear(c, s, r) == s';
    forall g | 0 <= g < |c.home| && c.home[g] == r ensures WorkerOk(c, s', g) {
      assert WorkerOk(c, s, g);
    }
    ModeStepKeepsInv(c, s, s', r);
  }

  // ---------- every run ----------

  lemma StepKeepsInv(c: Config, s: State, step: Step)
    requires Inv(c, s) && Enabled(c, s, step)
    ensures Inv(c, Apply(c, s, step))
  {
    match step
    case SetHandler(r) => SetKeepsInv(c, s, r);
    case LeaveBarrier(r) => LeaveBarrierKeepsInv(c, s, r);
    case Post(g) => PostKeepsInv(c, s, g);
    case EndPosting(_) => StagesKeepInv(c, s, step);
    case Flush(g) => FlushKeepsInv(c, s, g);
    case EndFlush(_) => StagesKeepInv(c, s, step);
    case Deliver(g, i) => DeliverKeepsInv(c, s, g, i);
    case Handle(g) => HandleKeepsInv(c, s, g);
    case Complete(g) => CompleteKeepsInv(c, s, g);
    case Finish(_) => StagesKeepInv(c, s, step);
    case ClearHandler(r) => ClearKeepsInv(c, s, r);
  }

  lemma InitialInv(c: Config)
    requires WellFormed(c)
    ensures Inv(c, Initial(c))
  {
    var s := Initial(c);
    forall d | 0 <= d < c.rankCount ensures Counted(c, s, d) {
      SumZeros(HandledByWorker(c, s, d));
    }
  }

  datatype Outcome = Blocked | Reached(state: State)

  /** Executes a sequence of steps from the initial state; blocked at a step that is not enabled. */
  ghost function Execute(c: Config, steps: seq<Step>): Outcome
    decreases |steps|
  {
    if steps == [] then Reached(Initial(c))
    else
      var before := Execute(c, steps[..|steps| - 1]);
      if before.Reached? && Shape(c, before.state) && Enabled(c, before.state, steps[|steps| - 1])
      then Reached(Apply(c, before.state, steps[|steps| - 1]))
      else Blocked
  }

  /** Every state of every run satisfies the invariant; in particular no run fails. */
  lemma {:induction false} RunKeepsInv(c: Config, steps: seq<Step>)
    requires WellFormed(c) && Execute(c, steps).Reached?
    ensures Inv(c, Execute(c, steps).state)
    decreases |steps|
  {
    if steps == [] {
      InitialInv(c);
    } else {
      RunKeepsInv(c, steps[..|steps| - 1]);
      StepKeepsInv(c, Execute(c, steps[..|steps| - 1]).state, steps[|steps| - 1]);
    }
  }

  /**
   Conservation, key by key, in every state of every run: what workers still owe a rank (not
   posted, buffered, or half handled), what is in flight to it and what it has handled add up to
   what its phase sends to it.
   */
  lemma RecordsAreConserved(c: Config, steps: seq<Step>, d: nat, k: Key)
    requires WellFormed(c) && Execute(c, steps).Reached? && Shape(c, Execute(c, steps).state)
    requires d < c.rankCount && 0 < Execute(c, steps).state.ranks[d].phase
    ensures var s := Execute(c, steps).state;
            MSum(OwedByWorker(c, s, d))[k] + InFlight(s, d)[k] + s.ranks[d].histogram[k]
            == Total(c, s.ranks[d].phase, d)[k]
  {
    RunKeepsInv(c, steps);
    var s := Execute(c, steps).state;
    assert Conserved(c, s, d);
    assert (MSum(OwedByWorker(c, s, d)) + Arriving(s, d))[k] == Total(c, s.ranks[d].phase, d)[k];
  }

  /**
   The completion test is local, its meaning is global: in every state of every run, a rank whose
   recv_count has reached its expected count has the exact records of its phase in its histogram,
   and no worker anywhere still holds, sends or half-handles a record for it.
   */
  lemma LocalCompletionIsSafe(c: Config, steps: seq<Step>, d: nat)
    requires WellFormed(c) && Execute(c, steps).Reached? && Shape(c, Execute(c, steps).state)
    requires d < c.rankCount && 0 < Execute(c, steps).state.ranks[d].phase
    requires var rank := Execute(c, steps).state.ranks[d];
             rank.recvCount >= PhaseOf(c, rank.phase).expected[d]
    ensures NothingLeftFor(c, Execute(c, steps).state, d)
  {
    RunKeepsInv(c, steps);
    CompletionIsGlobal(c, Execute(c, steps).state, d);
  }

  /** A batch is always handed to the handler of the phase that sent it, and there is one. */
  lemma PhasesAreIsolated(c: Config, steps: seq<Step>, i: nat)
    requires WellFormed(c) && Execute(c, steps).Reached?
    requires i < |Execute(c, steps).state.network|
    ensures var s := Execute(c, steps).state;
            var m := s.network[i];
            && m.dst < |s.ranks|
            && s.ranks[m.dst].phase == m.phase && s.ranks[m.dst].mode != Idle
  {
    RunKeepsInv(c, steps);
    assert MessageOk(c, Execute(c, steps).state, Execute(c, steps).state.network[i]);
  }

  lemma SubsetSize(x: multiset<Key>, y: multiset<Key>)
    requires x <= y
    ensures |x| <= |y|
  {
    assert y == x + (y - x);
  }

  /** The received count never runs ahead of the handler, and never passes the expected count. */
  lemma RecvCountIsBounded(c: Config, steps: seq<Step>, d: nat)
    requires WellFormed(c) && Execute(c, steps).Reached? && Shape(c, Execute(c, steps).state)
    requires d < c.rankCount && 0 < Execute(c, steps).state.ranks[d].phase
    ensures var rank := Execute(c, steps).state.ranks[d];
            rank.recvCount <= |rank.histogram| <= PhaseOf(c, rank.phase).expected[d]
  {
    RunKeepsInv(c, steps);
    var s := Execute(c, steps).state;
    assert Counted(c, s, d) && Conserved(c, s, d);
    HandledNonnegative(c, s, d);
    assert s.ranks[d].histogram <= Total(c, s.ranks[d].phase, d);
    SubsetSize(s.ranks[d].histogram, Total(c, s.ranks[d].phase, d));
  }
}
