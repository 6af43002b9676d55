/**
 The active-message redistribution protocol: every rank runs a sequence of phases
 (set_am_handler, post, flush, wait, clear_am_handler) on several workers, and every step
 of every worker and every rank may interleave with every other.
 */
module AmProtocol {
  import opened AmBuffers

  type Key = int

  /** What one phase does: each worker's records, the destination of a record, the receive counts. */
  datatype Phase = Phase(work: seq<seq<Key>>, route: Key -> nat, expected: seq<nat>)

  /**
   Workers of all ranks are numbered together: worker g belongs to rank home[g] and uses the
   communication device device[g] of its rank.
   */
  datatype Config = Config(rankCount: nat, home: seq<nat>, device: seq<nat>, capacity: nat, loopback: bool,
                           phases: seq<Phase>)

  datatype Message = Message(phase: nat, sender: nat, dst: nat, batch: seq<Key>)

  datatype Stage = Posting | Flushing(next: nat) | Waiting | Done

  /** A batch whose records the worker is handing to the handler. */
  datatype Receipt = NoReceipt | Receipt(rest: seq<Key>, total: nat)

  datatype Worker = Worker(stage: Stage, todo: seq<Key>, buffers: Buffers<Key>, receipt: Receipt)

  datatype Mode = Idle | AtBarrier | Running

  /** `phase` counts the calls of set_am_handler; a handler is registered unless the mode is Idle. */
  datatype Rank = Rank(phase: nat, mode: Mode, histogram: multiset<Key>, recvCount: nat)

  /** `failed` is set when an exception, an abort or a terminate would end the program. */
  datatype State = State(ranks: seq<Rank>, workers: seq<Worker>, network: seq<Message>, failed: bool)

  datatype Step =
    | SetHandler(r: nat)
    | LeaveBarrier(r: nat)
    | Post(g: nat)
    | EndPosting(g: nat)
    | Flush(g: nat)
    | EndFlush(g: nat)
    | Deliver(g: nat, i: nat)
    | Handle(g: nat)
    | Complete(g: nat)
    | Finish(g: nat)
    | ClearHandler(r: nat)

  ghost predicate Shape(c: Config, s: State)
  {
    && |c.home| == |c.device|
    && (forall g :: 0 <= g < |c.home| ==> c.home[g] < c.rankCount)
    && (forall p :: 0 <= p < |c.phases| ==>
          |c.phases[p].work| == |c.home| && |c.phases[p].expected| == c.rankCount)
    && |s.ranks| == c.rankCount && |s.workers| == |c.home|
    && (forall g :: 0 <= g < |s.workers| ==> |s.workers[g].buffers| == c.rankCount)
    && (forall r :: 0 <= r < |s.ranks| ==> s.ranks[r].phase <= |c.phases|)
    && (forall r :: 0 <= r < |s.ranks| && s.ranks[r].mode != Idle ==> s.ranks[r].phase > 0)
  }

  function RankOf(c: Config, s: State, g: nat): Rank
    requires Shape(c, s) && g < |c.home|
  {
    s.ranks[c.home[g]]
  }

  /** The phase a rank is in; only meaningful once it has registered a handler. */
  function PhaseOf(c: Config, p: nat): Phase
    requires 0 < p <= |c.phases|
  {
    c.phases[p - 1]
  }

  function EmptyBuffers(n: nat): (b: Buffers<Key>)
    ensures |b| == n
  {
    seq(n, _ => [])
  }

  // ---------- when a step can be taken ----------

  /** A worker that is not inside the handler loop of a batch. */
  predicate Free(s: State, g: nat)
    requires g < |s.workers|
  {
    s.workers[g].receipt.NoReceipt?
  }

  predicate TeamFree(c: Config, s: State, r: nat)
    requires Shape(c, s)
  {
    forall g :: 0 <= g < |c.home| && c.home[g] == r ==> s.workers[g].receipt.NoReceipt?
  }

  predicate TeamDone(c: Config, s: State, r: nat)
    requires Shape(c, s)
  {
    forall g :: 0 <= g < |c.home| && c.home[g] == r ==> s.workers[g].stage.Done?
  }

  /** A worker that runs its own program in the parallel region. */
  predicate Active(c: Config, s: State, g: nat)
    requires Shape(c, s)
  {
    g < |c.home| && RankOf(c, s, g).mode.Running? && Free(s, g)
  }

  ghost predicate Enabled(c: Config, s: State, step: Step)
    requires Shape(c, s)
  {
    && !s.failed
    && match step
       case SetHandler(r) =>
         r < c.rankCount && s.ranks[r].mode.Idle? && s.ranks[r].phase < |c.phases| && TeamFree(c, s, r)
       case LeaveBarrier(r) =>
         && r < c.rankCount && s.ranks[r].mode.AtBarrier?
         && forall q :: 0 <= q < c.rankCount ==> s.ranks[q].phase >= s.ranks[r].phase
       case Post(g) => Active(c, s, g) && s.workers[g].stage.Posting? && s.workers[g].todo != []
       case EndPosting(g) => Active(c, s, g) && s.workers[g].stage.Posting? && s.workers[g].todo == []
       case Flush(g) => Active(c, s, g) && s.workers[g].stage.Flushing? && s.workers[g].stage.next < c.rankCount
       case EndFlush(g) => Active(c, s, g) && s.workers[g].stage.Flushing? && s.workers[g].stage.next >= c.rankCount
       case Deliver(g, i) =>
         && g < |c.home| && Free(s, g) && i < |s.network| && s.network[i].dst == c.home[g]
         && s.network[i].sender < |c.device| && c.device[s.network[i].sender] == c.device[g]
       case Handle(g) => g < |c.home| && s.workers[g].receipt.Receipt? && s.workers[g].receipt.rest != []
       case Complete(g) => g < |c.home| && s.workers[g].receipt.Receipt? && s.workers[g].receipt.rest == []
       case Finish(g) =>
         && Active(c, s, g) && s.workers[g].stage.Waiting?
         && RankOf(c, s, g).recvCount >= PhaseOf(c, RankOf(c, s, g).phase).expected[c.home[g]]
       case ClearHandler(r) =>
         r < c.rankCount && s.ranks[r].mode.Running? && TeamDone(c, s, r) && TeamFree(c, s, r)
  }

  // ---------- what a step does ----------

  /** set_am_handler up to its barrier: a fresh state object, and the workers' loops still to run. */
  function DoSet(c: Config, s: State, r: nat): State
    requires Shape(c, s) && r < c.rankCount && s.ranks[r].phase < |c.phases|
  {
    var p := s.ranks[r].phase + 1;
    s.(ranks := s.ranks[r := Rank(p, AtBarrier, multiset{}, 0)],
       workers := seq(|s.workers|, g requires 0 <= g < |s.workers| =>
         if c.home[g] == r
         then Worker(Posting, PhaseOf(c, p).work[g], EmptyBuffers(c.rankCount), NoReceipt)
         else s.workers[g]))
  }

  /** post_send_buffer: the batch goes to the own receiver or into the network. */
  function Send(c: Config, s: State, g: nat, dst: nat, batch: seq<Key>): State
    requires Shape(c, s) && g < |c.home|
  {
    if batch == [] then s
    else if dst == c.home[g] && c.loopback then
      s.(workers := s.workers[g := s.workers[g].(receipt := Receipt(batch, |batch|))])
    else s.(network := s.network + [Message(RankOf(c, s, g).phase, g, dst, batch)])
  }

  /** The state with the program state of worker g replaced. */
  function WithWorker(s: State, g: nat, w: Worker): State
    requires g < |s.workers|
  {
    s.(workers := s.workers[g := w])
  }

  function PostedWorker(w: Worker, capacity: nat, dst: nat): Worker
    requires w.todo != [] && dst < |w.buffers|
  {
    w.(todo := w.todo[1..], buffers := AfterPost(w.buffers, capacity, dst, w.todo[0]).0)
  }

  function DoPost(c: Config, s: State, g: nat): State
    requires Shape(c, s) && g < |c.home| && s.workers[g].todo != [] && RankOf(c, s, g).phase > 0
  {
    var w := s.workers[g];
    var dst := PhaseOf(c, RankOf(c, s, g).phase).route(w.todo[0]);
    if dst >= c.rankCount then s.(failed := true)
    else
      Send(c, WithWorker(s, g, PostedWorker(w, c.capacity, dst)), g, dst,
           AfterPost(w.buffers, c.capacity, dst, w.todo[0]).1)
  }

  function FlushedWorker(w: Worker, dst: nat): Worker
    requires w.stage.Flushing? && dst < |w.buffers|
  {
    w.(stage := Flushing(w.stage.next + 1), buffers := AfterFlush(w.buffers, dst).0)
  }

  function DoFlush(c: Config, s: State, g: nat): State
    requires Shape(c, s) && g < |c.home| && s.workers[g].stage.Flushing? && s.workers[g].stage.next < c.rankCount
  {
    var w := s.workers[g];
    var dst := FlushTarget(c.home[g], w.stage.next, c.rankCount);
    Send(c, WithWorker(s, g, FlushedWorker(w, dst)), g, dst, AfterFlush(w.buffers, dst).1)
  }

  function DoStage(s: State, g: nat, stage: Stage): State
    requires g < |s.workers|
  {
    s.(workers := s.workers[g := s.workers[g].(stage := stage)])
  }

  /** handle_incoming_am: the registered state takes the batch, whatever phase it came from. */
  function DoDeliver(c: Config, s: State, g: nat, i: nat): State
    requires Shape(c, s) && g < |c.home| && i < |s.network|
  {
    var m := s.network[i];
    if RankOf(c, s, g).mode.Idle? || m.batch == [] then s.(failed := true)
    else s.(network := s.network[..i] + s.network[i + 1..],
            workers := s.workers[g := s.workers[g].(receipt := Receipt(m.batch, |m.batch|))])
  }

  /** One invocation of the handler. */
  function DoHandle(c: Config, s: State, g: nat): State
    requires Shape(c, s) && g < |c.home| && s.workers[g].receipt.Receipt? && s.workers[g].receipt.rest != []
  {
    var w, r := s.workers[g], c.home[g];
    var counted := s.ranks[r].(histogram := s.ranks[r].histogram + multiset{w.receipt.rest[0]});
    s.(ranks := s.ranks[r := counted],
       workers := s.workers[g := w.(receipt := w.receipt.(rest := w.receipt.rest[1..]))])
  }

  /** The fetch_add on recv_count_ after the last handler of the batch. */
  function DoComplete(c: Config, s: State, g: nat): State
    requires Shape(c, s) && g < |c.home| && s.workers[g].receipt.Receipt?
  {
    var w, r := s.workers[g], c.home[g];
    s.(ranks := s.ranks[r := s.ranks[r].(recvCount := s.ranks[r].recvCount + w.receipt.total)],
       workers := s.workers[g := w.(receipt := NoReceipt)])
  }

  /** clear_am_handler: an error when a buffer still holds records. */
  function DoClear(c: Config, s: State, r: nat): State
    requires Shape(c, s) && r < c.rankCount
  {
    if exists g, d :: 0 <= g < |c.home| && c.home[g] == r && 0 <= d < c.rankCount && s.workers[g].buffers[d] != []
    then s.(failed := true)
    else s.(ranks := s.ranks[r := s.ranks[r].(mode := Idle)])
  }

  ghost function Apply(c: Config, s: State, step: Step): State
    requires Shape(c, s) && Enabled(c, s, step)
  {
    match step
    case SetHandler(r) => DoSet(c, s, r)
    case LeaveBarrier(r) => s.(ranks := s.ranks[r := s.ranks[r].(mode := Running)])
    case Post(g) => DoPost(c, s, g)
    case EndPosting(g) => DoStage(s, g, Flushing(0))
    case Flush(g) => DoFlush(c, s, g)
    case EndFlush(g) => DoStage(s, g, Waiting)
    case Deliver(g, i) => DoDeliver(c, s, g, i)
    case Handle(g) => DoHandle(c, s, g)
    case Complete(g) => DoComplete(c, s, g)
    case Finish(g) => DoStage(s, g, Done)
    case ClearHandler(r) => DoClear(c, s, r)
  }

  // ---------- runs ----------

  function Initial(c: Config): State
  {
    State(seq(c.rankCount, _ => Rank(0, Idle, multiset{}, 0)),
          seq(|c.home|, _ => Worker(Done, [], EmptyBuffers(c.rankCount), NoReceipt)),
          [], false)
  }
}
