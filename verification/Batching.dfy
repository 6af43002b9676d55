/** Batching is transparent: batches in posting order and the buffered rest are the posted records. */
module Batching {
  import opened Collections
  import opened Powers
  import opened AmBuffers

  datatype Operation<R> = PostRecord(dest: nat, record: R) | FlushDest(dest: nat)

  datatype Batch<R> = Batch(dest: nat, records: seq<R>)

  /** A worker's buffers and everything it has handed to the network so far. */
  datatype Sender<R> = Sender(buffers: Buffers<R>, sent: seq<Batch<R>>)

  function HandOut<R>(sent: seq<Batch<R>>, dest: nat, records: seq<R>): seq<Batch<R>>
  {
    if records == [] then sent else sent + [Batch(dest, records)]
  }

  function Perform<R>(s: Sender<R>, capacity: nat, op: Operation<R>): Sender<R>
    requires op.dest < |s.buffers|
  {
    match op
    case PostRecord(dest, record) =>
      var (buffers, batch) := AfterPost(s.buffers, capacity, dest, record);
      Sender(buffers, HandOut(s.sent, dest, batch))
    case FlushDest(dest) =>
      var (buffers, batch) := AfterFlush(s.buffers, dest);
      Sender(buffers, HandOut(s.sent, dest, batch))
  }

  ghost predicate InRange<R>(ops: seq<Operation<R>>, destinations: nat)
  {
    forall i :: 0 <= i < |ops| ==> ops[i].dest < destinations
  }

  function Run<R>(ops: seq<Operation<R>>, capacity: nat, destinations: nat): (s: Sender<R>)
    requires InRange(ops, destinations)
    ensures |s.buffers| == destinations
  {
    if ops == [] then Sender(seq(destinations, _ => []), [])
    else Perform(Run(ops[..|ops| - 1], capacity, destinations), capacity, ops[|ops| - 1])
  }

  /** The records posted for a destination, in order. */
  function PostedTo<R>(ops: seq<Operation<R>>, dest: nat): seq<R>
  {
    if ops == [] then []
    else
      var op := ops[|ops| - 1];
      PostedTo(ops[..|ops| - 1], dest) + if op.PostRecord? && op.dest == dest then [op.record] else []
  }

  /** The records of all batches for a destination, in order. */
  function SentTo<R>(sent: seq<Batch<R>>, dest: nat): seq<R>
  {
    if sent == [] then []
    else
      var batch := sent[|sent| - 1];
      SentTo(sent[..|sent| - 1], dest) + if batch.dest == dest then batch.records else []
  }

  lemma SentToHandOut<R>(sent: seq<Batch<R>>, dest: nat, records: seq<R>, d: nat)
    ensures SentTo(HandOut(sent, dest, records), d) == SentTo(sent, d) + if dest == d then records else []
  {
    assert records != [] ==> HandOut(sent, dest, records)[..|sent|] == sent;
  }

  ghost predicate WellBatched<R>(sent: seq<Batch<R>>, capacity: nat)
  {
    forall i :: 0 <= i < |sent| ==> 0 < |sent[i].records| <= capacity
  }

  lemma HandOutWellBatched<R>(sent: seq<Batch<R>>, capacity: nat, dest: nat, records: seq<R>)
    requires WellBatched(sent, capacity) && |records| <= capacity
    ensures WellBatched(HandOut(sent, dest, records), capacity)
  {
  }

  /** Handing a batch out of a buffer moves records, and an operation on d's buffer only concerns d. */
  lemma Moved<R>(sent: seq<Batch<R>>, before: seq<R>, added: seq<R>, dest: nat, batch: seq<R>, after: seq<R>, d: nat)
    requires if d == dest then batch + after == before + added else after == before && added == []
    ensures SentTo(HandOut(sent, dest, batch), d) + after == SentTo(sent, d) + (before + added)
  {
    SentToHandOut(sent, dest, batch, d);
    if d == dest {
      ConcatAssociative(SentTo(sent, d), batch, after);
    } else {
      assert before + added == before && SentTo(sent, d) + [] == SentTo(sent, d);
    }
  }

  lemma OneMoreOperation<R>(s: Sender<R>, capacity: nat, op: Operation<R>, d: nat)
    requires capacity > 0 && op.dest < |s.buffers| && d < |s.buffers|
    requires WellBatched(s.sent, capacity) && BelowCapacity(s.buffers, capacity)
    ensures var s' := Perform(s, capacity, op);
            && SentTo(s'.sent, d) + s'.buffers[d]
               == SentTo(s.sent, d) + (s.buffers[d] + if op.PostRecord? && op.dest == d then [op.record] else [])
            && WellBatched(s'.sent, capacity) && BelowCapacity(s'.buffers, capacity)
  {
    match op
    case PostRecord(dest, record) =>
      var (buffers, batch) := AfterPost(s.buffers, capacity, dest, record);
      HandOutWellBatched(s.sent, capacity, dest, batch);
      Moved(s.sent, s.buffers[d], if dest == d then [record] else [], dest, batch, buffers[d], d);
    case FlushDest(dest) =>
      var (buffers, batch) := AfterFlush(s.buffers, dest);
      HandOutWellBatched(s.sent, capacity, dest, batch);
      Moved(s.sent, s.buffers[d], [], dest, batch, buffers[d], d);
  }

  /**
   For every sequence of posts and flushes and every destination: the batches handed out, in
   order, followed by the buffered rest, are exactly the records posted, in order; every batch
   holds between one and `capacity` records, and every buffer is strictly below its capacity.
   */
  lemma {:induction false} BatchingIsTransparent<R>(ops: seq<Operation<R>>, capacity: nat, destinations: nat, d: nat)
    requires InRange(ops, destinations) && capacity > 0 && d < destinations
    ensures var s := Run(ops, capacity, destinations);
            && SentTo(s.sent, d) + s.buffers[d] == PostedTo(ops, d)
            && WellBatched(s.sent, capacity) && BelowCapacity(s.buffers, capacity)
  {
    if ops != [] {
      var front, op := ops[..|ops| - 1], ops[|ops| - 1];
      BatchingIsTransparent(front, capacity, destinations, d);
      OneMoreOperation(Run(front, capacity, destinations), capacity, op, d);
      ConcatAssociative(SentTo(Run(front, capacity, destinations).sent, d),
                        Run(front, capacity, destinations).buffers[d],
                        if op.PostRecord? && op.dest == d then [op.record] else []);
    }
  }

  // ---------- aggregation ----------

  /**
   One post: the batch that leaves is the full buffer with the new record, `capacity` records, and
   below that nothing leaves.
   */
  lemma PostSendsFullBatchOnly<R>(ops: seq<Operation<R>>, capacity: nat, destinations: nat)
    requires InRange(ops, destinations) && ops != [] && ops[|ops| - 1].PostRecord? && capacity > 0
    ensures var before, s, op := Run(ops[..|ops| - 1], capacity, destinations), Run(ops, capacity, destinations),
                                 ops[|ops| - 1];
            var buffer := before.buffers[op.dest] + [op.record];
            && |buffer| <= capacity
            && (|buffer| == capacity ==>
                  s.sent == before.sent + [Batch(op.dest, buffer)] && s.buffers == before.buffers[op.dest := []])
            && (|buffer| < capacity ==>
                  s.sent == before.sent && s.buffers == before.buffers[op.dest := buffer])
  {
    BatchingIsTransparent(ops[..|ops| - 1], capacity, destinations, ops[|ops| - 1].dest);
  }

  /** The records posted for a destination since its buffer was last flushed. */
  function SinceFlush<R>(ops: seq<Operation<R>>, d: nat): nat
  {
    if ops == [] then 0
    else
      var op, before := ops[|ops| - 1], SinceFlush(ops[..|ops| - 1], d);
      if op.dest != d then before else if op.PostRecord? then before + 1 else 0
  }

  lemma OneMoreRemainder(n: nat, capacity: nat)
    requires capacity > 0
    ensures (n + 1) % capacity == if n % capacity + 1 == capacity then 0 else n % capacity + 1
    ensures (n + 1) / capacity == if n % capacity + 1 == capacity then n / capacity + 1 else n / capacity
  {
    var q, r := n / capacity, n % capacity;
    if r + 1 == capacity {
      assert (q + 1) * capacity == q * capacity + capacity;
      ModUnique(n + 1, q + 1, 0, capacity);
    } else {
      ModUnique(n + 1, q, r + 1, capacity);
    }
  }

  /** Records are held back: a buffer holds what its destination was posted since the last full batch or flush. */
  lemma {:induction false} BufferFill<R>(ops: seq<Operation<R>>, capacity: nat, destinations: nat, d: nat)
    requires InRange(ops, destinations) && capacity > 0 && d < destinations
    ensures |Run(ops, capacity, destinations).buffers[d]| == SinceFlush(ops, d) % capacity
  {
    if ops == [] {
      ModUnique(0, 0, 0, capacity);
    } else {
      BufferFill(ops[..|ops| - 1], capacity, destinations, d);
      OneMoreRemainder(SinceFlush(ops[..|ops| - 1], d), capacity);
      ModUnique(0, 0, 0, capacity);
    }
  }

  /** The batches for a destination. */
  function BatchesFor<R>(sent: seq<Batch<R>>, d: nat): nat
  {
    if sent == [] then 0 else BatchesFor(sent[..|sent| - 1], d) + if sent[|sent| - 1].dest == d then 1 else 0
  }

  ghost predicate NeverFlushed<R>(ops: seq<Operation<R>>, d: nat)
  {
    forall i :: 0 <= i < |ops| ==> ops[i].dest == d ==> ops[i].PostRecord?
  }

  lemma BatchesForHandOut<R>(sent: seq<Batch<R>>, dest: nat, records: seq<R>, d: nat)
    ensures BatchesFor(HandOut(sent, dest, records), d)
         == BatchesFor(sent, d) + if records != [] && dest == d then 1 else 0
  {
    assert records != [] ==> HandOut(sent, dest, records)[..|sent|] == sent;
  }

  /** Without a flush every batch for a destination is full. */
  lemma {:induction false} BatchesAreFull<R>(ops: seq<Operation<R>>, capacity: nat, destinations: nat, d: nat, i: nat)
    requires InRange(ops, destinations) && capacity > 0 && d < destinations && NeverFlushed(ops, d)
    requires i < |Run(ops, capacity, destinations).sent| && Run(ops, capacity, destinations).sent[i].dest == d
    ensures |Run(ops, capacity, destinations).sent[i].records| == capacity
  {
    var front := ops[..|ops| - 1];
    if i < |Run(front, capacity, destinations).sent| {
      BatchesAreFull(front, capacity, destinations, d, i);
    }
  }

  lemma OnePostAggregates<R>(s: Sender<R>, capacity: nat, op: Operation<R>, d: nat, n: nat)
    requires capacity > 0 && op.dest < |s.buffers| && d < |s.buffers| && (op.dest == d ==> op.PostRecord?)
    requires BatchesFor(s.sent, d) == n / capacity && |s.buffers[d]| == n % capacity
    ensures var s', m := Perform(s, capacity, op), if op.dest == d then n + 1 else n;
            BatchesFor(s'.sent, d) == m / capacity && |s'.buffers[d]| == m % capacity
  {
    OneMoreRemainder(n, capacity);
    if op.PostRecord? {
      BatchesForHandOut(s.sent, op.dest, AfterPost(s.buffers, capacity, op.dest, op.record).1, d);
    } else {
      BatchesForHandOut(s.sent, op.dest, s.buffers[op.dest], d);
    }
  }

  /**
   Posts alone aggregate: a destination that was never flushed was sent one batch for every
   `capacity` records posted, each of exactly `capacity` records, and the rest is buffered.
   */
  lemma {:induction false} PostsAggregate<R>(ops: seq<Operation<R>>, capacity: nat, destinations: nat, d: nat)
    requires InRange(ops, destinations) && capacity > 0 && d < destinations && NeverFlushed(ops, d)
    ensures var s := Run(ops, capacity, destinations);
            && BatchesFor(s.sent, d) == |PostedTo(ops, d)| / capacity
            && |s.buffers[d]| == |PostedTo(ops, d)| % capacity
            && forall i :: 0 <= i < |s.sent| && s.sent[i].dest == d ==> |s.sent[i].records| == capacity
  {
    forall i | 0 <= i < |Run(ops, capacity, destinations).sent| && Run(ops, capacity, destinations).sent[i].dest == d
      ensures |Run(ops, capacity, destinations).sent[i].records| == capacity
    {
      BatchesAreFull(ops, capacity, destinations, d, i);
    }
    if ops == [] {
      ModUnique(0, 0, 0, capacity);
    } else {
      var front, op := ops[..|ops| - 1], ops[|ops| - 1];
      PostsAggregate(front, capacity, destinations, d);
      OnePostAggregates(Run(front, capacity, destinations), capacity, op, d, |PostedTo(front, d)|);
    }
  }
}
