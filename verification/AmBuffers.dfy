/** The aggregation buffers of one worker, as values: one sequence of records per destination. */
module AmBuffers {
  import opened Powers

  type Buffers<R> = seq<seq<R>>

  /** post_record: append, and hand out the buffer when it reaches its capacity. */
  function AfterPost<R>(buffers: Buffers<R>, capacity: nat, dest: nat, record: R): (r: (Buffers<R>, seq<R>))
    requires dest < |buffers|
  {
    var appended := buffers[dest] + [record];
    if |appended| == capacity then (buffers[dest := []], appended) else (buffers[dest := appended], [])
  }

  /** flush_dest: hand out whatever the buffer holds. */
  function AfterFlush<R>(buffers: Buffers<R>, dest: nat): (r: (Buffers<R>, seq<R>))
    requires dest < |buffers|
  {
    (buffers[dest := []], buffers[dest])
  }

  /** Between operations every buffer is strictly below its capacity. */
  ghost predicate BelowCapacity<R>(buffers: Buffers<R>, capacity: nat)
  {
    forall d :: 0 <= d < |buffers| ==> |buffers[d]| < capacity
  }

  ghost predicate NothingBuffered<R>(buffers: Buffers<R>)
  {
    forall d :: 0 <= d < |buffers| ==> buffers[d] == []
  }

  /** The i-th destination a flush visits, starting from the own rank and wrapping around. */
  function FlushTarget(rank: nat, i: nat, n: nat): (dest: nat)
    requires rank < n && i < n
    ensures dest < n
  {
    if rank + i < n then rank + i else rank + i - n
  }

  lemma FlushTargetIsModulo(rank: nat, i: nat, n: nat)
    requires rank < n && i < n
    ensures (rank + i) % n == FlushTarget(rank, i, n)
  {
    ModUnique(rank + i, if rank + i < n then 0 else 1, FlushTarget(rank, i, n), n);
  }

  /** When a flush visits destination d. */
  function Turn(rank: nat, d: nat, n: nat): (i: nat)
    requires rank < n && d < n
    ensures i < n && FlushTarget(rank, i, n) == d
  {
    if rank <= d then d - rank else d + n - rank
  }
}
