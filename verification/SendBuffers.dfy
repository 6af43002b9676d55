/**
 The aggregation buffers in memory: a send buffer points into a packet or into its part of the
 worker's fallback storage, and packs records there until it is posted and released.
 */
module SendBuffers {
  import opened Powers
  import opened AmMessage
  import opened AmBuffers

  /** memcpy of one record. */
  method CopyRecord(storage: array<Byte>, at: nat, record: Record)
    requires at + |record| <= storage.Length
    modifies storage
    ensures storage[at..at + |record|] == record
    ensures forall i :: 0 <= i < storage.Length && !(at <= i < at + |record|) ==> storage[i] == old(storage[i])
  {
    for i := 0 to |record|
      invariant forall j :: 0 <= j < i ==> storage[at + j] == record[j]
      invariant forall j :: 0 <= j < storage.Length && !(at <= j < at + i) ==> storage[j] == old(storage[j])
    {
      storage[at + i] := record[i];
    }
  }

  lemma BytesStep(n: nat, size: nat)
    ensures MessageBytes(n + 1, size) == MessageBytes(n, size) + size
  {
  }

  lemma BytesMonotone(n: nat, m: nat, size: nat)
    requires n <= m
    ensures MessageBytes(n, size) <= MessageBytes(m, size)
  {
    assert m * size == n * size + (m - n) * size;
  }

  /** A record appended to the bytes of n records is the last of n + 1 records. */
  lemma UnpackAppend(bytes: seq<Byte>, record: Record, n: nat, size: nat)
    requires |bytes| == MessageBytes(n, size) && |record| == size
    ensures MessageBytes(n + 1, size) <= |bytes + record|
    ensures Unpack(bytes + record, n + 1, size) == Unpack(bytes, n, size) + [record]
  {
    BytesStep(n, size);
    UnpackOfPrefix(bytes, record, n, size);
    assert LoadRecord(bytes + record, n, size) == record;
  }

  datatype BatchChoice = BatchRecords(count: nat) | CannotFitOneRecord | RequestTooLarge

  /** A message of n records fits into maxBcopy bytes exactly if n is at most the quotient. */
  lemma FittingRecords(maxBcopy: nat, size: nat, n: nat)
    requires size > 0
    ensures n <= maxBcopy / size <==> MessageBytes(n, size) <= maxBcopy
    ensures MessageBytes(1, size) == size
  {
    var most := maxBcopy / size;
    assert maxBcopy == most * size + maxBcopy % size;
    BytesStep(most, size);
    if n <= most {
      BytesMonotone(n, most, size);
    } else {
      BytesMonotone(most + 1, n, size);
    }
  }

  /** choose_batch_records: a batch of the chosen size fits into one eager message. */
  function ChooseBatchRecords(maxBcopy: nat, size: nat, requested: nat): (choice: BatchChoice)
    requires size > 0
    ensures choice.CannotFitOneRecord? <==> maxBcopy < size
    ensures choice.RequestTooLarge? <==> maxBcopy >= size && MessageBytes(requested, size) > maxBcopy
    ensures choice.BatchRecords? ==>
              && 0 < choice.count && MessageBytes(choice.count, size) <= maxBcopy
              && (if requested == 0 then MessageBytes(choice.count + 1, size) > maxBcopy else choice.count == requested)
  {
    var maxRecords := maxBcopy / size;
    FittingRecords(maxBcopy, size, maxRecords);
    FittingRecords(maxBcopy, size, maxRecords + 1);
    FittingRecords(maxBcopy, size, requested);
    FittingRecords(maxBcopy, size, 1);
    if maxRecords == 0 then CannotFitOneRecord
    else if requested == 0 then BatchRecords(maxRecords)
    else if requested > maxRecords then RequestTooLarge
    else BatchRecords(requested)
  }

  lemma JoinSlices(s: seq<Byte>, lo: nat, mid: nat, hi: nat)
    requires lo <= mid <= hi <= |s|
    ensures s[lo..hi] == s[lo..mid] + s[mid..hi]
  {
  }

  class SendBuffer {
    const capacity: nat
    const size: nat
    var storage: array?<Byte>
    var offset: nat
    var recordCount: nat

    constructor (capacityRecords: nat, recordSize: nat)
      requires recordSize > 0
      ensures Valid() && Contents() == [] && storage == null
      ensures capacity == capacityRecords && size == recordSize
    {
      capacity, size := capacityRecords, recordSize;
      storage, offset, recordCount := null, 0, 0;
    }

    ghost predicate Valid()
      reads this
    {
      && size > 0 && recordCount <= capacity && (storage == null ==> recordCount == 0)
      && MessageBytes(recordCount, size) <= MessageBytes(capacity, size)
      && (storage != null ==> offset + MessageBytes(capacity, size) <= storage.Length)
    }

    /** The bytes that a post of this buffer hands to the network. */
    function Message(): (bytes: seq<Byte>)
      requires Valid()
      reads this, storage
      ensures |bytes| == MessageBytes(recordCount, size)
    {
      if storage == null then [] else storage[offset..offset + MessageBytes(recordCount, size)]
    }

    /** The records in the buffer. */
    function Contents(): (records: seq<Record>)
      requires Valid()
      reads this, storage
      ensures |records| == recordCount
    {
      Unpack(Message(), recordCount, size)
    }

    /** The first record after a release takes storage: the fallback part, or a packet. */
    method TakeStorage(fallback: array?<Byte>, fallbackOffset: nat)
      requires Valid()
      requires fallback != null ==> fallbackOffset + MessageBytes(capacity, size) <= fallback.Length
      modifies this
      ensures Valid() && storage != null && recordCount == old(recordCount) && Message() == old(Message())
      ensures old(storage) != null ==> storage == old(storage) && offset == old(offset)
      ensures old(storage) == null && fallback != null ==> storage == fallback && offset == fallbackOffset
      ensures old(storage) == null && fallback == null ==> fresh(storage)
    {
      if storage == null {
        if fallback == null {
          storage := new Byte[MessageBytes(capacity, size)](_ => 0);
          offset := 0;
        } else {
          storage, offset := fallback, fallbackOffset;
        }
      }
    }

    /** Copies a record behind the buffered ones; nothing outside the buffer's own part is written. */
    method WriteRecord(record: Record)
      requires Valid() && storage != null && recordCount < capacity && |record| == size
      modifies storage
      ensures MessageBytes(recordCount + 1, size) <= MessageBytes(capacity, size)
      ensures storage[offset..offset + MessageBytes(recordCount + 1, size)] == old(Message()) + record
      ensures storage[..][..offset] == old(storage[..])[..offset]
      ensures storage[..][offset + MessageBytes(capacity, size)..]
           == old(storage[..])[offset + MessageBytes(capacity, size)..]
    {
      BytesStep(recordCount, size);
      BytesMonotone(recordCount + 1, capacity, size);
      var at := offset + MessageBytes(recordCount, size);
      CopyRecord(storage, at, record);
      JoinSlices(storage[..], offset, at, at + size);
    }

    /** Appends a record, again within the buffer's own part of its storage. */
    method Append(record: Record)
      requires Valid() && storage != null && recordCount < capacity && |record| == size
      modifies this`recordCount, storage
      ensures Valid() && recordCount == old(recordCount) + 1
      ensures Message() == old(Message()) + record && Contents() == old(Contents()) + [record]
      ensures storage[..][..offset] == old(storage[..])[..offset]
      ensures storage[..][offset + MessageBytes(capacity, size)..]
           == old(storage[..])[offset + MessageBytes(capacity, size)..]
    {
      UnpackAppend(Message(), record, recordCount, size);
      WriteRecord(record);
      recordCount := recordCount + 1;
    }

    method Release()
      requires Valid()
      modifies this
      ensures Valid() && Contents() == [] && storage == null
    {
      storage := null;
      recordCount := 0;
    }
  }

  lemma PartsApart(d: nat, e: nat, part: nat)
    requires d < e
    ensures MessageBytes(d, part) + part <= MessageBytes(e, part)
  {
    BytesStep(d, part);
    BytesMonotone(d + 1, e, part);
  }

  /** The outcome of post_record: an exception, a record kept in its buffer, or a batch for the network. */
  datatype Outcome = OutOfRange | Kept | Posted(dest: nat, message: seq<Byte>)

  /** A receiver that unpacks the message finds exactly these records. */
  ghost predicate Carries(message: seq<Byte>, records: seq<Record>, size: nat)
  {
    |message| == MessageBytes(|records|, size) && Unpack(message, |records|, size) == records
  }

  lemma SliceBelow(s: seq<Byte>, lo: nat, hi: nat, bound: nat)
    requires lo <= hi <= bound <= |s|
    ensures s[lo..hi] == s[..bound][lo..hi]
  {
  }

  lemma SliceAbove(s: seq<Byte>, lo: nat, hi: nat, bound: nat)
    requires bound <= lo <= hi <= |s|
    ensures s[lo..hi] == s[bound..][lo - bound..hi - bound]
  {
  }

  /** A write inside part `dest` keeps the first n bytes of every other part. */
  lemma PartKept(before: seq<Byte>, after: seq<Byte>, d: nat, dest: nat, part: nat, n: nat)
    requires d != dest && n <= part && |after| == |before|
    requires MessageBytes(d, part) + part <= |before| && MessageBytes(dest, part) + part <= |before|
    requires after[..MessageBytes(dest, part)] == before[..MessageBytes(dest, part)]
    requires after[MessageBytes(dest, part) + part..] == before[MessageBytes(dest, part) + part..]
    ensures after[MessageBytes(d, part)..MessageBytes(d, part) + n]
         == before[MessageBytes(d, part)..MessageBytes(d, part) + n]
  {
    var at, lo := MessageBytes(d, part), MessageBytes(dest, part);
    if d < dest {
      PartsApart(d, dest, part);
      SliceBelow(before, at, at + n, lo);
      SliceBelow(after, at, at + n, lo);
    } else {
      PartsApart(dest, d, part);
      SliceAbove(before, at, at + n, lo + part);
      SliceAbove(after, at, at + n, lo + part);
    }
  }

  /** The buffers after the first i visits. */
  function FlushedFirst(before: Buffers<Record>, rank: nat, i: nat): (b: Buffers<Record>)
    requires rank < |before|
    ensures |b| == |before|
  {
    seq(|before|, d requires 0 <= d < |before| => if Turn(rank, d, |before|) < i then [] else before[d])
  }

  /** The outcome of the visit of a destination. */
  ghost predicate VisitedBy(before: Buffers<Record>, dest: nat, outcome: Outcome)
    requires dest < |before|
  {
    outcome == if before[dest] == [] then Kept else Posted(dest, Pack(before[dest]))
  }

  /** What the first visits post, in order. */
  ghost predicate Visited(before: Buffers<Record>, rank: nat, outcomes: seq<Outcome>)
    requires rank < |before|
  {
    && |outcomes| <= |before|
    && forall j :: 0 <= j < |outcomes| ==> VisitedBy(before, FlushTarget(rank, j, |before|), outcomes[j])
  }

  lemma VisitNext(before: Buffers<Record>, rank: nat, outcomes: seq<Outcome>, outcome: Outcome)
    requires rank < |before| && |outcomes| < |before| && Visited(before, rank, outcomes)
    requires VisitedBy(before, FlushTarget(rank, |outcomes|, |before|), outcome)
    ensures Visited(before, rank, outcomes + [outcome])
  {
  }

  lemma VisitedInTurn(before: Buffers<Record>, rank: nat, outcomes: seq<Outcome>, j: nat)
    requires rank < |before| && Visited(before, rank, outcomes) && j < |outcomes|
    ensures var dest := (rank + j) % |before|;
            outcomes[j] == if before[dest] == [] then Kept else Posted(dest, Pack(before[dest]))
  {
    FlushTargetIsModulo(rank, j, |before|);
    assert VisitedBy(before, FlushTarget(rank, j, |before|), outcomes[j]);
  }

  lemma FlushOneMore(before: Buffers<Record>, rank: nat, i: nat)
    requires rank < |before| && i < |before|
    ensures var dest := FlushTarget(rank, i, |before|);
            && FlushedFirst(before, rank, i)[dest] == before[dest]
            && FlushedFirst(before, rank, i + 1) == FlushedFirst(before, rank, i)[dest := []]
  {
  }

  /** The buffers of one worker, one per destination; `fallback` is null when packets are used. */
  class WorkerBuffers {
    const capacity: nat
    const size: nat
    const sendBuffers: seq<SendBuffer>
    const fallback: array?<Byte>

    constructor (batchRecords: nat, recordSize: nat, rankCount: nat, usePackets: bool)
      requires batchRecords > 0 && recordSize > 0
      ensures Wired() && |sendBuffers| == rankCount && capacity == batchRecords && size == recordSize
      ensures NothingBuffered(Contents()) && (usePackets <==> fallback == null)
      ensures fresh(sendBuffers) && (fallback != null ==> fresh(fallback))
    {
      capacity, size := batchRecords, recordSize;
      var buffers: seq<SendBuffer> := [];
      for r := 0 to rankCount
        invariant |buffers| == r && fresh(buffers)
        invariant forall d :: 0 <= d < r ==> buffers[d].Valid() && buffers[d].capacity == batchRecords
        invariant forall d :: 0 <= d < r ==> buffers[d].size == recordSize && buffers[d].storage == null
        invariant forall d, e :: 0 <= d < e < r ==> buffers[d] != buffers[e]
      {
        var sendBuffer := new SendBuffer(batchRecords, recordSize);
        buffers := buffers + [sendBuffer];
      }
      sendBuffers := buffers;
      fallback := null;
      if !usePackets {
        fallback := new Byte[MessageBytes(rankCount, MessageBytes(batchRecords, recordSize))](_ => 0);
      }
    }

    function Part(): nat
    {
      MessageBytes(capacity, size)
    }

    /** Where a buffer of the fallback storage points to. */
    ghost predicate InPlace(d: nat)
      requires d < |sendBuffers|
      reads sendBuffers[d]
    {
      && sendBuffers[d].Valid() && sendBuffers[d].capacity == capacity && sendBuffers[d].size == size
      && (sendBuffers[d].storage != null && fallback != null ==>
            sendBuffers[d].storage == fallback && sendBuffers[d].offset == MessageBytes(d, Part()))
    }

    /** Two buffers never share a byte. */
    ghost predicate Apart(d: nat, e: nat)
      requires d < |sendBuffers| && e < |sendBuffers|
      reads sendBuffers[d], sendBuffers[e]
    {
      && sendBuffers[d] != sendBuffers[e]
      && (sendBuffers[d].storage != null && fallback == null ==> sendBuffers[d].storage != sendBuffers[e].storage)
    }

    /** The shape of the buffers, also in the middle of a post. */
    ghost predicate Wired()
      reads sendBuffers
    {
      && capacity > 0 && size > 0
      && (forall d :: 0 <= d < |sendBuffers| ==> InPlace(d))
      && (forall d, e :: 0 <= d < |sendBuffers| && 0 <= e < |sendBuffers| && d != e ==> Apart(d, e))
      && (fallback != null ==> MessageBytes(|sendBuffers|, Part()) <= fallback.Length)
    }

    ghost function Storages(): set<object?>
      reads sendBuffers
    {
      set d | 0 <= d < |sendBuffers| :: sendBuffers[d].storage
    }

    /** The records buffered for every destination. */
    ghost function Contents(): (buffers: Buffers<Record>)
      requires Wired()
      reads sendBuffers, Storages()
      ensures |buffers| == |sendBuffers|
    {
      seq(|sendBuffers|, d requires 0 <= d < |sendBuffers| reads sendBuffers, Storages() requires Wired() =>
        assert InPlace(d);
        sendBuffers[d].Contents())
    }

    /** Between operations every buffer is strictly below its capacity. */
    ghost predicate Valid()
      reads sendBuffers, Storages()
    {
      Wired() && BelowCapacity(Contents(), capacity)
    }

    lemma PartFits(d: nat)
      requires d < |sendBuffers|
      ensures MessageBytes(d, Part()) + Part() <= MessageBytes(|sendBuffers|, Part())
    {
      BytesStep(d, Part());
      BytesMonotone(d + 1, |sendBuffers|, Part());
    }

    /** The buffer for `dest` gets storage if it has none; nothing is written. */
    method GrantStorage(dest: nat)
      requires Wired() && dest < |sendBuffers|
      modifies sendBuffers[dest]
      ensures Wired() && sendBuffers[dest].storage != null
      ensures forall d :: 0 <= d < |sendBuffers| ==> InPlace(d) && sendBuffers[d].Contents() == old(Contents())[d]
      ensures sendBuffers[dest].storage in old(Storages()) + {fallback} || fresh(sendBuffers[dest].storage)
    {
      PartFits(dest);
      assert InPlace(dest);
      ghost var before := Contents();
      sendBuffers[dest].TakeStorage(fallback, MessageBytes(dest, Part()));
      forall d | 0 <= d < |sendBuffers| ensures InPlace(d) && sendBuffers[d].Contents() == before[d] {
        assert old(InPlace(d)) && (d != dest ==> old(Apart(d, dest)));
      }
      forall d, e | 0 <= d < |sendBuffers| && 0 <= e < |sendBuffers| && d != e ensures Apart(d, e) {
        assert old(Apart(d, e)) && old(Apart(e, d));
      }
    }

    method TakeStorage(dest: nat)
      requires Wired() && dest < |sendBuffers|
      modifies sendBuffers[dest]
      ensures Wired() && sendBuffers[dest].storage != null && Contents() == old(Contents())
      ensures sendBuffers[dest].recordCount == old(sendBuffers[dest].recordCount)
      ensures sendBuffers[dest].storage in old(Storages()) + {fallback} || fresh(sendBuffers[dest].storage)
    {
      ghost var before := Contents();
      assert InPlace(dest) && |before[dest]| == sendBuffers[dest].recordCount;
      GrantStorage(dest);
      assert InPlace(dest) && |sendBuffers[dest].Contents()| == sendBuffers[dest].recordCount;
      assert forall d :: 0 <= d < |sendBuffers| ==> Contents()[d] == before[d];
    }

    /** A write inside the part of `dest` changes no other buffer. */
    twostate lemma OthersKept(dest: nat)
      requires old(Wired()) && dest < |sendBuffers| && old(sendBuffers[dest].storage) != null
      requires forall d :: 0 <= d < |sendBuffers| && d != dest ==> unchanged(sendBuffers[d])
      requires forall d :: 0 <= d < |sendBuffers| && d != dest ==>
                 sendBuffers[d].storage == null || sendBuffers[d].storage == old(sendBuffers[dest].storage)
                 || unchanged(sendBuffers[d].storage)
      requires var bytes, at := old(sendBuffers[dest].storage), old(sendBuffers[dest].offset);
               at + Part() <= bytes.Length && bytes[..][..at] == old(bytes[..])[..at]
               && bytes[..][at + Part()..] == old(bytes[..])[at + Part()..]
      ensures forall d :: 0 <= d < |sendBuffers| && d != dest ==>
                InPlace(d) && sendBuffers[d].Contents() == old(sendBuffers[d].Contents())
    {
      var bytes := old(sendBuffers[dest].storage);
      forall d | 0 <= d < |sendBuffers| && d != dest
        ensures InPlace(d) && sendBuffers[d].Message() == old(sendBuffers[d].Message())
      {
        assert old(InPlace(d)) && old(InPlace(dest)) && old(Apart(d, dest));
        if sendBuffers[d].storage == bytes {
          PartKept(old(bytes[..]), bytes[..], d, dest, Part(), MessageBytes(sendBuffers[d].recordCount, size));
        }
      }
    }

    /** Appends the record to the buffer for `dest`; no byte of another buffer is written. */
    method AppendBytes(dest: nat, record: Record)
      requires Wired() && dest < |sendBuffers| && |record| == size
      requires sendBuffers[dest].storage != null && sendBuffers[dest].recordCount < capacity
      modifies sendBuffers[dest], sendBuffers[dest].storage
      ensures Wired() && InPlace(dest) && sendBuffers[dest].Contents() == old(Contents())[dest] + [record]
      ensures forall d :: 0 <= d < |sendBuffers| && d != dest ==>
                InPlace(d) && sendBuffers[d].Contents() == old(Contents())[d]
    {
      assert InPlace(dest);
      ghost var before := Contents();
      sendBuffers[dest].Append(record);
      forall d | 0 <= d < |sendBuffers| && d != dest ensures unchanged(sendBuffers[d]) {
        assert old(Apart(d, dest));
      }
      OthersKept(dest);
      forall d, e | 0 <= d < |sendBuffers| && 0 <= e < |sendBuffers| && d != e ensures Apart(d, e) {
        assert old(Apart(d, e));
      }
    }

    method Append(dest: nat, record: Record)
      requires Wired() && dest < |sendBuffers| && |record| == size
      requires sendBuffers[dest].storage != null && sendBuffers[dest].recordCount < capacity
      modifies sendBuffers[dest], sendBuffers[dest].storage
      ensures Wired() && Contents() == old(Contents())[dest := old(Contents())[dest] + [record]]
    {
      ghost var before := Contents();
      AppendBytes(dest, record);
      assert forall d :: 0 <= d < |sendBuffers| ==>
               Contents()[d] == if d == dest then before[d] + [record] else before[d];
    }

    /** The other buffers after a release. */
    twostate lemma ReleasedAlone(dest: nat)
      requires old(Wired()) && dest < |sendBuffers| && sendBuffers[dest].storage == null && InPlace(dest)
      requires forall d :: 0 <= d < |sendBuffers| && d != dest ==> unchanged(sendBuffers[d])
      requires forall d :: 0 <= d < |sendBuffers| && d != dest && sendBuffers[d].storage != null ==>
                 unchanged(sendBuffers[d].storage)
      ensures Wired()
      ensures forall d :: 0 <= d < |sendBuffers| && d != dest ==>
                InPlace(d) && sendBuffers[d].Contents() == old(sendBuffers[d].Contents())
    {
      forall d | 0 <= d < |sendBuffers| && d != dest
        ensures InPlace(d) && sendBuffers[d].Message() == old(sendBuffers[d].Message())
      {
        assert old(InPlace(d));
      }
      forall d, e | 0 <= d < |sendBuffers| && 0 <= e < |sendBuffers| && d != e ensures Apart(d, e) {
        assert old(Apart(d, e));
      }
    }

    /** Releases the buffer for `dest` and nothing else. */
    method ReleaseBuffer(dest: nat)
      requires Wired() && dest < |sendBuffers|
      modifies sendBuffers[dest]
      ensures Wired() && Contents() == old(Contents())[dest := []]
    {
      assert InPlace(dest);
      ghost var before := Contents();
      sendBuffers[dest].Release();
      forall d | 0 <= d < |sendBuffers| && d != dest ensures unchanged(sendBuffers[d]) {
        assert old(Apart(d, dest));
      }
      ReleasedAlone(dest);
      assert forall d :: 0 <= d < |sendBuffers| ==> Contents()[d] == if d == dest then [] else before[d];
    }

    /** flush_dest: a buffer with records is posted as one message and released. */
    method FlushDest(dest: nat) returns (outcome: Outcome)
      requires Wired() && dest < |sendBuffers|
      modifies sendBuffers[dest]
      ensures Wired() && Contents() == old(Contents())[dest := []]
      ensures outcome == if old(Contents())[dest] == [] then Kept else Posted(dest, Pack(old(Contents())[dest]))
      ensures outcome.Posted? ==> Carries(outcome.message, old(Contents())[dest], size)
    {
      assert InPlace(dest);
      ghost var before := Contents();
      var sendBuffer := sendBuffers[dest];
      if sendBuffer.recordCount == 0 {
        assert Contents() == before[dest := []];
        return Kept;
      }
      var message := sendBuffer.Message();
      PackUnpack(message, sendBuffer.recordCount, size);
      assert message == Pack(before[dest]) && Carries(message, before[dest], size);
      ReleaseBuffer(dest);
      outcome := Posted(dest, message);
    }

    /** post_record: the record is buffered, and a buffer that becomes full is posted. */
    method PostRecord(dest: int, record: Record) returns (outcome: Outcome)
      requires Valid() && |record| == size
      modifies sendBuffers, Storages(), fallback
      ensures Valid()
      ensures outcome.OutOfRange? <==> dest < 0 || dest >= |sendBuffers|
      ensures outcome.OutOfRange? ==> Contents() == old(Contents())
      ensures !outcome.OutOfRange? ==> (outcome.Posted? <==> |old(Contents())[dest]| + 1 == capacity)
      ensures outcome.Kept? ==> Contents() == old(Contents())[dest := old(Contents())[dest] + [record]]
      ensures outcome.Posted? ==>
                && outcome.dest == dest && Contents() == old(Contents())[dest := []]
                && outcome.message == Pack(old(Contents())[dest] + [record])
                && Carries(outcome.message, old(Contents())[dest] + [record], size)
    {
      if dest < 0 || dest >= |sendBuffers| {
        return OutOfRange;
      }
      TakeStorage(dest);
      assert InPlace(dest) && |Contents()[dest]| == sendBuffers[dest].recordCount;
      Append(dest, record);
      assert InPlace(dest) && |Contents()[dest]| == sendBuffers[dest].recordCount;
      if sendBuffers[dest].recordCount == sendBuffers[dest].capacity {
        outcome := FlushDest(dest);
      } else {
        outcome := Kept;
      }
    }

    /**
     flush_worker: every destination once, from the own rank upwards; what a destination's buffer
     held leaves for it as one message, and afterwards nothing is buffered.
     */
    method FlushWorker(rank: nat) returns (outcomes: seq<Outcome>)
      requires Wired() && rank < |sendBuffers|
      modifies sendBuffers
      ensures Wired() && NothingBuffered(Contents()) && |outcomes| == |sendBuffers|
      ensures forall j :: 0 <= j < |outcomes| ==>
                outcomes[j] == if old(Contents())[(rank + j) % |outcomes|] == [] then Kept
                               else Posted((rank + j) % |outcomes|, Pack(old(Contents())[(rank + j) % |outcomes|]))
    {
      ghost var before := Contents();
      outcomes := [];
      for i := 0 to |sendBuffers|
        invariant Wired() && Contents() == FlushedFirst(before, rank, i)
        invariant Visited(before, rank, outcomes) && |outcomes| == i
      {
        FlushTargetIsModulo(rank, i, |sendBuffers|);
        FlushOneMore(before, rank, i);
        var outcome := FlushDest((rank + i) % |sendBuffers|);
        VisitNext(before, rank, outcomes, outcome);
        outcomes := outcomes + [outcome];
      }
      forall j | 0 <= j < |outcomes|
        ensures outcomes[j] == if before[(rank + j) % |outcomes|] == [] then Kept
                               else Posted((rank + j) % |outcomes|, Pack(before[(rank + j) % |outcomes|]))
      {
        VisitedInTurn(before, rank, outcomes, j);
      }
    }

    /** has_buffered_records: the test that clear_am_handler makes. */
    method HasBufferedRecords() returns (buffered: bool)
      requires Wired()
      ensures buffered <==> !NothingBuffered(Contents())
    {
      for d := 0 to |sendBuffers|
        invariant forall e :: 0 <= e < d ==> Contents()[e] == []
      {
        assert InPlace(d) && |Contents()[d]| == sendBuffers[d].recordCount;
        if sendBuffers[d].recordCount != 0 {
          return true;
        }
      }
      buffered := false;
    }
  }

  /** The receiving side of a rank: the handler's invocations in order, and recv_count. */
  class Receiver {
    const size: nat
    var handled: seq<Record>
    var recvCount: nat

    constructor (recordSize: nat)
      requires recordSize > 0
      ensures size == recordSize && handled == [] && recvCount == 0
    {
      size, handled, recvCount := recordSize, [], 0;
    }

    /**
     receive_message_impl: the handler sees the records of the batch in order, and only then is
     the count raised. A message that is not a batch aborts and leaves no trace.
     */
    method ReceiveMessage(message: seq<Byte>) returns (aborted: bool)
      requires size > 0
      modifies this
      ensures aborted <==> RecordCountFromMessageBytes(|message|, size).None?
      ensures aborted ==> handled == old(handled) && recvCount == old(recvCount)
      ensures !aborted ==>
                var count := RecordCountFromMessageBytes(|message|, size).value;
                handled == old(handled) + Unpack(message, count, size) && recvCount == old(recvCount) + count
    {
      var recordCount := RecordCountFromMessageBytes(|message|, size);
      if recordCount.None? {
        return true;
      }
      for i := 0 to recordCount.value
        invariant MessageBytes(i, size) <= |message| && recvCount == old(recvCount)
        invariant handled == old(handled) + Unpack(message, i, size)
      {
        BytesStep(i, size);
        BytesMonotone(i + 1, recordCount.value, size);
        var record := LoadRecord(message, i, size);
        handled := handled + [record];
      }
      recvCount := recvCount + recordCount.value;
      aborted := false;
    }
  }

  lemma SameCount(n: nat, m: nat, size: nat)
    requires size > 0 && MessageBytes(n, size) == MessageBytes(m, size)
    ensures n == m
  {
    ModUnique(MessageBytes(n, size), n, 0, size);
    ModUnique(MessageBytes(n, size), m, 0, size);
  }

  /** The message of a batch carries the number of its records. */
  lemma BatchSize(batch: seq<Record>, size: nat)
    requires Sized(batch, size) && size > 0 && batch != []
    ensures RecordCountFromMessageBytes(|Pack(batch)|, size) == Some(|batch|)
  {
    PackedSize(batch, size);
    BytesMonotone(1, |batch|, size);
    var count := RecordCountFromMessageBytes(|Pack(batch)|, size);
    SameCount(count.value, |batch|, size);
  }

  /** A message on its way: to a rank, over the device of the posting worker. */
  datatype Packet = Packet(dest: nat, device: nat, message: seq<Byte>)

  /**
   post_send_buffer for the message of a nonempty batch: with loopback the own handler sees the
   batch, otherwise the message enters the network once, after `retries` unsuccessful attempts.
   */
  method PostMessage(dest: nat, ghost batch: seq<Record>, message: seq<Byte>, myRank: nat, useLoopback: bool,
                     device: nat, receiver: Receiver, retries: nat, network: seq<Packet>)
    returns (network': seq<Packet>)
    requires receiver.size > 0 && Sized(batch, receiver.size) && batch != [] && message == Pack(batch)
    modifies receiver
    ensures dest == myRank && useLoopback ==>
              && network' == network && receiver.handled == old(receiver.handled) + batch
              && receiver.recvCount == old(receiver.recvCount) + |batch|
    ensures !(dest == myRank && useLoopback) ==>
              && network' == network + [Packet(dest, device, message)]
              && receiver.handled == old(receiver.handled) && receiver.recvCount == old(receiver.recvCount)
  {
    BatchSize(batch, receiver.size);
    UnpackPack(batch, receiver.size);
    if dest == myRank && useLoopback {
      var aborted := receiver.ReceiveMessage(message);
      return network;
    }
    network' := network;
    var attempt, retry := 0, true;
    while retry
      invariant attempt <= retries && network' == if retry then network else network + [Packet(dest, device, message)]
      decreases retry, retries - attempt
    {
      if attempt < retries {
        attempt := attempt + 1;
      } else {
        network', retry := network' + [Packet(dest, device, message)], false;
      }
    }
  }
}
