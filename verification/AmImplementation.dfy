/**
 The buffers, messages and counters in memory do what the steps of the protocol say: a post, the
 flush of one destination, the way of a batch into the network, its receipt, and the handler.
 */
module AmImplementation {
  import opened Histograms
  import opened AmMessage
  import opened AmBuffers
  import opened SendBuffers
  import opened Workspace
  import opened AmProtocol

  function DeviceOf(c: Config, g: nat): nat
  {
    if g < |c.device| then c.device[g] else 0
  }

  /** How a key is stored in a record. */
  datatype Codec = Codec(size: nat, encode: Key -> Record, decode: Record -> Key)
  {
    predicate Fills(k: Key)
    {
      |encode(k)| == size
    }

    ghost predicate Valid()
    {
      size > 0 && forall k :: Fills(k)
    }

    /** The key survives being copied into a record and out of it. */
    predicate Keeps(k: Key)
    {
      decode(encode(k)) == k
    }

    function Encoded(keys: seq<Key>): (records: seq<Record>)
      ensures |records| == |keys|
    {
      seq(|keys|, i requires 0 <= i < |keys| => encode(keys[i]))
    }

    function Decoded(records: seq<Record>): (keys: seq<Key>)
      ensures |keys| == |records|
    {
      seq(|records|, i requires 0 <= i < |records| => decode(records[i]))
    }

    function EncodedBuffers(buffers: Buffers<Key>): (encoded: Buffers<Record>)
      ensures |encoded| == |buffers|
    {
      seq(|buffers|, d requires 0 <= d < |buffers| => Encoded(buffers[d]))
    }

    /** The network as it is: every message goes to some rank over some device and is bytes. */
    function Wire(c: Config, network: seq<Message>): (wire: seq<Packet>)
      ensures |wire| == |network|
    {
      seq(|network|, i requires 0 <= i < |network| =>
        Packet(network[i].dst, DeviceOf(c, network[i].sender), Pack(Encoded(network[i].batch))))
    }
  }

  lemma EncodedAppend(codec: Codec, keys: seq<Key>, k: Key)
    ensures codec.Encoded(keys + [k]) == codec.Encoded(keys) + [codec.encode(k)]
  {
  }

  lemma EncodedPost(codec: Codec, buffers: Buffers<Key>, capacity: nat, dest: nat, k: Key)
    requires dest < |buffers|
    ensures var after, encoded := AfterPost(buffers, capacity, dest, k),
                                  AfterPost(codec.EncodedBuffers(buffers), capacity, dest, codec.encode(k));
            encoded.0 == codec.EncodedBuffers(after.0) && encoded.1 == codec.Encoded(after.1)
  {
    EncodedAppend(codec, buffers[dest], k);
  }

  lemma EncodedFlush(codec: Codec, buffers: Buffers<Key>, dest: nat)
    requires dest < |buffers|
    ensures AfterFlush(codec.EncodedBuffers(buffers), dest).0 == codec.EncodedBuffers(AfterFlush(buffers, dest).0)
  {
  }

  lemma EncodedSize(codec: Codec, keys: seq<Key>)
    requires codec.Valid()
    ensures Sized(codec.Encoded(keys), codec.size)
  {
    forall i | 0 <= i < |keys| ensures |codec.Encoded(keys)[i]| == codec.size {
      assert codec.Fills(keys[i]);
    }
  }

  lemma DecodedEncoded(codec: Codec, keys: seq<Key>)
    requires forall k :: k in keys ==> codec.Keeps(k)
    ensures codec.Decoded(codec.Encoded(keys)) == keys
  {
    forall i | 0 <= i < |keys| ensures codec.Decoded(codec.Encoded(keys))[i] == keys[i] {
      assert codec.Keeps(keys[i]);
    }
  }

  // ---------- the sending side ----------

  /** The buffers in memory hold the keys of the protocol's buffers. */
  ghost predicate Mirrors(memory: WorkerBuffers, codec: Codec, buffers: Buffers<Key>, capacity: nat)
    reads memory.sendBuffers, memory.Storages()
  {
    && memory.Valid() && codec.Valid() && memory.size == codec.size && memory.capacity == capacity
    && memory.Contents() == codec.EncodedBuffers(buffers)
  }

  // ---------- the receiving side, and the way into the network ----------

  /** The handler has seen the keys of the rank's histogram, and the counts agree. */
  ghost predicate Received(receiver: Receiver, codec: Codec, rank: Rank)
    reads receiver
  {
    && codec.Valid() && receiver.size == codec.size && receiver.recvCount == rank.recvCount
    && multiset(codec.Decoded(receiver.handled)) == rank.histogram
  }

  /** The handler's invocations for an open batch and the increment after them, with nobody in between. */
  ghost function AfterReceipt(c: Config, s: State, g: nat): State
    requires Shape(c, s) && !s.failed && g < |c.home| && s.workers[g].receipt.Receipt?
    decreases |s.workers[g].receipt.rest|
  {
    if s.workers[g].receipt.rest == [] then Apply(c, s, Complete(g))
    else AfterReceipt(c, Apply(c, s, Handle(g)), g)
  }

  lemma FirstHandled(rest: seq<Key>, histogram: multiset<Key>)
    requires rest != []
    ensures (histogram + multiset{rest[0]}) + multiset(rest[1..]) == histogram + multiset(rest)
  {
    assert rest == [rest[0]] + rest[1..];
  }

  lemma {:induction false} ReceiptAddsBatch(c: Config, s: State, g: nat)
    requires Shape(c, s) && !s.failed && g < |c.home| && s.workers[g].receipt.Receipt?
    ensures var receipt, rank, s' := s.workers[g].receipt, RankOf(c, s, g), AfterReceipt(c, s, g);
            && Shape(c, s') && !s'.failed && s'.workers[g].receipt.NoReceipt? && s'.network == s.network
            && s'.workers[g].buffers == s.workers[g].buffers
            && RankOf(c, s', g)
               == rank.(histogram := rank.histogram + multiset(receipt.rest),
                        recvCount := rank.recvCount + receipt.total)
    decreases |s.workers[g].receipt.rest|
  {
    var rest := s.workers[g].receipt.rest;
    if rest != [] {
      ReceiptAddsBatch(c, Apply(c, s, Handle(g)), g);
      FirstHandled(rest, RankOf(c, s, g).histogram);
    }
  }

  /** What a worker's progress can take: a packet for its rank that came over the worker's own device. */
  lemma ProgressTakesOwnDevice(codec: Codec, c: Config, s: State, g: nat, i: nat)
    requires Shape(c, s) && !s.failed && g < |c.home| && s.workers[g].receipt.NoReceipt? && i < |s.network|
    requires s.network[i].sender < |c.device|
    ensures var packet := codec.Wire(c, s.network)[i];
            Enabled(c, s, Deliver(g, i)) <==> packet.dest == c.home[g] && packet.device == c.device[g]
  {
  }

  /**
   handle_incoming_am for a message of the network: without a registered handler or with a message
   that is not a batch it ends the program, as the delivery does; otherwise it is the delivery of
   the batch and the receipt of it.
   */
  method ReceiveBatch(registered: bool, receiver: Receiver, codec: Codec, message: seq<Byte>,
                      ghost c: Config, ghost s: State, ghost g: nat, ghost i: nat)
    returns (aborted: bool)
    requires Shape(c, s) && Enabled(c, s, Deliver(g, i)) && registered == !RankOf(c, s, g).mode.Idle?
    requires Received(receiver, codec, RankOf(c, s, g)) && message == codec.Wire(c, s.network)[i].message
    requires forall k :: k in s.network[i].batch ==> codec.Keeps(k)
    modifies receiver
    ensures aborted <==> DoDeliver(c, s, g, i).failed
    ensures aborted ==> Received(receiver, codec, RankOf(c, s, g))
    ensures !aborted ==>
              && Shape(c, AfterReceipt(c, DoDeliver(c, s, g, i), g))
              && Received(receiver, codec, RankOf(c, AfterReceipt(c, DoDeliver(c, s, g, i), g), g))
  {
    if !registered {
      return true;
    }
    ghost var batch, before := s.network[i].batch, receiver.handled;
    EncodedSize(codec, batch);
    if batch != [] {
      ReceiptAddsBatch(c, DoDeliver(c, s, g, i), g);
      BatchSize(codec.Encoded(batch), codec.size);
      UnpackPack(codec.Encoded(batch), codec.size);
    }
    aborted := receiver.ReceiveMessage(message);
    DecodedEncoded(codec, batch);
    assert codec.Decoded(before + codec.Encoded(batch)) == codec.Decoded(before) + codec.Decoded(codec.Encoded(batch));
  }

  /** The step of a send, seen from the network and from the own receiver. */
  method SendBatch(receiver: Receiver, codec: Codec, dest: nat, ghost batch: seq<Key>, message: seq<Byte>, myRank: nat,
                   useLoopback: bool, device: nat, retries: nat, network: seq<Packet>,
                   ghost c: Config, ghost s: State, ghost g: nat)
    returns (network': seq<Packet>)
    requires Shape(c, s) && !s.failed && g < |c.home|
    requires myRank == c.home[g] && useLoopback == c.loopback && device == DeviceOf(c, g)
    requires batch != [] && message == Pack(codec.Encoded(batch))
    requires Received(receiver, codec, RankOf(c, s, g)) && network == codec.Wire(c, s.network)
    requires forall k :: k in batch ==> codec.Keeps(k)
    modifies receiver
    ensures Shape(c, Send(c, s, g, dest, batch)) && network' == codec.Wire(c, Send(c, s, g, dest, batch).network)
    ensures var s' := Send(c, s, g, dest, batch);
            var after := if dest == myRank && useLoopback then AfterReceipt(c, s', g) else s';
            Shape(c, after) && Received(receiver, codec, RankOf(c, after, g))
  {
    ghost var s', before := Send(c, s, g, dest, batch), receiver.handled;
    if dest == myRank && useLoopback {
      ReceiptAddsBatch(c, s', g);
    }
    EncodedSize(codec, batch);
    network' := PostMessage(dest, codec.Encoded(batch), message, myRank, useLoopback, device, receiver, retries,
                            network);
    DecodedEncoded(codec, batch);
    assert codec.Decoded(before + codec.Encoded(batch)) == codec.Decoded(before) + codec.Decoded(codec.Encoded(batch));
  }

  // ---------- a post and a flush, up to the network ----------

  /** After a step of worker g: with loopback the batch that it has sent to itself is received at once. */
  ghost function Settled(c: Config, s: State, g: nat): State
    requires Shape(c, s) && !s.failed && g < |c.home|
  {
    if s.workers[g].receipt.Receipt? then AfterReceipt(c, s, g) else s
  }

  /** The buffers, the network and the receiver are those of the state. */
  ghost predicate Follows(memory: WorkerBuffers, receiver: Receiver, network: seq<Packet>, codec: Codec,
                          c: Config, s: State, g: nat)
    requires Shape(c, s) && g < |c.home|
    reads memory.sendBuffers, memory.Storages(), receiver
  {
    && Mirrors(memory, codec, s.workers[g].buffers, c.capacity) && network == codec.Wire(c, s.network)
    && Received(receiver, codec, RankOf(c, s, g))
  }

  lemma SettledKeepsBuffers(c: Config, s: State, g: nat)
    requires Shape(c, s) && !s.failed && g < |c.home|
    ensures var s' := Settled(c, s, g);
            Shape(c, s') && s'.network == s.network && s'.workers[g].buffers == s.workers[g].buffers
  {
    if s.workers[g].receipt.Receipt? {
      ReceiptAddsBatch(c, s, g);
    }
  }

  /** What leaves the buffers is sent: nothing, or one message with the batch. */
  method Dispatch(receiver: Receiver, codec: Codec, outcome: SendBuffers.Outcome, myRank: nat, useLoopback: bool,
                  device: nat, retries: nat, network: seq<Packet>,
                  ghost dest: nat, ghost batch: seq<Key>, ghost c: Config, ghost s: State, ghost g: nat)
    returns (network': seq<Packet>)
    requires Shape(c, s) && !s.failed && g < |c.home| && s.workers[g].receipt.NoReceipt?
    requires myRank == c.home[g] && useLoopback == c.loopback && device == DeviceOf(c, g)
    requires outcome == if batch == [] then Kept else Posted(dest, Pack(codec.Encoded(batch)))
    requires Received(receiver, codec, RankOf(c, s, g)) && network == codec.Wire(c, s.network)
    requires forall k :: k in batch ==> codec.Keeps(k)
    modifies receiver
    ensures Shape(c, Send(c, s, g, dest, batch)) && !Send(c, s, g, dest, batch).failed
    ensures var s' := Settled(c, Send(c, s, g, dest, batch), g);
            && Shape(c, s') && network' == codec.Wire(c, s'.network) && Received(receiver, codec, RankOf(c, s', g))
            && s'.workers[g].buffers == s.workers[g].buffers
  {
    network' := network;
    if outcome.Posted? {
      network' := SendBatch(receiver, codec, outcome.dest, batch, outcome.message, myRank, useLoopback, device, retries,
                            network, c, s, g);
      SettledKeepsBuffers(c, Send(c, s, g, dest, batch), g);
    }
  }

  method PutKey(memory: WorkerBuffers, codec: Codec, dest: nat, key: Key, ghost buffers: Buffers<Key>)
    returns (outcome: SendBuffers.Outcome)
    requires Mirrors(memory, codec, buffers, memory.capacity)
    modifies memory.sendBuffers, memory.Storages(), memory.fallback
    ensures outcome.OutOfRange? <==> dest >= |buffers|
    ensures dest >= |buffers| ==> Mirrors(memory, codec, buffers, memory.capacity)
    ensures dest < |buffers| ==>
              var (after, batch) := AfterPost(buffers, memory.capacity, dest, key);
              && Mirrors(memory, codec, after, memory.capacity)
              && (outcome.Kept? <==> batch == [])
              && (outcome.Posted? ==> outcome == Posted(dest, Pack(codec.Encoded(batch))))
  {
    if dest < |buffers| {
      EncodedPost(codec, buffers, memory.capacity, dest, key);
    }
    assert codec.Fills(key);
    outcome := memory.PostRecord(dest, codec.encode(key));
  }

  /** The step Post: an exception, or a new state of the worker and a send. */
  lemma PostIsSend(c: Config, s: State, g: nat, dest: nat)
    requires Shape(c, s) && Enabled(c, s, Post(g))
    requires dest == PhaseOf(c, RankOf(c, s, g).phase).route(s.workers[g].todo[0])
    ensures DoPost(c, s, g).failed <==> dest >= c.rankCount
    ensures dest < c.rankCount ==>
              var w := s.workers[g];
              var s1 := WithWorker(s, g, PostedWorker(w, c.capacity, dest));
              && Shape(c, s1) && !s1.failed && s1.workers[g].receipt.NoReceipt? && s1.network == s.network
              && RankOf(c, s1, g) == RankOf(c, s, g)
              && s1.workers[g].buffers == AfterPost(w.buffers, c.capacity, dest, w.todo[0]).0
              && DoPost(c, s, g) == Send(c, s1, g, dest, AfterPost(w.buffers, c.capacity, dest, w.todo[0]).1)
  {
  }

  lemma PostedKeysKeep(codec: Codec, buffers: Buffers<Key>, capacity: nat, dest: nat, key: Key)
    requires dest < |buffers| && codec.Keeps(key) && forall k :: k in buffers[dest] ==> codec.Keeps(k)
    ensures forall k :: k in AfterPost(buffers, capacity, dest, key).1 ==> codec.Keeps(k)
  {
  }

  /**
   post_am with the send that it may cause is the step Post: the same exception, the same buffers,
   the same messages in the network, and with loopback the same handled records.
   */
  method PostKey(memory: WorkerBuffers, receiver: Receiver, codec: Codec, dest: nat, key: Key, myRank: nat,
                 useLoopback: bool, device: nat, retries: nat, network: seq<Packet>,
                 ghost c: Config, ghost s: State, ghost g: nat)
    returns (rejected: bool, network': seq<Packet>)
    requires Shape(c, s) && Enabled(c, s, Post(g)) && Follows(memory, receiver, network, codec, c, s, g)
    requires key == s.workers[g].todo[0] && dest == PhaseOf(c, RankOf(c, s, g).phase).route(key)
    requires myRank == c.home[g] && useLoopback == c.loopback && device == DeviceOf(c, g)
    requires codec.Keeps(key) && forall k :: dest < c.rankCount && k in s.workers[g].buffers[dest] ==> codec.Keeps(k)
    modifies memory.sendBuffers, memory.Storages(), memory.fallback, receiver
    ensures rejected <==> DoPost(c, s, g).failed
    ensures rejected ==> network' == network && Follows(memory, receiver, network', codec, c, s, g)
    ensures !rejected ==>
              && Shape(c, DoPost(c, s, g)) && Shape(c, Settled(c, DoPost(c, s, g), g))
              && Follows(memory, receiver, network', codec, c, Settled(c, DoPost(c, s, g), g), g)
  {
    PostIsSend(c, s, g, dest);
    var outcome := PutKey(memory, codec, dest, key, s.workers[g].buffers);
    rejected, network' := outcome.OutOfRange?, network;
    if !rejected {
      ghost var w, contents := s.workers[g], memory.Contents();
      ghost var s1 := WithWorker(s, g, PostedWorker(w, c.capacity, dest));
      PostedKeysKeep(codec, w.buffers, c.capacity, dest, key);
      network' := Dispatch(receiver, codec, outcome, myRank, useLoopback, device, retries, network, dest,
                           AfterPost(w.buffers, c.capacity, dest, key).1, c, s1, g);
      assert memory.Contents() == contents;
    }
  }

  /** The step Flush: a new state of the worker and a send. */
  lemma FlushIsSend(c: Config, s: State, g: nat)
    requires Shape(c, s) && Enabled(c, s, Flush(g))
    ensures var w := s.workers[g];
            var dest := FlushTarget(c.home[g], w.stage.next, c.rankCount);
            var s1 := WithWorker(s, g, FlushedWorker(w, dest));
            && Shape(c, s1) && !s1.failed && s1.workers[g].receipt.NoReceipt? && s1.network == s.network
            && RankOf(c, s1, g) == RankOf(c, s, g) && s1.workers[g].buffers == AfterFlush(w.buffers, dest).0
            && DoFlush(c, s, g) == Send(c, s1, g, dest, w.buffers[dest])
  {
  }

  method TakeKeys(memory: WorkerBuffers, codec: Codec, dest: nat, ghost buffers: Buffers<Key>)
    returns (outcome: SendBuffers.Outcome)
    requires Mirrors(memory, codec, buffers, memory.capacity) && dest < |buffers|
    modifies memory.sendBuffers
    ensures Mirrors(memory, codec, AfterFlush(buffers, dest).0, memory.capacity)
    ensures outcome == if buffers[dest] == [] then Kept else Posted(dest, Pack(codec.Encoded(buffers[dest])))
  {
    EncodedFlush(codec, buffers, dest);
    outcome := memory.FlushDest(dest);
  }

  /** The visit of one destination in flush_worker, with the send that it may cause, is the step Flush. */
  method FlushNext(memory: WorkerBuffers, receiver: Receiver, codec: Codec, i: nat, myRank: nat, useLoopback: bool,
                   device: nat, retries: nat, network: seq<Packet>, ghost c: Config, ghost s: State, ghost g: nat)
    returns (network': seq<Packet>)
    requires Shape(c, s) && Enabled(c, s, Flush(g)) && Follows(memory, receiver, network, codec, c, s, g)
    requires myRank == c.home[g] && useLoopback == c.loopback && device == DeviceOf(c, g)
    requires i == s.workers[g].stage.next
    requires forall d, k :: 0 <= d < c.rankCount && k in s.workers[g].buffers[d] ==> codec.Keeps(k)
    modifies memory.sendBuffers, receiver
    ensures Shape(c, DoFlush(c, s, g)) && !DoFlush(c, s, g).failed && Shape(c, Settled(c, DoFlush(c, s, g), g))
    ensures Follows(memory, receiver, network', codec, c, Settled(c, DoFlush(c, s, g), g), g)
  {
    FlushIsSend(c, s, g);
    FlushTargetIsModulo(myRank, i, |memory.sendBuffers|);
    var dest := (myRank + i) % |memory.sendBuffers|;
    var outcome := TakeKeys(memory, codec, dest, s.workers[g].buffers);
    ghost var w, contents := s.workers[g], memory.Contents();
    ghost var s1 := WithWorker(s, g, FlushedWorker(w, dest));
    network' := Dispatch(receiver, codec, outcome, myRank, useLoopback, device, retries, network, dest,
                         w.buffers[dest], c, s1, g);
    assert memory.Contents() == contents;
  }

  // ---------- clear_am_handler ----------

  /** The workers of rank r. */
  ghost predicate IsTeam(team: seq<nat>, c: Config, r: nat)
  {
    && (forall i :: 0 <= i < |team| ==> team[i] < |c.home| && c.home[team[i]] == r)
    && (forall g :: 0 <= g < |c.home| && c.home[g] == r ==> g in team)
  }

  lemma NothingEncoded(codec: Codec, buffers: Buffers<Key>)
    ensures NothingBuffered(codec.EncodedBuffers(buffers)) <==> NothingBuffered(buffers)
  {
    if NothingBuffered(codec.EncodedBuffers(buffers)) {
      forall d | 0 <= d < |buffers| ensures buffers[d] == [] {
        assert codec.EncodedBuffers(buffers)[d] == [];
      }
    }
  }

  /** clear_am_handler is refused exactly if one of the rank's workers has such a buffer. */
  lemma ClearFails(c: Config, s: State, r: nat, team: seq<nat>)
    requires Shape(c, s) && r < c.rankCount && !s.failed && IsTeam(team, c, r)
    ensures DoClear(c, s, r).failed <==> exists i :: 0 <= i < |team| && !NothingBuffered(s.workers[team[i]].buffers)
  {
    if g, d :| 0 <= g < |c.home| && c.home[g] == r && 0 <= d < c.rankCount && s.workers[g].buffers[d] != [] {
      assert g in team;
      var i :| 0 <= i < |team| && team[i] == g;
      assert !NothingBuffered(s.workers[team[i]].buffers);
    }
  }

  /** has_buffered_records for one worker tells whether the protocol's buffers hold a key. */
  method HoldsRecords(memory: WorkerBuffers, ghost codec: Codec, ghost buffers: Buffers<Key>) returns (held: bool)
    requires Mirrors(memory, codec, buffers, memory.capacity)
    ensures held <==> !NothingBuffered(buffers)
  {
    NothingEncoded(codec, buffers);
    ghost var contents := memory.Contents();
    held := memory.HasBufferedRecords();
    assert memory.Contents() == contents;
  }

  // ---------- the handler ----------

  /** The handler of the integer sort on one key is the step Handle, seen in the frequency table. */
  method CountHandled(workspace: IntegerSortWorkspace, key: Key, minKey: int, maxKey: int,
                      ghost c: Config, ghost s: State, ghost g: nat)
    requires Shape(c, s) && Enabled(c, s, Handle(g)) && key == s.workers[g].receipt.rest[0] && minKey <= key <= maxKey
    requires IsFrequencyTable(workspace.frequencyStorage[..], RankOf(c, s, g).histogram, minKey, maxKey)
    modifies workspace.frequencyStorage
    ensures Shape(c, DoHandle(c, s, g))
    ensures IsFrequencyTable(workspace.frequencyStorage[..], RankOf(c, DoHandle(c, s, g), g).histogram, minKey, maxKey)
  {
    workspace.CountKey(key, minKey, maxKey, RankOf(c, s, g).histogram);
  }

  // ---------- four-byte keys ----------

  /** The bytes of a nonnegative 32-bit key, the lowest first. */
  function FourBytes(k: Key): Record
  {
    [k % 256, (k / 256) % 256, (k / 0x1_0000) % 256, (k / 0x100_0000) % 256]
  }

  function FromBytes(record: Record): Key
  {
    if |record| != 4 then 0
    else
      var b0: int, b1: int, b2: int, b3: int := record[0], record[1], record[2], record[3];
      b0 + 256 * b1 + 0x1_0000 * b2 + 0x100_0000 * b3
  }

  lemma FourByteKeys(k: Key)
    ensures Codec(4, FourBytes, FromBytes).Valid()
    ensures 0 <= k < 0x8000_0000 ==> Codec(4, FourBytes, FromBytes).Keeps(k)
  {
  }
}
