/** Records as bytes: a message is its records one after the other, all of the same size. */
module AmMessage {
  import opened Powers

  type Byte = b: int | 0 <= b < 256

  /** A trivially copyable record is its bytes. */
  type Record = seq<Byte>

  datatype Option<T> = None | Some(value: T)

  ghost predicate Sized(records: seq<Record>, size: nat)
  {
    forall i :: 0 <= i < |records| ==> |records[i]| == size
  }

  function MessageBytes(records: nat, size: nat): nat
  {
    records * size
  }

  function Pack(records: seq<Record>): seq<Byte>
  {
    if records == [] then [] else Pack(records[..|records| - 1]) + records[|records| - 1]
  }

  lemma {:induction false} PackedSize(records: seq<Record>, size: nat)
    requires Sized(records, size)
    ensures |Pack(records)| == MessageBytes(|records|, size)
  {
    if records != [] {
      PackedSize(records[..|records| - 1], size);
      assert MessageBytes(|records|, size) == MessageBytes(|records| - 1, size) + size;
    }
  }

  /** record_count_from_message_bytes; the empty message and a partial record abort the program. */
  function RecordCountFromMessageBytes(bytes: nat, size: nat): (count: Option<nat>)
    requires size > 0
    ensures count.Some? <==> exists n: nat :: n > 0 && bytes == MessageBytes(n, size)
    ensures count.Some? ==> count.value > 0 && bytes == MessageBytes(count.value, size)
  {
    if bytes == 0 || bytes % size != 0 then
      assert forall n: nat :: n > 0 ==> bytes != MessageBytes(n, size) by {
        forall n: nat | n > 0 && bytes == MessageBytes(n, size) ensures false {
          ModUnique(bytes, n, 0, size);
        }
      }
      None
    else
      assert bytes == MessageBytes(bytes / size, size);
      Some(bytes / size)
  }

  /** load_record copies the bytes of record i. */
  function LoadRecord(message: seq<Byte>, i: nat, size: nat): (record: Record)
    requires MessageBytes(i, size) + size <= |message|
    ensures |record| == size
  {
    message[MessageBytes(i, size)..MessageBytes(i, size) + size]
  }

  /** The first n records of a message. */
  function Unpack(message: seq<Byte>, n: nat, size: nat): (records: seq<Record>)
    requires MessageBytes(n, size) <= |message|
    ensures |records| == n && Sized(records, size)
  {
    if n == 0 then []
    else
      assert MessageBytes(n, size) == MessageBytes(n - 1, size) + size;
      Unpack(message, n - 1, size) + [LoadRecord(message, n - 1, size)]
  }

  lemma {:induction false} UnpackOfPrefix(message: seq<Byte>, more: seq<Byte>, n: nat, size: nat)
    requires MessageBytes(n, size) <= |message|
    ensures MessageBytes(n, size) <= |message + more|
    ensures Unpack(message + more, n, size) == Unpack(message, n, size)
  {
    if n > 0 {
      assert MessageBytes(n, size) == MessageBytes(n - 1, size) + size;
      UnpackOfPrefix(message, more, n - 1, size);
      assert LoadRecord(message + more, n - 1, size) == LoadRecord(message, n - 1, size);
    }
  }

  /** The bytes of record i stand behind those of the i records before it. */
  lemma PackedAt(records: seq<Record>, size: nat, i: nat, j: nat)
    requires Sized(records, size) && i < |records| && j < size
    ensures MessageBytes(i, size) + j < |Pack(records)| && Pack(records)[MessageBytes(i, size) + j] == records[i][j]
    decreases |records|
  {
    var front, last := records[..|records| - 1], records[|records| - 1];
    PackedSize(front, size);
    if i < |front| {
      PackedAt(front, size, i, j);
    }
  }

  /** Unpacking what was packed gives the records back. */
  lemma {:induction false} UnpackPack(records: seq<Record>, size: nat)
    requires Sized(records, size)
    ensures MessageBytes(|records|, size) <= |Pack(records)|
    ensures Unpack(Pack(records), |records|, size) == records
  {
    PackedSize(records, size);
    if records != [] {
      var front, last := records[..|records| - 1], records[|records| - 1];
      UnpackPack(front, size);
      PackedSize(front, size);
      UnpackOfPrefix(Pack(front), last, |front|, size);
      assert LoadRecord(Pack(records), |front|, size) == last;
    }
  }

  /** Packing what was unpacked gives the bytes back. */
  lemma {:induction false} PackUnpack(message: seq<Byte>, n: nat, size: nat)
    requires MessageBytes(n, size) <= |message|
    ensures Pack(Unpack(message, n, size)) == message[..MessageBytes(n, size)]
  {
    if n > 0 {
      var at := MessageBytes(n - 1, size);
      assert MessageBytes(n, size) == at + size;
      PackUnpack(message, n - 1, size);
      var records := Unpack(message, n, size);
      assert records[..|records| - 1] == Unpack(message, n - 1, size);
      assert message[..at + size] == message[..at] + message[at..at + size];
    }
  }
}
