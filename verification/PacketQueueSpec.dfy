/** The value a `packet_queue_t` stands for: a list of byte blocks, and the byte stream in them. */
module PacketQueueSpec {
  import opened Bytes

  type Blocks = seq<seq<byte>>

  /** The bytes of a queue, front first. */
  function Flat(q: Blocks): seq<byte> {
    if q == [] then [] else q[0] + Flat(q[1..])
  }

  datatype Taken = Taken(bytes: seq<byte>, rest: Blocks)

  /** `_mysock_dequeue_buffer` with `remove_partial`: the head block if it fits, else its first `max` bytes. */
  function TakePartial(q: Blocks, max: nat): Taken
    requires q != []
  {
    if |q[0]| > max
    then Taken(q[0][..max], [q[0][max..]] + q[1..])
    else Taken(q[0], q[1..])
  }

  lemma {:induction false} FlatConcat(q: Blocks, r: Blocks)
    ensures Flat(q + r) == Flat(q) + Flat(r)
  {
    if q == [] {
      assert q + r == r;
    } else {
      assert (q + r)[0] == q[0] && (q + r)[1..] == q[1..] + r;
      FlatConcat(q[1..], r);
    }
  }

  lemma FlatOne(b: seq<byte>)
    ensures Flat([b]) == b
  {
    assert Flat([b]) == b + Flat([]);
  }

  /** Appending a block appends its bytes. */
  lemma {:induction false} FlatPush(q: Blocks, b: seq<byte>)
    ensures Flat(q + [b]) == Flat(q) + b
  {
    FlatConcat(q, [b]);
    FlatOne(b);
  }

  /** A partial dequeue splits the stream in two and loses nothing: it returns as much of the head block as
      was asked for, and the block goes exactly if that is all of it. */
  lemma {:induction false} TakeSplits(q: Blocks, max: nat)
    requires q != []
    ensures var t := TakePartial(q, max);
            && Flat(q) == t.bytes + Flat(t.rest)
            && |t.bytes| == Min(max, |q[0]|)
            && |t.rest| == if |q[0]| <= max then |q| - 1 else |q|
  {
    var t := TakePartial(q, max);
    if |q[0]| > max {
      assert t.rest[0] == q[0][max..] && t.rest[1..] == q[1..];
      assert q[0] == q[0][..max] + q[0][max..];
      assert Flat(t.rest) == q[0][max..] + Flat(q[1..]);
    }
  }

  // ----- whole runs of a queue ---------------------------------------------------------------

  datatype Op = Enqueue(block: seq<byte>) | Dequeue(max: nat)

  datatype Trace = Trace(queue: Blocks, put: seq<byte>, got: seq<byte>)

  /** One call; a dequeue on an empty queue blocks, so it leaves the state alone. */
  function Apply(t: Trace, op: Op): Trace {
    match op
    case Enqueue(b) => Trace(t.queue + [b], t.put + b, t.got)
    case Dequeue(max) =>
      if t.queue == [] then t
      else var k := TakePartial(t.queue, max); Trace(k.rest, t.put, t.got + k.bytes)
  }

  function RunOps(t: Trace, ops: seq<Op>): Trace
    decreases |ops|
  {
    if ops == [] then t else RunOps(Apply(t, ops[0]), ops[1..])
  }

  /** However calls interleave: bytes returned ++ bytes left == bytes enqueued. */
  lemma {:induction false} QueueIsAByteStream(t: Trace, ops: seq<Op>)
    requires t.put == t.got + Flat(t.queue)
    ensures var u := RunOps(t, ops); u.put == u.got + Flat(u.queue)
    decreases |ops|
  {
    if ops != [] {
      match ops[0] {
        case Enqueue(b) => FlatPush(t.queue, b);
        case Dequeue(max) => if t.queue != [] { TakeSplits(t.queue, max); }
      }
      var u := Apply(t, ops[0]);
      assert u.put == u.got + Flat(u.queue);
      QueueIsAByteStream(u, ops[1..]);
    }
  }

  /** A read of positive size that returns nothing took an empty block at the head, so every byte
      enqueued before that block has been returned already (the end-of-file convention of myread). */
  lemma EmptyReadOnlyAtMarker(before: Blocks, after: Blocks, t: Trace, max: nat)
    requires t.queue == before + [[]] + after && max > 0
    requires forall b <- before :: b != []
    ensures |TakePartial(t.queue, max).bytes| == 0 <==> before == []
  {
    if before != [] {
      assert t.queue[0] == before[0];
      assert before[0] in before;
    }
  }
}
