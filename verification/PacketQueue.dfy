/** packet_queue_t as mysock.c keeps it: a singly linked list of heap blocks with head and tail. */
module PacketQueue {
  import opened Bytes
  import opened PacketQueueSpec

  class Node {
    var data: array<byte>
    var len: nat
    var next: Node?

    constructor (data: array<byte>, len: nat)
      ensures this.data == data && this.len == len && this.next == null
    {
      this.data, this.len, this.next := data, len, null;
    }
  }

  /** memcpy(dst, src + from, count) */
  method Memcpy(dst: array<byte>, src: array<byte>, from: nat, count: nat)
    requires from + count <= src.Length && count <= dst.Length && dst != src
    modifies dst
    ensures dst[..count] == src[from..from + count] && dst[count..] == old(dst[count..])
  {
    var i := 0;
    while i < count
      invariant 0 <= i <= count
      invariant dst[..i] == src[from..from + i]
      invariant dst[count..] == old(dst[count..])
    {
      dst[i] := src[from + i];
      assert dst[..i + 1] == dst[..i] + [src[from + i]];
      i := i + 1;
    }
  }

  class Queue {
    var head: Node?
    var tail: Node?
    /** The nodes from head to tail, and the bytes each of them holds. */
    ghost var nodes: seq<Node>
    ghost var contents: Blocks

    /** head and tail are the ends of the chain `nodes`. */
    ghost predicate Linked()
      reads this, nodes
    {
      && (if nodes == [] then head == null && tail == null
          else head == nodes[0] && tail == nodes[|nodes| - 1] && tail.next == null)
      && (forall i, j | 0 <= i < |nodes| && j == i + 1 && j < |nodes| :: nodes[i].next == nodes[j])
    }

    /** No node occurs twice in the chain, so it is acyclic, and no two nodes share their bytes. */
    ghost predicate Separate()
      reads nodes, this
    {
      forall i, j | 0 <= i < j < |nodes| :: nodes[i] != nodes[j] && nodes[i].data != nodes[j].data
    }

    ghost function Data(): (s: set<array<byte>>)
      reads this, nodes
    {
      set n | n in nodes :: n.data
    }

    /** `contents` is what the nodes hold. */
    ghost predicate Holds()
      reads this, nodes, Data()
    {
      && |contents| == |nodes|
      && forall i | 0 <= i < |nodes| :: nodes[i].len <= nodes[i].data.Length && contents[i] == nodes[i].data[..nodes[i].len]
    }

    ghost predicate Valid()
      reads this, nodes, Data()
    {
      Linked() && Separate() && Holds()
    }

    constructor ()
      ensures Valid() && contents == [] && nodes == []
    {
      head, tail, nodes, contents := null, null, [], [];
    }

    /** Hang a node at the tail. */
    method Append(node: Node)
      requires Valid() && node !in nodes && node.data !in Data()
      requires node.next == null && node.len <= node.data.Length
      modifies this, tail
      ensures nodes == old(nodes) + [node] && contents == old(contents) + [node.data[..node.len]]
      ensures Valid()
      ensures node.data == old(node.data) && node.len == old(node.len)
      ensures forall n <- old(nodes) :: n.data == old(n.data)
    {
      if head == null {
        head, tail := node, node;
      } else {
        tail.next := node;
        tail := node;
      }
      nodes := nodes + [node];
      contents := contents + [node.data[..node.len]];
    }

    /** Take the head node off the chain. */
    method Unlink()
      requires Valid() && head != null
      modifies this
      ensures nodes == old(nodes)[1..] && contents == old(contents)[1..]
      ensures Valid()
    {
      assert |nodes| > 1 ==> nodes[0].next == nodes[1];
      head := head.next;
      if head == null {
        tail := null;
      }
      nodes := nodes[1..];
      contents := contents[1..];
      assert forall i | 0 <= i < |nodes| :: nodes[i] == old(nodes)[i + 1];
    }

    /** _mysock_enqueue_buffer: the bytes are copied, so the caller keeps its buffer. */
    method EnqueueBuffer(packet: array<byte>, packetLen: nat)
      requires Valid() && packetLen <= packet.Length
      modifies this, tail
      ensures Valid() && contents == old(contents) + [old(packet[..packetLen])]
      ensures |nodes| == |old(nodes)| + 1 && nodes[..|old(nodes)|] == old(nodes)
      ensures fresh(nodes[|old(nodes)|]) && fresh(nodes[|old(nodes)|].data)
    {
      var data := new byte[packetLen];
      Memcpy(data, packet, 0, packetLen);
      var node := new Node(data, packetLen);
      Append(node);
    }

    /** Drop the first `count` bytes of the head block, in place. */
    method ShiftHead(count: nat)
      requires Valid() && head != null && count <= head.len
      modifies this`contents, head`len, head.data
      ensures Valid() && contents == [old(contents)[0][count..]] + old(contents)[1..]
    {
      var node := head;
      ghost var before := node.data[..node.len];
      var rest := node.len - count;
      var mid := new byte[rest];
      Memcpy(mid, node.data, count, rest);
      assert mid[..rest] == before[count..];
      Memcpy(node.data, mid, 0, rest);
      node.len := rest;
      contents := [contents[0][count..]] + contents[1..];
      assert node.data[..rest] == before[count..];
    }

    /** Copy `count` bytes of a block to the caller, leaving the queue as it is. */
    method CopyOut(dst: array<byte>, node: Node, count: nat)
      requires Valid() && dst !in Data() && count <= dst.Length && count <= node.len <= node.data.Length && dst != node.data
      modifies dst
      ensures Valid() && dst[..count] == node.data[..count] && dst[count..] == old(dst[count..])
    {
      Memcpy(dst, node.data, 0, count);
    }

    /** _mysock_dequeue_buffer on a non-empty queue (an empty one blocks the caller). With
        `removePartial` a head block longer than `maxLen` loses its first `maxLen` bytes; otherwise
        the head block goes, and what did not fit into `dst` is dropped with it. */
    method DequeueBuffer(dst: array<byte>, maxLen: nat, removePartial: bool) returns (packetLen: nat)
      requires Valid() && head != null && maxLen <= dst.Length && dst !in Data()
      modifies this, head`len, head.data, dst
      ensures Valid()
      ensures removePartial ==>
                var t := TakePartial(old(contents), maxLen);
                && packetLen == |t.bytes| == Min(maxLen, |old(contents[0])|)
                && dst[..packetLen] == t.bytes && contents == t.rest
      ensures !removePartial ==>
                var block := old(contents[0]); var n := Min(maxLen, |block|);
                packetLen == |block| && dst[..n] == block[..n] && contents == old(contents)[1..]
      ensures var n := Min(maxLen, packetLen); dst[n..] == old(dst[n..])
    {
      var node := head;
      ghost var block := contents[0];
      assert node in nodes && block == node.data[..node.len];
      if node.len > maxLen && removePartial {
        CopyOut(dst, node, maxLen);
        assert dst[..maxLen] == block[..maxLen];
        ShiftHead(maxLen);
        packetLen := maxLen;
      } else {
        packetLen := node.len;
        var n := Min(maxLen, packetLen);
        Unlink();
        assert Data() <= old(Data());
        CopyOut(dst, node, n);
        assert dst[..n] == block[..n];
      }
    }
  }
}
