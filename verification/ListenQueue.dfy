/** listen_queue_t, updated in place: each method is its operation on the value of the queue. */
module ListenQueue {
  import Spec = ListenQueueSpec

  /** completed_connect_t: a pointer to an element of a pool. */
  datatype Pointer = Pointer(pool: array<Spec.Slot>, index: nat)

  /** The pointers seen from a queue whose pool is `pool`. */
  function Refs(pool: array<Spec.Slot>, completed: seq<Pointer>): (r: seq<Spec.Ref>)
    ensures |r| == |completed|
    ensures forall i | 0 <= i < |r| :: r[i] == Spec.Ref(completed[i].pool == pool, completed[i].index)
  {
    seq(|completed|, i requires 0 <= i < |completed| => Spec.Ref(completed[i].pool == pool, completed[i].index))
  }

  class ListenQueue {
    var queue: array<Spec.Slot>
    var maxLen: nat
    var curLen: int
    var completed: seq<Pointer>
    ghost var completions: seq<int>
    ghost var accepts: seq<int>

    ghost function View(): Spec.State
      reads this, queue
    {
      Spec.State(queue[..], maxLen, curLen, Refs(queue, completed), completions, accepts)
    }

    constructor ()
      ensures View() == Spec.Initial() && fresh(queue)
    {
      queue := new Spec.Slot[0];
      maxLen, curLen, completed := 0, 0, [];
      completions, accepts := [], [];
    }

    /** The searches of the operations, each up to `maxLen`. */
    method FindSlot(w: Spec.Wanted) returns (k: nat)
      requires maxLen <= queue.Length
      ensures k == Spec.FindSlot(queue[..], maxLen, w)
    {
      k := 0;
      while k < maxLen && !w.Is(queue[k])
        invariant k <= maxLen
        invariant forall j | 0 <= j < k :: !w.Is(queue[j])
      {
        k := k + 1;
      }
    }

    /** _mysock_enqueue_connection; `ok` is false when an assertion fails. */
    method Enqueue(syn: bool, peer: nat, sd: int) returns (ok: bool, queued: bool)
      requires maxLen <= queue.Length
      modifies this`curLen, queue
      ensures var r := Spec.Enqueue(old(View()), syn, peer, sd);
              && ok == r.Some?
              && (ok ==> queue == old(queue) && View() == r.value.0 && queued == r.value.1)
    {
      ok, queued := true, false;
      if !syn {
        return;
      }
      var k := FindSlot(Spec.OfPeer(peer));
      if k < maxLen {
        return;
      }
      if curLen < maxLen {
        k := FindSlot(Spec.Free);
        if k == maxLen || queue[k].sd != -1 {
          return false, false;
        }
        curLen := curLen + 1;
        if sd < 0 {
          queue[k] := Spec.FREE;
          curLen := curLen - 1;
        } else {
          queue[k] := Spec.Slot(peer, sd);
          queued := true;
        }
      }
    }

    /** _mysock_passive_connection_complete. */
    method Complete(sd: int) returns (ok: bool)
      requires maxLen <= queue.Length
      modifies this`completed, this`completions
      ensures var r := Spec.Complete(old(View()), sd); ok == r.Some? && (ok ==> View() == r.value)
    {
      var k := FindSlot(Spec.OfSd(sd));
      if k == maxLen {
        return false;
      }
      completed := completed + [Pointer(queue, k)];
      completions := completions + [sd];
      ok := true;
    }

    /** _mysock_dequeue_connection, once a connection is there. */
    method Accept() returns (ok: bool, sd: int)
      requires completed != []
      modifies this`curLen, this`completed, this`accepts, queue
      ensures var r := Spec.Accept(old(View()));
              && ok == r.Some?
              && (ok ==> queue == old(queue) && View() == r.value.0 && sd == r.value.1)
    {
      var r := completed[0];
      sd := -1;
      if r.pool != queue || r.index >= queue.Length || queue[r.index].sd < 0 || curLen <= 0 {
        return false, sd;
      }
      completed := completed[1..];
      sd := queue[r.index].sd;
      queue[r.index] := Spec.FREE;
      curLen := curLen - 1;
      accepts := accepts + [sd];
      ok := true;
    }

    /** _mysock_set_backlog: realloc gives a larger pool a new place. */
    method SetBacklog(backlog: nat)
      requires maxLen <= queue.Length
      modifies this`queue, this`maxLen
      ensures View() == Spec.SetBacklog(old(View()), backlog)
      ensures queue == old(queue) || fresh(queue)
    {
      var max := backlog + 1;
      if max > maxLen {
        var grown := new Spec.Slot[max](i requires 0 <= i < max reads this, queue =>
          if i < maxLen && i < queue.Length then queue[i] else Spec.FREE);
        assert grown[..] == queue[..maxLen] + Spec.Frees(max - maxLen);
        assert Refs(grown, completed) == Spec.Stale(Refs(queue, completed));
        queue := grown;
      }
      maxLen := max;
    }
  }
}
