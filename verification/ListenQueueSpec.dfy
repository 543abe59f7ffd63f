/**
 * The backlog of a listening socket (connection_demux.c) on values: a pool of slots, a counter, and
 * the queue of completed connections, which points into the pool. `None` is a failed assertion or a
 * pointer into a pool that realloc has replaced (it may also grow in place, which is not told apart).
 */
module ListenQueueSpec {
  import opened Options

  /** connect_request_t: a zeroed address and descriptor -1 mark a free slot. */
  datatype Slot = Slot(peer: nat, sd: int)

  const FREE := Slot(0, -1)

  /** completed_connect_t: a slot of the pool, unless the pool has moved since. */
  datatype Ref = Ref(live: bool, index: nat)

  /** listen_queue_t, with the descriptors completed and accepted so far. */
  datatype State = State(slots: seq<Slot>, maxLen: nat, curLen: int, completed: seq<Ref>,
                         completions: seq<int>, accepts: seq<int>)

  /** What the three searches look for. */
  datatype Wanted = OfPeer(peer: nat) | Free | OfSd(sd: int) {
    predicate Is(s: Slot) {
      match this
      case OfPeer(peer) => s.peer == peer
      case Free => s.sd < 0
      case OfSd(sd) => s.sd == sd
    }
  }

  /** The first slot below `n` that is wanted, else `n`. */
  function FindSlot(slots: seq<Slot>, n: nat, w: Wanted): (k: nat)
    requires n <= |slots|
    ensures k <= n && (forall j | 0 <= j < k :: !w.Is(slots[j])) && (k < n ==> w.Is(slots[k]))
  {
    if n == 0 then 0
    else
      var k := FindSlot(slots, n - 1, w);
      if k < n - 1 || w.Is(slots[n - 1]) then k else n
  }

  /**
   * _mysock_enqueue_connection: a SYN from a new peer takes a free slot and the new descriptor
   * `sd` (negative if none could be made); anything else is dropped.
   */
  function Enqueue(st: State, syn: bool, peer: nat, sd: int): Option<(State, bool)>
    requires st.maxLen <= |st.slots|
  {
    if !syn || FindSlot(st.slots, st.maxLen, OfPeer(peer)) < st.maxLen then Some((st, false))
    else if st.curLen >= st.maxLen then Some((st, false))
    else
      var k := FindSlot(st.slots, st.maxLen, Free);
      if k == st.maxLen || st.slots[k].sd != -1 then None
      else if sd < 0 then Some((st.(slots := st.slots[k := FREE]), false))
      else Some((st.(slots := st.slots[k := Slot(peer, sd)], curLen := st.curLen + 1), true))
  }

  /** _mysock_passive_connection_complete. */
  function Complete(st: State, sd: int): Option<State>
    requires st.maxLen <= |st.slots|
  {
    var k := FindSlot(st.slots, st.maxLen, OfSd(sd));
    if k == st.maxLen then None
    else Some(st.(completed := st.completed + [Ref(true, k)], completions := st.completions + [sd]))
  }

  /** _mysock_dequeue_connection on a queue with a completed connection: the descriptor accepted. */
  function Accept(st: State): Option<(State, int)>
    requires st.completed != []
  {
    var r := st.completed[0];
    if !r.live || r.index >= |st.slots| || st.slots[r.index].sd < 0 || st.curLen <= 0 then None
    else
      var sd := st.slots[r.index].sd;
      Some((st.(slots := st.slots[r.index := FREE], curLen := st.curLen - 1, completed := st.completed[1..],
                accepts := st.accepts + [sd]), sd))
  }

  function Stale(completed: seq<Ref>): (r: seq<Ref>)
    ensures |r| == |completed| && forall i | 0 <= i < |r| :: r[i] == Ref(false, completed[i].index)
  {
    seq(|completed|, i requires 0 <= i < |completed| => Ref(false, completed[i].index))
  }

  function Frees(n: nat): (r: seq<Slot>)
    ensures |r| == n && forall i | 0 <= i < n :: r[i] == FREE
  {
    seq(n, _ => FREE)
  }

  /** _mysock_set_backlog: a larger backlog calls realloc, which may move the pool, and here always does;
      where it grows in place the pointers into it stay good. A smaller backlog only lowers the limit. */
  function SetBacklog(st: State, backlog: nat): State
    requires st.maxLen <= |st.slots|
  {
    var max := backlog + 1;
    if max > st.maxLen then
      st.(slots := st.slots[..st.maxLen] + Frees(max - st.maxLen), maxLen := max, completed := Stale(st.completed))
    else
      st.(maxLen := max)
  }

  function Initial(): State {
    State([], 0, 0, [], [], [])
  }

  // ----- what holds between operations ---------------------------------------------------------

  function Occupied(slots: seq<Slot>): nat {
    if slots == [] then 0
    else Occupied(slots[..|slots| - 1]) + if slots[|slots| - 1].sd >= 0 then 1 else 0
  }

  /** Free slots are cleared and no others are; no two occupied slots share a peer or a descriptor. */
  ghost predicate SlotsOk(slots: seq<Slot>) {
    && (forall k | 0 <= k < |slots| :: if slots[k].sd < 0 then slots[k] == FREE else slots[k].peer != FREE.peer)
    && (forall j, k | 0 <= j < k < |slots| && slots[j].sd >= 0 && slots[k].sd >= 0 ::
          slots[j].peer != slots[k].peer && slots[j].sd != slots[k].sd)
  }

  /** Completed entries point to distinct occupied slots of the pool. */
  ghost predicate CompletedOk(slots: seq<Slot>, completed: seq<Ref>) {
    && (forall i | 0 <= i < |completed| ::
          completed[i].live && completed[i].index < |slots| && slots[completed[i].index].sd >= 0)
    && (forall i, j | 0 <= i < j < |completed| :: completed[i].index != completed[j].index)
  }

  /** Accepted descriptors, then those still to be accepted, are the completed ones, in their order. */
  ghost predicate InOrder(st: State) {
    && |st.completions| == |st.accepts| + |st.completed|
    && st.completions[..|st.accepts|] == st.accepts
    && forall i | 0 <= i < |st.completed| ::
         st.completed[i].index < |st.slots| && st.slots[st.completed[i].index].sd == st.completions[|st.accepts| + i]
  }

  /** What holds whatever the backlog. */
  ghost predicate PoolOk(st: State) {
    && st.maxLen <= |st.slots|
    && SlotsOk(st.slots)
    && st.curLen == Occupied(st.slots)
    && CompletedOk(st.slots, st.completed)
    && InOrder(st)
  }

  /** No connection beyond the limit. */
  ghost predicate Inv(st: State) {
    PoolOk(st) && forall k | st.maxLen <= k < |st.slots| :: st.slots[k].sd < 0
  }

  // ----- counting ------------------------------------------------------------------------------

  lemma {:induction false} OccupiedConcat(a: seq<Slot>, b: seq<Slot>)
    ensures Occupied(a + b) == Occupied(a) + Occupied(b)
  {
    if b == [] {
      assert a + b == a;
    } else {
      assert (a + b)[..|a + b| - 1] == a + b[..|b| - 1];
      OccupiedConcat(a, b[..|b| - 1]);
    }
  }

  lemma OccupiedUpdate(slots: seq<Slot>, k: nat, s: Slot)
    requires k < |slots|
    ensures Occupied(slots[k := s]) + (if slots[k].sd >= 0 then 1 else 0) == Occupied(slots) + (if s.sd >= 0 then 1 else 0)
  {
    var head, tail := slots[..k], slots[k + 1..];
    assert slots == head + ([slots[k]] + tail);
    assert slots[k := s] == head + ([s] + tail);
    OccupiedConcat(head, [slots[k]] + tail);
    OccupiedConcat([slots[k]], tail);
    OccupiedConcat(head, [s] + tail);
    OccupiedConcat([s], tail);
    assert [slots[k]][..0] == [] && [s][..0] == [];
  }

  lemma {:induction false} OccupiedBound(slots: seq<Slot>, n: nat)
    requires n <= |slots| && forall k | n <= k < |slots| :: slots[k].sd < 0
    ensures Occupied(slots) <= n
    ensures (forall k | 0 <= k < n :: slots[k].sd >= 0) ==> Occupied(slots) == n
  {
    if slots != [] {
      var front := slots[..|slots| - 1];
      OccupiedBound(front, if n < |slots| then n else n - 1);
    }
  }

  // ----- each operation ------------------------------------------------------------------------

  /** Queuing never fails: while the counter is below the limit, there is a free slot. */
  lemma EnqueueKeeps(st: State, syn: bool, peer: nat, sd: int)
    requires Inv(st)
    requires forall k | 0 <= k < |st.slots| :: sd >= 0 ==> st.slots[k].sd != sd
    ensures var r := Enqueue(st, syn, peer, sd);
            && r.Some? && Inv(r.value.0)
            && (r.value.1 <==> syn && sd >= 0 && st.curLen < st.maxLen && forall k | 0 <= k < st.maxLen :: st.slots[k].peer != peer)
            && (!r.value.1 ==> r.value.0 == st)
            && (r.value.1 ==> exists k | 0 <= k < st.maxLen && st.slots[k].sd < 0 ::
                  && (forall j | 0 <= j < k :: st.slots[j].sd >= 0)
                  && r.value.0 == st.(slots := st.slots[k := Slot(peer, sd)], curLen := st.curLen + 1))
            && r.value.0.completed == st.completed && r.value.0.curLen <= st.maxLen
  {
    hide InOrder, Occupied, FindSlot;
    OccupiedBound(st.slots, st.maxLen);
    EnqueueOrder(st, syn, peer, sd);
    if syn && FindSlot(st.slots, st.maxLen, OfPeer(peer)) == st.maxLen && st.curLen < st.maxLen {
      var k := FindSlot(st.slots, st.maxLen, Free);
      assert k < st.maxLen;
      if sd < 0 {
        assert st.slots[k := FREE] == st.slots;
      } else {
        OccupiedUpdate(st.slots, k, Slot(peer, sd));
        SlotTaken(st.slots, k, peer, sd);
      }
    }
  }

  /** A free slot taken by a new peer with a new descriptor. */
  lemma SlotTaken(slots: seq<Slot>, k: nat, peer: nat, sd: int)
    requires SlotsOk(slots) && k < |slots| && slots[k].sd < 0 && sd >= 0 && peer != FREE.peer
    requires forall j | 0 <= j < |slots| && slots[j].sd >= 0 :: slots[j].peer != peer && slots[j].sd != sd
    ensures var after := slots[k := Slot(peer, sd)];
            SlotsOk(after) && Slot(peer, sd) in after && forall j | 0 <= j < |after| && j != k :: after[j] == slots[j]
  {
    var after := slots[k := Slot(peer, sd)];
    assert after[k] == Slot(peer, sd);
  }

  /** The slot taken is a free one, so no completed entry points to it. */
  lemma EnqueueOrder(st: State, syn: bool, peer: nat, sd: int)
    requires Inv(st)
    ensures Enqueue(st, syn, peer, sd).Some? ==>
              var after := Enqueue(st, syn, peer, sd).value.0;
              InOrder(after) && CompletedOk(after.slots, after.completed)
  {
    hide Occupied, SlotsOk;
  }

  /** Completing fails exactly when the connection is not in the pool, up to the limit. */
  lemma CompleteKeeps(st: State, sd: int)
    requires PoolOk(st) && sd >= 0
    requires forall i | 0 <= i < |st.completed| :: st.slots[st.completed[i].index].sd != sd
    ensures var r := Complete(st, sd);
            && (r.Some? <==> exists k | 0 <= k < st.maxLen :: st.slots[k].sd == sd)
            && (r.Some? ==>
                  && PoolOk(r.value) && (Inv(st) ==> Inv(r.value)) && r.value.completions == st.completions + [sd]
                  && |r.value.completed| == |st.completed| + 1 && r.value.completed[..|st.completed|] == st.completed
                  && r.value.slots == st.slots && r.value.maxLen == st.maxLen)
  {
    hide Occupied, FindSlot;
    var k := FindSlot(st.slots, st.maxLen, OfSd(sd));
    if k < st.maxLen {
      var after := Complete(st, sd).value;
      assert after.completions[..|after.accepts|] == st.completions[..|st.accepts|];
    }
  }

  /** Accepting never fails; it yields the oldest connection not accepted yet and frees its slot. */
  lemma AcceptKeeps(st: State)
    requires PoolOk(st) && st.completed != []
    ensures var r := Accept(st);
            && r.Some? && PoolOk(r.value.0) && (Inv(st) ==> Inv(r.value.0))
            && r.value.1 == st.completions[|st.accepts|]
            && r.value.0.accepts == st.accepts + [r.value.1] && r.value.0.completions == st.completions
            && r.value.0.curLen == st.curLen - 1 && r.value.0.completed == st.completed[1..]
            && r.value.0.slots == st.slots[st.completed[0].index := FREE] && r.value.0.maxLen == st.maxLen
  {
    hide Occupied, SlotsOk;
    var r := st.completed[0];
    OccupiedUpdate(st.slots, r.index, FREE);
    OccupiedSome(st.slots, r.index);
    SlotFreed(st.slots, r.index);
    var n := |st.accepts|;
    assert st.completions[..n + 1] == st.completions[..n] + [st.completions[n]];
  }

  lemma OccupiedSome(slots: seq<Slot>, k: nat)
    requires k < |slots| && slots[k].sd >= 0
    ensures Occupied(slots) > 0
  {
    OccupiedUpdate(slots, k, FREE);
    hide Occupied;
  }

  lemma SlotFreed(slots: seq<Slot>, k: nat)
    requires SlotsOk(slots) && k < |slots|
    ensures var after := slots[k := FREE]; SlotsOk(after) && forall j | 0 <= j < |after| && j != k :: after[j] == slots[j]
  {
  }

  lemma GrownCount(slots: seq<Slot>, n: nat, more: nat)
    requires n <= |slots| && forall k | n <= k < |slots| :: slots[k].sd < 0
    ensures Occupied(slots[..n] + Frees(more)) == Occupied(slots)
  {
    hide Occupied;
    var head, tail := slots[..n], slots[n..];
    assert slots == head + tail;
    assert forall k | 0 <= k < |tail| :: tail[k] == slots[n + k];
    OccupiedBound(tail, 0);
    OccupiedBound(Frees(more), 0);
    OccupiedConcat(head, tail);
    OccupiedConcat(head, Frees(more));
  }

  /** A larger pool: the old slots, then free ones. */
  lemma GrownSlots(st: State, backlog: nat)
    requires Inv(st) && backlog + 1 > st.maxLen
    ensures var after := SetBacklog(st, backlog);
            && SlotsOk(after.slots) && Occupied(after.slots) == Occupied(st.slots)
            && after.maxLen == |after.slots| == backlog + 1
  {
    hide Occupied, CompletedOk, InOrder, Frees, Stale;
    GrownCount(st.slots, st.maxLen, backlog + 1 - st.maxLen);
  }

  lemma GrowKeeps(st: State, backlog: nat)
    requires Inv(st) && backlog + 1 > st.maxLen
    ensures Inv(SetBacklog(st, backlog)) <==> st.completed == []
  {
    GrownSlots(st, backlog);
    hide Occupied, SlotsOk, Frees;
    var after := SetBacklog(st, backlog);
    if st.completed == [] {
      assert Stale(st.completed) == [];
    } else {
      assert !after.completed[0].live;
    }
  }

  lemma ShrinkKeeps(st: State, backlog: nat)
    requires Inv(st) && backlog + 1 <= st.maxLen
    ensures Inv(SetBacklog(st, backlog)) <==> forall k | backlog + 1 <= k < st.maxLen :: st.slots[k].sd < 0
  {
    hide Occupied, SlotsOk, CompletedOk;
  }

  /** A new backlog keeps the invariant exactly when it cuts off no connection and replaces no pool under a
      completed one. It admits one connection more than its number, and no connection is lost from the pool. */
  lemma SetBacklogKeeps(st: State, backlog: nat)
    requires Inv(st)
    ensures Inv(SetBacklog(st, backlog)) <==>
              && (forall k | backlog + 1 <= k < st.maxLen :: st.slots[k].sd < 0)
              && (backlog + 1 > st.maxLen ==> st.completed == [])
    ensures var after, max := SetBacklog(st, backlog), backlog + 1;
            && after.maxLen == max && after.curLen == st.curLen
            && after.accepts == st.accepts && after.completions == st.completions
            && (max <= st.maxLen ==> after.slots == st.slots && after.completed == st.completed)
            && (max > st.maxLen ==>
                  && |after.slots| == max && after.slots[..st.maxLen] == st.slots[..st.maxLen]
                  && (forall k | st.maxLen <= k < max :: after.slots[k] == Slot(0, -1))
                  && |after.completed| == |st.completed| && forall r <- after.completed :: !r.live)
  {
    BacklogShape(st, backlog);
    if backlog + 1 > st.maxLen {
      GrowKeeps(st, backlog);
    } else {
      ShrinkKeeps(st, backlog);
    }
    hide Occupied, SlotsOk, CompletedOk, InOrder, SetBacklog;
  }

  lemma BacklogShape(st: State, backlog: nat)
    requires st.maxLen <= |st.slots|
    ensures var after, max := SetBacklog(st, backlog), backlog + 1;
            && after == st.(slots := after.slots, maxLen := max, completed := after.completed)
            && (max <= st.maxLen ==> after.slots == st.slots && after.completed == st.completed)
            && (max > st.maxLen ==>
                  && |after.slots| == max && after.slots[..st.maxLen] == st.slots[..st.maxLen]
                  && (forall k | st.maxLen <= k < max :: after.slots[k] == Slot(0, -1))
                  && |after.completed| == |st.completed| && forall r <- after.completed :: !r.live)
  {
  }

  /** A connection that a smaller backlog cuts off trips the assertion when it completes. */
  lemma CutConnectionFails(st: State, backlog: nat, k: nat)
    requires Inv(st) && backlog + 1 <= k < st.maxLen && st.slots[k].sd >= 0
    ensures Complete(SetBacklog(st, backlog), st.slots[k].sd) == None
  {
    hide Occupied;
  }

  /** A completed connection that a larger backlog overtakes is accepted through a dangling pointer. */
  lemma MovedPoolFails(st: State, backlog: nat)
    requires PoolOk(st) && backlog + 1 > st.maxLen && st.completed != []
    ensures SetBacklog(st, backlog).completed != [] && Accept(SetBacklog(st, backlog)) == None
  {
    hide Occupied;
  }

  // ----- whole runs ----------------------------------------------------------------------------

  datatype Step =
    | Syn(syn: bool, peer: nat, sd: int)
    | Done(sd: int)
    | Take
    | Backlog(backlog: nat)

  /** What the callers keep to: fresh descriptors, one completion each, and a safe backlog. */
  ghost predicate Allowed(st: State, step: Step) {
    match step
    case Syn(_, _, sd) => sd >= 0 ==> forall s <- st.slots :: s.sd != sd
    case Done(sd) =>
      && sd >= 0 && (exists s <- st.slots :: s.sd == sd)
      && forall r <- st.completed :: r.index < |st.slots| ==> st.slots[r.index].sd != sd
    case Take => st.completed != []
    case Backlog(backlog) =>
      && (forall k | backlog + 1 <= k < |st.slots| :: st.slots[k].sd < 0)
      && (backlog + 1 > st.maxLen ==> st.completed == [])
  }

  /** One operation; `None` when it fails, or blocks because there is nothing to accept. */
  function Apply(st: State, step: Step): Option<State> {
    if st.maxLen > |st.slots| then None
    else
      match step
      case Syn(syn, peer, sd) =>
        var r := Enqueue(st, syn, peer, sd);
        if r.Some? then Some(r.value.0) else None
      case Done(sd) => Complete(st, sd)
      case Take =>
        if st.completed == [] then None
        else
          var r := Accept(st);
          if r.Some? then Some(r.value.0) else None
      case Backlog(backlog) => Some(SetBacklog(st, backlog))
  }

  /** The states of a run in which the callers keep to what is allowed. */
  ghost predicate IsRun(states: seq<State>, steps: seq<Step>) {
    && |states| == |steps| + 1 && states[0] == Initial()
    && forall i | 0 <= i < |steps| ::
         Allowed(states[i], steps[i]) && Apply(states[i], steps[i]) == Some(states[i + 1])
  }

  /** An allowed operation never fails an assertion nor follows a dangling pointer. */
  lemma ApplyKeeps(st: State, step: Step)
    requires Inv(st) && Allowed(st, step)
    ensures Apply(st, step).Some? && Inv(Apply(st, step).value)
  {
    hide SlotsOk, InOrder, Occupied, Enqueue, Complete, Accept, SetBacklog;
    match step
    case Syn(syn, peer, sd) => EnqueueKeeps(st, syn, peer, sd);
    case Done(sd) =>
      assert exists k | 0 <= k < |st.slots| :: st.slots[k].sd == sd;
      CompleteKeeps(st, sd);
    case Take => AcceptKeeps(st);
    case Backlog(backlog) => SetBacklogKeeps(st, backlog);
  }

  lemma {:induction false} RunKeepsInv(states: seq<State>, steps: seq<Step>, i: nat)
    requires IsRun(states, steps) && i < |states|
    ensures Inv(states[i])
  {
    hide SlotsOk, CompletedOk, Allowed, Apply;
    if i > 0 {
      RunKeepsInv(states, steps, i - 1);
      ApplyKeeps(states[i - 1], steps[i - 1]);
    } else {
      InitialInv();
    }
    hide Inv;
  }

  lemma InitialInv()
    ensures Inv(Initial())
  {
  }

  /**
   * In every state of a run: the counter is the number of occupied slots and within the limit,
   * occupied slots differ in peer and descriptor, completed entries point to distinct occupied slots,
   * and connections have been accepted in the order in which they completed, each once. And the next
   * allowed operation succeeds.
   */
  lemma EveryStateOfARun(states: seq<State>, steps: seq<Step>, i: nat, next: Step)
    requires IsRun(states, steps) && i < |states|
    ensures var st := states[i];
            && st.curLen == Occupied(st.slots) && 0 <= st.curLen <= st.maxLen
            && SlotsOk(st.slots) && CompletedOk(st.slots, st.completed)
            && st.accepts <= st.completions
    ensures Allowed(states[i], next) ==> Apply(states[i], next).Some?
  {
    RunKeepsInv(states, steps, i);
    if Allowed(states[i], next) {
      ApplyKeeps(states[i], next);
    }
    hide IsRun, SlotsOk, CompletedOk, Allowed, Apply;
    OccupiedBound(states[i].slots, states[i].maxLen);
    hide Occupied;
  }
}
