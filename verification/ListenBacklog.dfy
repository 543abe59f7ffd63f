/** What a change of the backlog does to the calls that follow it. */
module ListenBacklog {
  import opened Options
  import opened ListenQueueSpec

  // ----- the calls that follow -------------------------------------------------------------------

  /** The calls made after a change of the backlog, until the next one, by callers that keep to the rules. */
  ghost predicate Follows(st: State, steps: seq<Step>)
    decreases |steps|
  {
    steps != [] ==>
      && !steps[0].Backlog? && Allowed(st, steps[0])
      && (Apply(st, steps[0]).Some? ==> Follows(Apply(st, steps[0]).value, steps[1..]))
  }

  function After(st: State, steps: seq<Step>): Option<State>
    decreases |steps|
  {
    if steps == [] then Some(st)
    else
      var next := Apply(st, steps[0]);
      if next.None? then None else After(next.value, steps[1..])
  }

  ghost predicate SamePeerTwice(slots: seq<Slot>) {
    exists j, k | 0 <= j < k < |slots| :: slots[j].sd >= 0 && slots[k].sd >= 0 && slots[j].peer == slots[k].peer
  }

  /** They end in a failed assertion, a dangling pointer, or two connections with one peer. */
  ghost predicate Harmed(st: State, steps: seq<Step>) {
    After(st, steps).None? || SamePeerTwice(After(st, steps).value.slots)
  }

  /** The connection in slot `k` will be accepted while the counter is still at the limit. */
  ghost predicate LeavesInTime(st: State, k: nat, max: nat) {
    exists i | 0 <= i < |st.completed| :: st.completed[i].index == k && Occupied(st.slots) - i >= max
  }

  /**
   * The limit is above every connection that waits, except those that have completed and will be accepted
   * before the counter falls below it.
   */
  ghost predicate Shielded(st: State, max: nat) {
    forall k | max <= k < |st.slots| && st.slots[k].sd >= 0 :: LeavesInTime(st, k, max)
  }

  ghost predicate LooseInv(st: State) {
    PoolOk(st) && Shielded(st, st.maxLen)
  }

  // ----- what is shielded stays so ---------------------------------------------------------------

  /** With room for a connection, nothing is beyond the limit. */
  lemma RoomMeansInv(st: State)
    requires LooseInv(st) && st.curLen < st.maxLen
    ensures Inv(st)
  {
    hide SlotsOk, CompletedOk, InOrder, Occupied;
    assert forall k | st.maxLen <= k < |st.slots| && st.slots[k].sd >= 0 :: LeavesInTime(st, k, st.maxLen);
  }

  /** The oldest completed connection is accepted: each of the others moves up by one as the counter falls by one. */
  lemma TakeKeepsShield(st: State, max: nat)
    requires PoolOk(st) && st.completed != [] && Shielded(st, max)
    ensures Accept(st).Some? && Shielded(Accept(st).value.0, max)
  {
    AcceptKeeps(st);
    hide SlotsOk, InOrder, Occupied;
    var after := Accept(st).value.0;
    hide Accept;
    forall k | max <= k < |after.slots| && after.slots[k].sd >= 0
      ensures LeavesInTime(after, k, max)
    {
      var i :| 0 <= i < |st.completed| && st.completed[i].index == k && Occupied(st.slots) - i >= max;
      assert after.completed[i - 1] == st.completed[i];
    }
  }

  lemma StepKeepsShield(st: State, step: Step)
    requires LooseInv(st) && !step.Backlog? && Allowed(st, step)
    ensures Apply(st, step).Some? && LooseInv(Apply(st, step).value)
  {
    match step
    case Syn(syn, peer, sd) => SynKeepsShield(st, syn, peer, sd);
    case Done(sd) => DoneKeepsShield(st, sd);
    case Take =>
      AcceptKeeps(st);
      TakeKeepsShield(st, st.maxLen);
    hide PoolOk, Shielded, Enqueue, Complete, Accept;
  }

  lemma SynKeepsShield(st: State, syn: bool, peer: nat, sd: int)
    requires LooseInv(st) && Allowed(st, Syn(syn, peer, sd))
    ensures var r := Enqueue(st, syn, peer, sd); r.Some? && LooseInv(r.value.0)
  {
    if st.curLen < st.maxLen {
      RoomMeansInv(st);
      EnqueueKeeps(st, syn, peer, sd);
      assert Enqueue(st, syn, peer, sd).value.0.maxLen == st.maxLen;
    }
    hide SlotsOk, CompletedOk, InOrder, Occupied;
  }

  /** What completes is below the limit: all beyond it have completed. */
  lemma DoneKeepsShield(st: State, sd: int)
    requires LooseInv(st) && Allowed(st, Done(sd))
    ensures var r := Complete(st, sd); r.Some? && LooseInv(r.value)
  {
    var s :| s in st.slots && s.sd == sd;
    var k :| 0 <= k < |st.slots| && st.slots[k] == s;
    hide Occupied, InOrder, SlotsOk;
    assert k >= st.maxLen ==> LeavesInTime(st, k, st.maxLen);
    CompleteKeeps(st, sd);
    CompletedShield(st, Complete(st, sd).value, st.maxLen);
    hide Complete;
  }

  lemma CompletedShield(st: State, after: State, max: nat)
    requires Shielded(st, max) && after.slots == st.slots && st.completed <= after.completed
    ensures Shielded(after, max)
  {
    hide Occupied;
    forall k | max <= k < |after.slots| && after.slots[k].sd >= 0
      ensures LeavesInTime(after, k, max)
    {
      var i :| 0 <= i < |st.completed| && st.completed[i].index == k && Occupied(st.slots) - i >= max;
      assert after.completed[i] == st.completed[i];
    }
  }

  lemma {:induction false} ShieldedNeverHarmed(st: State, steps: seq<Step>)
    requires LooseInv(st) && Follows(st, steps)
    ensures !Harmed(st, steps)
    decreases |steps|
  {
    if steps == [] {
      hide Occupied, CompletedOk, InOrder;
    } else {
      StepKeepsShield(st, steps[0]);
      ShieldedNeverHarmed(Apply(st, steps[0]).value, steps[1..]);
      hide LooseInv, Apply, SamePeerTwice, Allowed;
    }
  }

  // ----- what is not shielded is harmed ----------------------------------------------------------

  function Fresh(slots: seq<Slot>): (sd: nat)
    ensures forall s <- slots :: s.sd < sd
  {
    if slots == [] then 0
    else
      var sd := Fresh(slots[1..]);
      assert forall s <- slots :: s == slots[0] || s in slots[1..];
      if slots[0].sd < sd then sd else slots[0].sd + 1
  }

  /** While the counter is below the limit there is a free slot below it. */
  lemma RoomBelow(slots: seq<Slot>, n: nat)
    requires n <= |slots| && Occupied(slots) < n
    ensures exists k | 0 <= k < n :: slots[k].sd < 0
  {
    OccupiedConcat(slots[..n], slots[n..]);
    OccupiedBound(slots[..n], n);
    assert slots == slots[..n] + slots[n..];
    hide Occupied;
    if forall k | 0 <= k < n :: slots[k].sd >= 0 {
      assert false;
    }
  }

  /** A SYN from the peer of a connection beyond the limit, when there is room, makes a second connection. */
  lemma SynTwice(st: State, k: nat, sd: nat)
    requires PoolOk(st) && st.maxLen <= k < |st.slots| && st.slots[k].sd >= 0
    requires Occupied(st.slots) < st.maxLen
    ensures var r := Enqueue(st, true, st.slots[k].peer, sd); r.Some? && SamePeerTwice(r.value.0.slots)
  {
    RoomBelow(st.slots, st.maxLen);
    hide Occupied, InOrder, CompletedOk;
    var peer := st.slots[k].peer;
    assert FindSlot(st.slots, st.maxLen, OfPeer(peer)) == st.maxLen;
    var j := FindSlot(st.slots, st.maxLen, Free);
    assert j < st.maxLen;
    hide FindSlot;
    var after := st.slots[j := Slot(peer, sd)];
    assert after[k] == st.slots[k] && after[j] == Slot(peer, sd);
  }

  lemma OneMore(st: State, step: Step, rest: seq<Step>)
    requires !step.Backlog? && Allowed(st, step) && Apply(st, step).Some?
    requires Follows(Apply(st, step).value, rest) && Harmed(Apply(st, step).value, rest)
    ensures Follows(st, [step] + rest) && Harmed(st, [step] + rest)
  {
    hide Allowed, Apply, SamePeerTwice;
    assert ([step] + rest)[1..] == rest;
  }

  /** The connections ahead are accepted, then its peer's SYN comes again and is taken for a new one. */
  lemma {:induction false} PeerComesAgain(st: State, i: nat) returns (steps: seq<Step>)
    requires PoolOk(st) && i < |st.completed| && st.completed[i].index >= st.maxLen
    requires Occupied(st.slots) - i < st.maxLen
    ensures Follows(st, steps) && Harmed(st, steps)
    decreases i
  {
    if i == 0 {
      var syn := Syn(true, st.slots[st.completed[0].index].peer, Fresh(st.slots));
      SynTwice(st, st.completed[0].index, Fresh(st.slots));
      hide PoolOk, Enqueue, Occupied, Fresh, SamePeerTwice;
      OneMore(st, syn, []);
      steps := [syn] + [];
    } else {
      AcceptKeeps(st);
      var next := Accept(st).value.0;
      assert next.curLen == Occupied(next.slots) && st.curLen == Occupied(st.slots);
      hide PoolOk, Accept, Occupied;
      var rest := PeerComesAgain(next, i - 1);
      OneMore(st, Take, rest);
      steps := [Take] + rest;
    }
  }

  // ----- the theorem -----------------------------------------------------------------------------

  /** A backlog that may be set now: a larger one may move the pool, a smaller one leaves connections beyond it. */
  ghost predicate SafeBacklog(st: State, backlog: nat) {
    if backlog + 1 > st.maxLen then st.completed == [] else Shielded(st, backlog + 1)
  }

  /** An unfinished connection beyond the limit trips the assertion; a finished one lets its peer in again. */
  lemma UnshieldedIsHarmed(st: State, k: nat) returns (steps: seq<Step>)
    requires PoolOk(st) && st.maxLen <= k < |st.slots| && st.slots[k].sd >= 0 && !LeavesInTime(st, k, st.maxLen)
    ensures Follows(st, steps) && Harmed(st, steps)
  {
    hide Occupied;
    if i :| 0 <= i < |st.completed| && st.completed[i].index == k {
      steps := PeerComesAgain(st, i);
    } else {
      steps := [Done(st.slots[k].sd)];
      assert st.slots[k] in st.slots;
      CompleteKeeps(st, st.slots[k].sd);
      hide InOrder;
    }
  }

  /**
   * Wherever all connections beyond the limit are shielded, as they are if there are none: after a change
   * of the backlog no sequence of calls is harmed, if and only if the change was safe: it
   * does not move the pool under a completed connection, and beyond a lower limit it leaves only completed
   * connections that will be accepted before the counter falls below that limit.
   */
  lemma SafeBacklogExactly(st: State, backlog: nat)
    requires LooseInv(st)
    ensures SafeBacklog(st, backlog)
       <==> forall steps | Follows(SetBacklog(st, backlog), steps) :: !Harmed(SetBacklog(st, backlog), steps)
  {
    var after := SetBacklog(st, backlog);
    if SafeBacklog(st, backlog) {
      SafeIsShielded(st, backlog);
      forall steps | Follows(after, steps)
        ensures !Harmed(after, steps)
      {
        ShieldedNeverHarmed(after, steps);
      }
    } else {
      var steps := UnsafeIsHarmed(st, backlog);
    }
    hide SafeBacklog, SetBacklog, Follows, Harmed, PoolOk, Shielded;
  }

  lemma SafeIsShielded(st: State, backlog: nat)
    requires LooseInv(st) && SafeBacklog(st, backlog)
    ensures LooseInv(SetBacklog(st, backlog))
  {
    if backlog + 1 > st.maxLen {
      assert Inv(st) by { hide SlotsOk, CompletedOk, InOrder, Occupied; }
      SetBacklogKeeps(st, backlog);
    }
    hide SlotsOk, CompletedOk, InOrder, Occupied;
  }

  lemma UnsafeIsHarmed(st: State, backlog: nat) returns (steps: seq<Step>)
    requires PoolOk(st) && !SafeBacklog(st, backlog)
    ensures Follows(SetBacklog(st, backlog), steps) && Harmed(SetBacklog(st, backlog), steps)
  {
    var after := SetBacklog(st, backlog);
    if backlog + 1 > st.maxLen {
      steps := [Take];
      MovedPoolFails(st, backlog);
      hide PoolOk, SetBacklog, Accept;
    } else {
      hide SlotsOk, CompletedOk, InOrder, Occupied;
      var k :| backlog + 1 <= k < |st.slots| && st.slots[k].sd >= 0 && !LeavesInTime(st, k, backlog + 1);
      steps := UnshieldedIsHarmed(after, k);
    }
  }
}
