/** The congestion window and the send window, as functions of the acknowledgements taken. */
module StcpLimits {
  import opened Bytes
  import opened StcpTypes
  import opened StcpSteps
  import opened StcpSystem
  import opened StcpLink
  import opened StcpInvariant
  import opened StcpHandshake
  import opened StcpTheorems
  import opened StcpTeardown

  // ----- congestion window ------------------------------------------------------------------------

  /** CWND after `n` acknowledgements. */
  function CwndAfter(n: nat): (c: nat)
    ensures MSS <= c <= MAX_CWND
  {
    if n == 0 then MSS
    else
      var c := CwndAfter(n - 1);
      GrowCwndBounds(c);
      GrowCwnd(c)
  }

  function SwndAfter(n: nat): nat {
    Min(CwndAfter(n), RECV_WINDOW_SIZE)
  }

  lemma {:induction false} CwndGrows(m: nat, n: nat)
    requires m <= n
    ensures CwndAfter(m) <= CwndAfter(n)
    decreases n
  {
    if m < n {
      CwndGrows(m, n - 1);
      GrowCwndBounds(CwndAfter(n - 1));
    }
  }

  /** CWND in numbers: 536 more for each of the first three acknowledgements, then 536 * 536 over CWND. */
  lemma CwndInNumbers(n: nat)
    ensures n <= 3 ==> CwndAfter(n) == 536 * (n + 1)
    ensures n >= 3 ==> CwndAfter(n) >= 2144 && CwndAfter(n + 1) == CwndAfter(n) + 287296 / CwndAfter(n)
  {
    FirstTwelveAcks();
    if n >= 3 {
      CwndGrows(3, n);
    }
  }

  lemma FirstTwelveAcks()
    ensures CwndAfter(0) == 536 && CwndAfter(1) == 1072 && CwndAfter(2) == 1608 && CwndAfter(3) == 2144
    ensures CwndAfter(4) == 2278 && CwndAfter(8) == 2744 && CwndAfter(11) == 3045 && CwndAfter(12) == 3139
  {
    assert CwndAfter(1) == 1072;
    assert CwndAfter(2) == 1608;
    assert CwndAfter(3) == 2144;
    assert CwndAfter(4) == 2278;
    assert CwndAfter(5) == 2404;
    assert CwndAfter(6) == 2523;
    assert CwndAfter(7) == 2636;
    assert CwndAfter(8) == 2744;
    assert CwndAfter(9) == 2848;
    assert CwndAfter(10) == 2948;
  }

  /** The sending window never shrinks, and it is pinned at the receive window exactly from the
      twelfth acknowledgement on. */
  lemma WindowOpensInTwelve(n: nat)
    ensures SwndAfter(n) == 3072 <==> n >= 12
    ensures 536 <= SwndAfter(n) <= SwndAfter(n + 1) <= 3072
  {
    FirstTwelveAcks();
    if n >= 12 { CwndGrows(12, n); } else { CwndGrows(n, 11); }
    CwndGrows(n, n + 1);
    hide CwndAfter;
  }

  /** The stage in which an end takes an acknowledgement in the ACK branch. */
  predicate TakesAckAt(e: Endpoint, action: Action) {
    && action == DoStage && StageEnabled(e)
    && e.pc.NetStage? && e.pc.ev.net && !JumpsToClose(e) && e.netQ[0].flags == TH_ACK
  }

  predicate TakesAck(v: Sys, step: Step, client: bool) {
    step.client == client && TakesAckAt(EndOf(v, client).e, step.action)
  }

  function AcksTaken(v: Sys, steps: seq<Step>, client: bool): nat
    decreases |steps|
  {
    if steps == [] || !CanStep(v, steps[0]) then 0
    else (if TakesAck(v, steps[0], client) then 1 else 0) + AcksTaken(After(v, steps[0]), steps[1..], client)
  }

  predicate CwndIs(e: Endpoint, n: nat) {
    if InLoop(e) then e.cwnd == CwndAfter(n) else n == 0
  }

  lemma ActKeepsCwnd(x: End, action: Action, n: nat)
    requires Enabled(x, action) && !TakesAckAt(x.e, action) && CwndIs(x.e, n)
    ensures CwndIs(Act(x, action).end.e, n)
  {
    assert CwndAfter(0) == MSS;
    hide CwndAfter;
  }

  lemma StageTakesAck(e: Endpoint, n: nat)
    requires TakesAckAt(e, DoStage) && CwndIs(e, n)
    ensures var f := StageStep(e).e; f.fault || CwndIs(f, n + 1)
  {
    assert CwndAfter(n + 1) == GrowCwnd(CwndAfter(n));
    hide CwndAfter;
    hide GrowCwnd;
  }

  lemma NoFault(nonEmpty: bool, v: Sys, client: bool)
    requires Inv(nonEmpty, v)
    ensures !EndOf(v, client).e.fault
  {
    hide Stream;
    hide Acks;
    hide Phase;
    if InLoop(v.c) && InLoop(v.s) {
    } else if Late(v.c, v.s, ToServer(v)) {
      StripOfLate(v);
      hide Strip;
    } else {
      EarlyFault(v.c, v.s, ToClient(v), ToServer(v));
    }
    hide Handshake;
  }

  lemma EarlyFault(c: Endpoint, s: Endpoint, ic: seq<Packet>, is_: seq<Packet>)
    requires Early(c, s, ic, is_)
    ensures !c.fault && !s.fault
  {
  }

  lemma StepCwnd(nonEmpty: bool, v: Sys, step: Step, client: bool, n: nat)
    requires Inv(nonEmpty, v) && CanStep(v, step) && Disciplined(nonEmpty, v, step)
    requires CwndIs(EndOf(v, client).e, n)
    ensures CwndIs(EndOf(After(v, step), client).e, n + if TakesAck(v, step, client) then 1 else 0)
  {
    hide CwndAfter;
    hide GrowCwnd;
    hide Inv;
    hide After;
    hide CwndIs;
    StepKeepsInv(nonEmpty, v, step);
    NoFault(nonEmpty, After(v, step), client);
    AfterIs(v, step);
    var x := EndOf(v, client);
    var o := Act(EndOf(v, step.client), step.action);
    EndOfPut(v, step.client, o, client);
    if TakesAck(v, step, client) {
      StageTakesAck(x.e, n);
      assert o.end.e == StageStep(x.e).e;
    } else if step.client == client {
      ActKeepsCwnd(x, step.action, n);
    }
    hide StageStep;
    hide Put;
    hide Disciplined;
  }

  lemma EndOfPut(v: Sys, client: bool, o: Outcome, which: bool)
    ensures EndOf(Put(v, client, o), which).e == if which == client then o.end.e else EndOf(v, which).e
  {
  }

  /** Along every run an end's congestion window is a function of how many acknowledgements it took. */
  lemma {:induction false} CwndOfRun(nonEmpty: bool, v: Sys, steps: seq<Step>, w: Sys, client: bool, n: nat)
    requires Inv(nonEmpty, v) && Run(nonEmpty, v, steps, w) && CwndIs(EndOf(v, client).e, n)
    ensures CwndIs(EndOf(w, client).e, n + AcksTaken(v, steps, client))
    decreases |steps|
  {
    hide Inv, CwndIs, After, CanStep, Disciplined, TakesAck;
    if steps != [] {
      StepKeepsInv(nonEmpty, v, steps[0]);
      StepCwnd(nonEmpty, v, steps[0], client, n);
      CwndOfRun(nonEmpty, After(v, steps[0]), steps[1..], w, client, n + if TakesAck(v, steps[0], client) then 1 else 0);
    }
  }

  /** In every reachable state of an established end: SWND is 3072 exactly when it has taken at least
      twelve acknowledgements. */
  lemma SwndInEveryState(nonEmpty: bool, steps: seq<Step>, v: Sys, client: bool)
    requires Reached(nonEmpty, steps, v) && InLoop(EndOf(v, client).e)
    ensures var n := AcksTaken(Init(), steps, client); var e := EndOf(v, client).e;
            e.cwnd == CwndAfter(n) && e.swnd == SwndAfter(n) && (e.swnd == 3072 <==> n >= 12)
  {
    hide *;
    ReachedInv(nonEmpty, steps, v);
    CwndReached(nonEmpty, steps, v, client);
    WindowOpensInTwelve(AcksTaken(Init(), steps, client));
    SwndIsMin(nonEmpty, v, client);
    SwndAfterIs(AcksTaken(Init(), steps, client));
  }

  lemma SwndAfterIs(n: nat)
    ensures SwndAfter(n) == Min(CwndAfter(n), RECV_WINDOW_SIZE)
  {
  }

  lemma CwndReached(nonEmpty: bool, steps: seq<Step>, v: Sys, client: bool)
    requires Reached(nonEmpty, steps, v) && InLoop(EndOf(v, client).e)
    ensures EndOf(v, client).e.cwnd == CwndAfter(AcksTaken(Init(), steps, client))
  {
    hide CwndAfter;
    hide GrowCwnd;
    hide AcksTaken;
    InitInv(nonEmpty);
    hide Inv;
    assert CwndIs(EndOf(Init(), client).e, 0);
    hide Run;
    CwndOfRun(nonEmpty, Init(), steps, v, client, 0);
  }

  lemma SwndIsMin(nonEmpty: bool, v: Sys, client: bool)
    requires Inv(nonEmpty, v) && InLoop(EndOf(v, client).e)
    ensures var e := EndOf(v, client).e; e.swnd == Min(e.cwnd, RECV_WINDOW_SIZE)
  {
    hide Stream;
    hide Acks;
    hide Phase;
    if InLoop(v.c) && InLoop(v.s) {
    } else if Late(v.c, v.s, ToServer(v)) {
      StripOfLate(v);
      hide Strip;
      assert client;
    } else {
      EarlyNotInLoop(v.c, v.s, ToClient(v), ToServer(v));
    }
    hide Handshake;
  }
}
