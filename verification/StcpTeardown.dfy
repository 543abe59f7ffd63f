/** Teardown: its order, what it delivers, and that it always ends. */
module StcpTeardown {
  import opened Bytes
  import opened StcpTypes
  import opened StcpSteps
  import opened StcpSystem
  import opened StcpLink
  import opened StcpInvariant
  import opened StcpStages
  import opened StcpHandshake
  import opened StcpTheorems

  /** The server finishes last; an end finishes only with both streams delivered in full, and nothing
      is left in flight when both are done. */
  lemma TeardownOrder(nonEmpty: bool, steps: seq<Step>, v: Sys)
    requires Reached(nonEmpty, steps, v)
    ensures v.s.done ==> v.c.done
    ensures v.c.done ==> v.s.conn == LastAck || v.s.done
    ensures v.c.done ==> Received(v.s, v.sa) == v.ca.written && Received(v.c, v.ca) == v.sa.written
    ensures v.c.done && v.s.done ==> ToClient(v) == [] && ToServer(v) == []
  {
    hide Core, Handshake, Reached;
    ReachedInv(nonEmpty, steps, v);
    if InLoop(v.c) && InLoop(v.s) {
      assert Strip(v) == v;
      LeavingIsEmpty(nonEmpty, v);
      StreamSafety(nonEmpty, steps, v);
      DoneOrder(nonEmpty, v);
    } else {
      NotDoneEarly(nonEmpty, v);
    }
  }

  lemma DoneOrder(nonEmpty: bool, v: Sys)
    requires Core(nonEmpty, v)
    ensures v.s.done ==> v.c.done
    ensures v.c.done ==> v.s.conn == LastAck || v.s.done
    ensures v.c.done && v.s.done ==> ToClient(v) == [] && ToServer(v) == []
  {
    hide Link;
  }

  /** While the server is in the handshake the client can only be waiting or about to wait for it. */
  lemma LateFacts(nonEmpty: bool, v: Sys)
    requires Inv(nonEmpty, v) && Late(v.c, v.s, ToServer(v))
    ensures !v.c.done && v.c.isClient && (v.c.conn == FinWait1 ==> v.c.netQ == [])
    ensures !v.s.done && v.s.conn == SynRcvd && !v.s.isClient
  {
    var u := Strip(v);
    StripOfLate(v);
    hide Strip;
    hide Link;
    hide Handshake;
    assert u.s.conn == Established && ToClient(u) == v.c.netQ + v.s2c;
  }

  lemma StripOfLate(v: Sys)
    requires Late(v.c, v.s, ToServer(v))
    ensures var u := Strip(v); u.c == v.c && u.s2c == v.s2c && u.s.conn == Established
  {
    hide Zeros;
  }

  lemma EarlyFacts(c: Endpoint, s: Endpoint, ic: seq<Packet>, is_: seq<Packet>)
    requires Early(c, s, ic, is_)
    ensures !c.done && !s.done && !AwaitsLastAck(c) && !AwaitsLastAck(s)
  {
  }

  lemma NotDoneEarly(nonEmpty: bool, v: Sys)
    requires Inv(nonEmpty, v) && !(InLoop(v.c) && InLoop(v.s))
    ensures !v.c.done && !v.s.done && !v.sa.closed
  {
    if Late(v.c, v.s, ToServer(v)) {
      LateFacts(nonEmpty, v);
    } else {
      EarlyFacts(v.c, v.s, ToClient(v), ToServer(v));
    }
    hide Core;
    hide Late;
    hide Early;
  }

  /** The packet that moves FIN_WAIT_1 on, or ends LAST_ACK, is the acknowledgement of the FIN that
      end sent, although the code looks only at its flags. */
  lemma ClosingAckIsForOwnFin(nonEmpty: bool, steps: seq<Step>, v: Sys, client: bool)
    requires Reached(nonEmpty, steps, v)
    requires var e := EndOf(v, client).e; AwaitsLastAck(e) && e.netQ != []
    ensures var e := EndOf(v, client).e; e.netQ[0].flags == TH_ACK && e.netQ[0].ack == e.next
  {
    ReachedInv(nonEmpty, steps, v);
    RecvKeepsInboundAt(v, client);
    if InLoop(v.c) && InLoop(v.s) {
      assert Strip(v) == v;
      hide Link;
    } else {
      EarlyAwaitsNothing(nonEmpty, v, client);
    }
  }

  lemma EarlyAwaitsNothing(nonEmpty: bool, v: Sys, client: bool)
    requires Inv(nonEmpty, v) && !(InLoop(v.c) && InLoop(v.s))
    ensures var e := EndOf(v, client).e; AwaitsLastAck(e) ==> e.netQ == []
  {
    if Late(v.c, v.s, ToServer(v)) {
      LateFacts(nonEmpty, v);
    } else {
      EarlyFacts(v.c, v.s, ToClient(v), ToServer(v));
    }
    hide Core;
    hide Late;
    hide Early;
  }

  // ----- termination ------------------------------------------------------------------------------

  function ConnRank(conn: CState): nat {
    match conn
    case FinWait1 => 3
    case FinWait2 => 2
    case CloseWait => 2
    case LastAck => 1
    case _ => 0
  }

  /** Stages that still have an event to handle rank below Wait, the others above it. */
  function PcRank(e: Endpoint): nat {
    match e.pc
    case Wait => 4
    case AppStage(ev) => if ev.Any() then 3 else 8
    case NetStage(ev) => if ev.net || ev.close then 2 else 7
    case CloseStage(ev) => if ev.close then 1 else 6
    case _ => 0
  }

  function EndRank(e: Endpoint, wire: seq<Packet>): nat {
    100 * ConnRank(e.conn) + 10 * |wire| + PcRank(e)
  }

  /** Decreases with every step once both applications have called myclose. */
  function Measure(v: Sys): nat {
    EndRank(v.c, v.s2c) + EndRank(v.s, v.c2s)
  }

  ghost predicate BothClosed(nonEmpty: bool, v: Sys) {
    Core(nonEmpty, v) && v.ca.closed && v.sa.closed
  }

  lemma BothClosedPhase(nonEmpty: bool, v: Sys)
    requires BothClosed(nonEmpty, v)
    ensures var c, s := SideOf(v.c, v.ca), SideOf(v.s, v.sa); var ic, is_ := ToClient(v), ToServer(v);
            || PhaseAwaitingAck(c, s, ic, is_) || PhaseAwaitingFin(c, s, ic, is_)
            || PhaseLastAck(c, s, ic, is_) || PhaseDone(c, s, ic, is_)
    ensures Sound(v.c, true) && Sound(v.s, false)
    ensures v.c.appRecvQ == [] && v.s.appRecvQ == []
  {
    hide Link;
  }

  /** A stage of an end that has nothing to send: either control moves down, or its connection state
      drops at the cost of at most one packet. */
  lemma StageRank(e: Endpoint, client: bool)
    requires Sound(e, client) && StageEnabled(e) && e.appRecvQ == []
    requires e.pc.NetStage? && e.pc.ev.net ==>
               || (AwaitsLastAck(e) && e.netQ[0].flags == TH_ACK && e.netQ[0].payload == [])
               || (client && e.conn == FinWait2 && e.netQ[0].flags == TH_FIN)
    requires e.pc.CloseStage? && e.pc.ev.close ==> !client && e.conn == CloseWait
    ensures var f := StageStep(e);
            && |f.sent| <= 1
            && (if f.sent == [] && f.e.conn == e.conn then PcRank(f.e) < PcRank(e)
                else ConnRank(f.e.conn) < ConnRank(e.conn))
            && PcRank(f.e) <= 8
  {
    hide RecvAck;
    hide RecvData;
    hide SendData;
  }

  lemma ClosingStageIsOwn(nonEmpty: bool, v: Sys, client: bool)
    requires BothClosed(nonEmpty, v) && StageEnabled(EndOf(v, client).e)
    ensures var e := EndOf(v, client).e;
            && (e.pc.NetStage? && e.pc.ev.net ==>
                  || (AwaitsLastAck(e) && e.netQ[0].flags == TH_ACK && e.netQ[0].payload == [])
                  || (client && e.conn == FinWait2 && e.netQ[0].flags == TH_FIN))
            && (e.pc.CloseStage? && e.pc.ev.close ==> !client && e.conn == CloseWait)
  {
    BothClosedPhase(nonEmpty, v);
    hide Core;
    var e := EndOf(v, client).e;
    AckIsBare(nonEmpty, v, client);
    if e.netQ != [] { RecvKeepsInboundAt(v, client); }
  }

  /** After both closed, every step that is still possible lowers the measure. */
  lemma StepLowersMeasure(nonEmpty: bool, v: Sys, step: Step)
    requires BothClosed(nonEmpty, v) && CanStep(v, step)
    ensures Disciplined(nonEmpty, v, step)
    ensures BothClosed(nonEmpty, After(v, step)) && Measure(After(v, step)) < Measure(v)
  {
    BothClosedPhase(nonEmpty, v);
    assert step.action == DoStage || step.action == DoDeliver;
    StepKeepsCore(nonEmpty, v, step);
    AfterIs(v, step);
    hide After;
    if step.action == DoStage {
      ClosingStageIsOwn(nonEmpty, v, step.client);
      StageLowers(v, step.client);
    } else {
      DeliverLowers(v, step.client);
    }
    hide Core;
    hide Act;
    hide EndRank;
  }

  lemma DeliverLowers(v: Sys, client: bool)
    requires EndOf(v, client).wire != [] && EndOf(v, client).e.Running()
    ensures var w := Put(v, client, Act(EndOf(v, client), DoDeliver));
            Measure(w) < Measure(v) && w.ca == v.ca && w.sa == v.sa
  {
    assert v.c2s + [] == v.c2s && v.s2c + [] == v.s2c;
    hide ConnRank;
  }

  lemma StageLowers(v: Sys, client: bool)
    requires var e := EndOf(v, client).e;
             && Sound(e, client) && StageEnabled(e) && e.Running() && e.appRecvQ == []
             && (e.pc.NetStage? && e.pc.ev.net ==>
                   || (AwaitsLastAck(e) && e.netQ[0].flags == TH_ACK && e.netQ[0].payload == [])
                   || (client && e.conn == FinWait2 && e.netQ[0].flags == TH_FIN))
             && (e.pc.CloseStage? && e.pc.ev.close ==> !client && e.conn == CloseWait)
    ensures var w := Put(v, client, Act(EndOf(v, client), DoStage));
            Measure(w) < Measure(v) && w.ca == v.ca && w.sa == v.sa
  {
    StageRank(EndOf(v, client).e, client);
    hide StageStep;
    hide ConnRank;
    hide PcRank;
    hide Sound;
  }

  /** Until both ends are done some step is possible. */
  lemma NotDoneCanStep(nonEmpty: bool, v: Sys)
    requires BothClosed(nonEmpty, v) && !(v.c.pc == Exit && v.s.pc == Exit)
    ensures exists step :: CanStep(v, step)
  {
    BothClosedPhase(nonEmpty, v);
    hide Core;
    if StageEnabled(v.c) {
      assert CanStep(v, Stage(true));
    } else if StageEnabled(v.s) {
      assert CanStep(v, Stage(false));
    } else if v.s2c != [] {
      assert CanStep(v, Step(true, DoDeliver));
    } else if v.c2s != [] {
      assert CanStep(v, Step(false, DoDeliver));
    } else {
      assert ToClient(v) == v.c.netQ && ToServer(v) == v.s.netQ;
      IdleMeansWaiting(v.c, true);
      IdleMeansWaiting(v.s, false);
      assert false;
    }
  }

  lemma IdleMeansWaiting(e: Endpoint, client: bool)
    requires Sound(e, client) && !StageEnabled(e) && e.appRecvQ == []
    requires EventCloses(e) ==> !AwaitsLastAck(e)
    ensures e.pc == Exit || (e.pc == Wait && e.netQ == [] && !Pending(e))
  {
  }

  lemma {:induction false} ClosingRun(nonEmpty: bool, v: Sys, steps: seq<Step>, w: Sys)
    requires BothClosed(nonEmpty, v) && FreeRun(v, steps, w)
    ensures BothClosed(nonEmpty, w) && |steps| + Measure(w) <= Measure(v)
    decreases |steps|
  {
    hide BothClosed;
    if steps != [] {
      StepLowersMeasure(nonEmpty, v, steps[0]);
      ClosingRun(nonEmpty, After(v, steps[0]), steps[1..], w);
    }
  }

  /** Once both applications have called myclose, every continuation of the run is finite, at most
      Measure(v) steps long, and where it can go no further both transport threads have exited, both
      connections are CLOSED and both streams have been delivered in full. No fairness is assumed. */
  lemma TeardownTerminates(nonEmpty: bool, before: seq<Step>, v: Sys, steps: seq<Step>, w: Sys)
    requires Reached(nonEmpty, before, v) && v.ca.closed && v.sa.closed
    requires FreeRun(v, steps, w)
    ensures |steps| <= Measure(v)
    ensures (forall step :: !CanStep(w, step)) ==>
              && w.c.pc == Exit && w.s.pc == Exit && w.c.conn == Closed && w.s.conn == Closed
              && Received(w.s, w.sa) == w.ca.written && Received(w.c, w.ca) == w.sa.written
  {
    ReachedInv(nonEmpty, before, v);
    if !(InLoop(v.c) && InLoop(v.s)) { NotDoneEarly(nonEmpty, v); }
    assert Strip(v) == v;
    ClosingRun(nonEmpty, v, steps, w);
    if forall step :: !CanStep(w, step) {
      if !(w.c.pc == Exit && w.s.pc == Exit) { NotDoneCanStep(nonEmpty, w); }
      FinalDelivery(nonEmpty, w);
    }
  }

  lemma FinalDelivery(nonEmpty: bool, w: Sys)
    requires Core(nonEmpty, w) && w.c.pc == Exit && w.s.pc == Exit
    ensures w.c.conn == Closed && w.s.conn == Closed
    ensures Received(w.s, w.sa) == w.ca.written && Received(w.c, w.ca) == w.sa.written
  {
    assert w.c.done && w.s.done;
    LeavingIsEmpty(nonEmpty, w);
    hide Phase;
  }
}
