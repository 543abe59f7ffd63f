/** A server that closes before the client's FIN is in: its request is lost, and it never finishes. */
module StcpLostClose {
  import opened Bytes
  import opened StcpTypes
  import opened StcpSteps
  import opened StcpSystem
  import opened StcpLink
  import opened StcpInvariant
  import opened StcpStages
  import opened StcpHandshake
  import opened StcpOrderly
  import opened StcpFree

  /** The server's close request has been handled without a FIN being sent. */
  predicate CloseLost(e: Endpoint, a: App) {
    && !e.isClient && InLoop(e) && !e.done && a.closed && !Pending(e)
    && (e.conn == Established || e.conn == CloseWait)
  }

  lemma CloseLostIsStable(x: End, action: Action)
    requires CloseLost(x.e, x.a) && Enabled(x, action)
    ensures var y := Act(x, action).end; CloseLost(y.e, y.a)
  {
    if action == DoStage {
      var e := x.e;
      if e.pc.AppStage? && e.pc.ev.app { SendDataFrame(e); }
      if e.pc.NetStage? && e.pc.ev.net {
        var e1 := e.(netQ := e.netQ[1..]);
        RecvAckFrame(e1, e.netQ[0]);
        RecvDataFrame(e1, e.netQ[0]);
      }
    }
    hide SendData, RecvAck, RecvData, SendFin;
  }

  lemma RecvDataFrame(x: Endpoint, p: Packet)
    ensures var e := RecvData(x, p).e; e == x.(recvBase := e.recvBase, appSendQ := e.appSendQ, fault := e.fault)
  {
  }

  /** Such a server never finishes, whatever happens afterwards: its request is gone for good. */
  lemma {:induction false} LostCloseNeverEnds(v: Sys, steps: seq<Step>, w: Sys)
    requires CloseLost(v.s, v.sa) && FreeRun(v, steps, w)
    ensures CloseLost(w.s, w.sa) && !w.s.done
    decreases |steps|
  {
    if steps != [] {
      var step := steps[0];
      AfterIs(v, step);
      if !step.client { CloseLostIsStable(EndOf(v, false), step.action); }
      LostCloseNeverEnds(After(v, step), steps[1..], w);
    }
  }

  // ----- exactly when -------------------------------------------------------------------------------

  /** The close branch of the server runs while the client's FIN has not arrived: it does nothing. */
  predicate ClosesEarly(v: Sys, step: Step) {
    !step.client && step.action == DoStage && v.s.pc.CloseStage? && v.s.pc.ev.close && v.s.conn == Established
  }

  ghost predicate ClosedEarly(v: Sys, steps: seq<Step>)
    decreases |steps|
  {
    steps != [] && CanStep(v, steps[0]) && (ClosesEarly(v, steps[0]) || ClosedEarly(After(v, steps[0]), steps[1..]))
  }

  /** What the server's close flags say; `lost` tells whether the request has been lost. */
  predicate CloseTracked(x: End, lost: bool) {
    && !x.e.isClient && InLoop(x.e)
    && (x.e.conn == Established || x.e.conn == CloseWait || x.e.conn == LastAck || x.e.conn == Closed)
    && (x.e.done <==> x.e.conn == Closed) && (x.e.done ==> x.e.pc == Exit)
    && (Pending(x.e) ==> x.a.closed) && !(x.e.closeRequested && EventCloses(x.e))
    && (CloseLost(x.e, x.a) <==> lost)
  }

  lemma CloseStageTracks(x: End, lost: bool)
    requires CloseTracked(x, lost) && StageEnabled(x.e)
    requires (x.e.pc.NetStage? && x.e.pc.ev.net && JumpsToClose(x.e)) || x.e.pc.CloseStage?
    ensures var early := x.e.pc.CloseStage? && x.e.pc.ev.close && x.e.conn == Established;
            CloseTracked(x.(e := StageStep(x.e).e), lost || early)
  {
    hide SendData, RecvPacket, Wrap32, Wrap64, Remaining;
  }

  lemma StageTracksClose(x: End, lost: bool)
    requires CloseTracked(x, lost) && StageEnabled(x.e)
    ensures var early := x.e.pc.CloseStage? && x.e.pc.ev.close && x.e.conn == Established;
            CloseTracked(x.(e := StageStep(x.e).e), lost || early)
  {
    var e := x.e;
    if (e.pc.NetStage? && e.pc.ev.net && JumpsToClose(e)) || e.pc.CloseStage? {
      CloseStageTracks(x, lost);
    } else if e.pc.NetStage? && e.pc.ev.net {
      NetStageTracks(x, lost);
    } else if e.pc.AppStage? && e.pc.ev.app {
      SendDataFrame(e);
    }
    hide SendData, RecvPacket, CloseBlock;
  }

  lemma NetStageTracks(x: End, lost: bool)
    requires CloseTracked(x, lost) && StageEnabled(x.e) && x.e.pc.NetStage? && x.e.pc.ev.net && !JumpsToClose(x.e)
    ensures CloseTracked(x.(e := StageStep(x.e).e), lost)
  {
    var e := x.e;
    var e1 := e.(netQ := e.netQ[1..]);
    RecvAckFrame(e1, e.netQ[0]);
    RecvDataFrame(e1, e.netQ[0]);
    hide SendData, RecvAck, RecvData, SendFin, CloseBlock;
  }

  lemma ActTracksClose(x: End, action: Action, lost: bool)
    requires CloseTracked(x, lost) && Enabled(x, action)
    ensures var early := action == DoStage && x.e.pc.CloseStage? && x.e.pc.ev.close && x.e.conn == Established;
            CloseTracked(Act(x, action).end, lost || early)
  {
    hide StageStep;
    if action == DoStage {
      StageTracksClose(x, lost);
    }
  }

  /** Before the server is in its loop nothing can have been lost. */
  predicate RunTracked(v: Sys, lost: bool) {
    if InLoop(v.s) then CloseTracked(EndOf(v, false), lost) else !lost
  }

  lemma ServerEnters(v: Sys, step: Step)
    requires Handshake(v) && CanStep(v, step) && !InLoop(v.s) && !step.client
    ensures RunTracked(After(v, step), false)
  {
    assert !v.s.isClient && !v.sa.closed && !v.s.closeRequested && !v.s.done;
    assert InLoop(After(v, step).s) ==> After(v, step).s.conn == Established && After(v, step).s.pc == Wait;
    hide Handshake, Zeros, Wrap32;
  }

  lemma StepTracksClose(v: Sys, step: Step, lost: bool)
    requires Handshake(v) && RunTracked(v, lost) && CanStep(v, step)
    ensures RunTracked(After(v, step), lost || ClosesEarly(v, step))
  {
    hide Handshake;
    AfterIs(v, step);
    if !step.client {
      if InLoop(v.s) {
        ActTracksClose(EndOf(v, false), step.action, lost);
        ActStaysInLoop(EndOf(v, false), step.action);
        hide After, Act;
      } else {
        ServerEnters(v, step);
      }
    }
    hide After, Act, CloseTracked;
  }

  lemma {:induction false} RunTracksClose(v: Sys, steps: seq<Step>, w: Sys, lost: bool)
    requires Handshake(v) && RunTracked(v, lost) && FreeRun(v, steps, w)
    ensures RunTracked(w, lost || ClosedEarly(v, steps))
    decreases |steps|
  {
    hide Handshake, RunTracked, After, CanStep, ClosesEarly;
    if steps != [] {
      StepCommutes(v, steps[0]);
      StepTracksClose(v, steps[0], lost);
      RunTracksClose(After(v, steps[0]), steps[1..], w, lost || ClosesEarly(v, steps[0]));
    }
  }

  /** In every run the server's request is lost if and only if its close branch ran in ESTABLISHED, that is
      before the client's FIN was taken. */
  lemma CloseIsLostExactly(steps: seq<Step>, w: Sys)
    requires FreeRun(Init(), steps, w)
    ensures CloseLost(w.s, w.sa) <==> ClosedEarly(Init(), steps)
  {
    hide FreeRun, ClosedEarly;
    assert BeforeSyn(Init().c, Init().s, ToClient(Init()), ToServer(Init()));
    RunTracksClose(Init(), steps, w, false);
  }

  /** It does happen: a server that closes right after the handshake. */
  lemma ServerClosesFirst() returns (steps: seq<Step>, w: Sys)
    ensures FreeRun(Init(), steps, w) && CloseLost(w.s, w.sa) && w.s.conn == Established
  {
    hide FreeRun, Run, Zeros, SendData, RecvPacket, RecvAck, RecvData, ShakeStep, BootStep, ReadStep;
    var u, v := Init(), BothEstablished();
    var s, ev := v.s, Event(false, false, true);
    steps := HandshakeRun();
    RunIsFree(true, u, steps, v);
    steps, v := FreeDo(u, steps, v, Step(false, DoClose));
    assert v.s == s.(closeRequested := true);
    steps, v := FreeDo(u, steps, v, Stage(false));
    assert v.s == s.(pc := AppStage(ev));
    steps, v := FreeDo(u, steps, v, Stage(false));
    assert v.s == s.(pc := NetStage(ev));
    steps, v := FreeDo(u, steps, v, Stage(false));
    assert v.s == s.(pc := CloseStage(ev));
    steps, w := FreeDo(u, steps, v, Stage(false));
    assert w.s == s;
  }
}
