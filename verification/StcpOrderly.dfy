/** Runs step by step: a whole round of control_loop as steps of the system, and one complete,
    disciplined connection from the first SYN to both ends closed. */
module StcpOrderly {
  import opened Bytes
  import opened PacketQueueSpec
  import opened StcpTypes
  import opened StcpSteps
  import opened StcpSystem
  import opened StcpInvariant
  import opened StcpStages
  import opened StcpHandshake

  // ----- putting runs together ---------------------------------------------------------------------

  lemma {:induction false} RunConcat(nonEmpty: bool, u: Sys, a: seq<Step>, v: Sys, b: seq<Step>, w: Sys)
    requires Run(nonEmpty, u, a, v) && Run(nonEmpty, v, b, w)
    ensures Run(nonEmpty, u, a + b, w)
    decreases |a|
  {
    hide CanStep, Disciplined, After;
    if a == [] {
      assert a + b == b;
    } else {
      assert (a + b)[0] == a[0] && (a + b)[1..] == a[1..] + b;
      RunConcat(nonEmpty, After(u, a[0]), a[1..], v, b, w);
    }
  }

  lemma RunNil(u: Sys)
    ensures Run(true, u, [], u)
  {
  }

  lemma Do(u: Sys, a: seq<Step>, v: Sys, step: Step) returns (b: seq<Step>, w: Sys)
    requires Run(true, u, a, v) && CanStep(v, step) && Disciplined(true, v, step)
    ensures Run(true, u, b, w) && w == After(v, step)
  {
    hide CanStep, Disciplined, After;
    w := After(v, step);
    assert [step][1..] == [];
    RunNil(w);
    assert Run(true, v, [step], w);
    b := a + [step];
    RunConcat(true, u, a, v, [step], w);
  }

  /** `w` follows from `u` by `steps`, whatever the applications do. */
  lemma {:induction false} FreeRunConcat(u: Sys, a: seq<Step>, v: Sys, b: seq<Step>, w: Sys)
    requires FreeRun(u, a, v) && FreeRun(v, b, w)
    ensures FreeRun(u, a + b, w)
    decreases |a|
  {
    hide CanStep, After;
    if a == [] {
      assert a + b == b;
    } else {
      assert (a + b)[0] == a[0] && (a + b)[1..] == a[1..] + b;
      FreeRunConcat(After(u, a[0]), a[1..], v, b, w);
    }
  }

  lemma FreeDo(u: Sys, a: seq<Step>, v: Sys, step: Step) returns (b: seq<Step>, w: Sys)
    requires FreeRun(u, a, v) && CanStep(v, step)
    ensures FreeRun(u, b, w) && w == After(v, step)
  {
    w := After(v, step);
    assert [step][1..] == [];
    assert FreeRun(w, [], w);
    assert FreeRun(v, [step], w);
    b := a + [step];
    FreeRunConcat(u, a, v, [step], w);
  }

  /** A disciplined run is a run. */
  lemma {:induction false} RunIsFree(nonEmpty: bool, u: Sys, steps: seq<Step>, v: Sys)
    requires Run(nonEmpty, u, steps, v)
    ensures FreeRun(u, steps, v)
    decreases |steps|
  {
    if steps != [] {
      RunIsFree(nonEmpty, After(u, steps[0]), steps[1..], v);
    }
  }

  /** One stage, as a step that appends what it sends to the wire. */
  lemma DoStageOf(u: Sys, a: seq<Step>, v: Sys, client: bool) returns (b: seq<Step>, w: Sys)
    requires Run(true, u, a, v) && StageEnabled(EndOf(v, client).e) && EndOf(v, client).e.Running()
    ensures Run(true, u, b, w)
    ensures var x := EndOf(v, client); var f := StageStep(x.e);
            w == Put(v, client, Outcome(x.(e := f.e), f.sent))
  {
    hide Run, After, StageStep;
    b, w := Do(u, a, v, Stage(client));
    StageIs(v, client);
  }

  /** A round of control_loop with nothing happening in between is a run of up to four steps: it ends
      early at the jump, or where the process does. */
  lemma DoRound(u: Sys, a: seq<Step>, v: Sys, client: bool) returns (b: seq<Step>, w: Sys)
    requires Run(true, u, a, v) && RoundReady(EndOf(v, client).e)
    ensures Run(true, u, b, w)
    ensures var x := EndOf(v, client); var f := Round(x.e);
            w == Put(v, client, Outcome(x.(e := f.e), f.sent))
  {
    var x := EndOf(v, client);
    assert x.e.Running() && StageStep(x.e).e.Running();
    hide Run, StageStep, StageEnabled, RoundReady;
    RoundRuns(x.e);
    var f1 := StageStep(x.e);
    var f2 := Then(f1);
    var f3 := Then(f2);
    b, w := DoStageOf(u, a, v, client);
    b, w := DoStageOf(u, b, w, client);
    PutTwice(v, client, x.(e := f1.e), f1.sent, x.(e := f2.e), StageStep(f1.e).sent);
    if f2.e.Running() {
      b, w := DoStageOf(u, b, w, client);
      PutTwice(v, client, x.(e := f2.e), f2.sent, x.(e := f3.e), StageStep(f2.e).sent);
    }
    if f3.e.pc.CloseStage? && f3.e.Running() {
      b, w := DoStageOf(u, b, w, client);
      PutTwice(v, client, x.(e := f3.e), f3.sent, x.(e := Then(f3).e), StageStep(f3.e).sent);
    }
  }

  lemma PutTwice(v: Sys, client: bool, x: End, sent: seq<Packet>, y: End, more: seq<Packet>)
    ensures Put(Put(v, client, Outcome(x, sent)), client, Outcome(y, more)) == Put(v, client, Outcome(y, sent + more))
    ensures EndOf(Put(v, client, Outcome(x, sent)), client) == x
  {
  }

  // ----- what a round does, by event ---------------------------------------------------------------

  lemma RoundSends(e: Endpoint)
    requires RoundReady(e) && Ready(e) == Event(true, false, false)
    ensures var f := SendData(e);
            Round(e) == Effect(if f.e.Running() then EndRound(f.e) else f.e.(pc := NetStage(Ready(e))), f.sent)
  {
    var x := WaitStep(e);
    assert StageStep(e) == Effect(x, []);
    SendDataAnywhere(e, x.pc);
    hide SendData, RecvPacket, CloseBlock;
  }

  lemma SendDataAnywhere(e: Endpoint, pc: Pc)
    requires e.appRecvQ != []
    ensures SendData(e.(pc := pc)) == Effect(SendData(e).e.(pc := pc), SendData(e).sent)
  {
    hide TakePartial, Splice, Wrap64, Wrap32, Remaining;
  }

  lemma RoundReceives(e: Endpoint)
    requires RoundReady(e) && Ready(e) == Event(false, true, false) && !JumpsToClose(e)
    ensures var f := RecvPacket(e);
            Round(e) == Effect(if f.e.Running() then EndRound(f.e) else f.e.(pc := CloseStage(Ready(e))), f.sent)
  {
    var x := WaitStep(e);
    assert StageStep(e) == Effect(x, []);
    RecvPacketAnywhere(e, NetStage(x.pc.ev));
    hide RecvPacket, SendData, CloseBlock;
  }

  lemma RecvPacketAnywhere(e: Endpoint, pc: Pc)
    requires e.netQ != []
    ensures RecvPacket(e.(pc := pc)) == Effect(RecvPacket(e).e.(pc := pc), RecvPacket(e).sent)
  {
    hide RecvAck, RecvFin, RecvData;
    var x := e.(netQ := e.netQ[1..]);
    var p := e.netQ[0];
    if p.flags == TH_ACK {
      RecvAckAnywhere(x, p, x.netQ, pc);
      RecvAckFrame(x, p);
      assert x.(netQ := x.netQ, pc := pc) == x.(pc := pc);
    } else if p.flags == TH_FIN {
      RecvFinAnywhere(x, p, pc);
    } else {
      RecvDataAnywhere(x, p, pc);
    }
  }

  lemma RecvFinAnywhere(e: Endpoint, p: Packet, pc: Pc)
    ensures RecvFin(e.(pc := pc), p) == Effect(RecvFin(e, p).e.(pc := pc), RecvFin(e, p).sent)
  {
    hide Wrap64, Wrap32;
  }

  lemma RecvDataAnywhere(e: Endpoint, p: Packet, pc: Pc)
    ensures RecvData(e.(pc := pc), p) == Effect(RecvData(e, p).e.(pc := pc), RecvData(e, p).sent)
  {
    hide Wrap64, Wrap32;
  }

  lemma RoundSwallows(e: Endpoint)
    requires RoundReady(e) && Ready(e) == Event(false, true, false) && AwaitsLastAck(e)
    ensures Round(e) == Effect(EndRound(Swallow(e)), [])
  {
    hide SendData, RecvPacket, SendFin;
  }

  lemma RoundCloses(e: Endpoint)
    requires RoundReady(e) && Ready(e) == Event(false, false, true)
    ensures var f := CloseBlock(e.(closeRequested := false)); Round(e) == Effect(EndRound(f.e), f.sent)
  {
    hide SendData, RecvPacket, Wrap64, Wrap32;
  }

  // ----- a complete connection -----------------------------------------------------------------------

  /** The handshake as it runs when nothing else happens. */
  lemma HandshakeRun() returns (steps: seq<Step>)
    ensures Run(true, Init(), steps, BothEstablished())
  {
    hide Run, Zeros;
    var u := Init();
    var v := u;
    RunNil(u);
    steps, v := Do(u, [], v, Step(false, DoBoot));
    assert v == u.(s := u.s.(conn := Listen, pc := Shake));
    steps, v := Do(u, steps, v, Step(true, DoBoot));
    assert v == u.(s := u.s.(conn := Listen, pc := Shake), c := u.c.(conn := SynSent, pc := Shake), c2s := [Syn]);
    steps, v := Do(u, steps, v, Step(false, DoDeliver));
    assert v.s.netQ == [Syn];
    steps, v := Do(u, steps, v, Step(false, DoShake));
    assert v == u.(s := u.s.(conn := SynRcvd, pc := Shake), c := u.c.(conn := SynSent, pc := Shake), s2c := [SynAck]);
    steps, v := Do(u, steps, v, Step(true, DoDeliver));
    assert v.c.netQ == [SynAck];
    steps, v := Do(u, steps, v, Step(true, DoShake));
    assert v == u.(s := u.s.(conn := SynRcvd, pc := Shake), c := Establish(u.c), c2s := [LastOfThree]);
    steps, v := Do(u, steps, v, Step(false, DoDeliver));
    assert v.s.netQ == [LastOfThree];
    steps, v := Do(u, steps, v, Step(false, DoShake));
    assert v == BothEstablished();
  }

  /** An endpoint between rounds, with nothing to do and its own data acknowledged. */
  predicate Resting(e: Endpoint, client: bool, conn: CState, next: nat, recvBase: nat) {
    && e.Running() && e.isClient == client && e.conn == conn && e.pc == Wait && !e.done && !e.closeRequested
    && e.appRecvQ == [] && e.netQ == []
    && e.sendBase <= e.next == next && e.recvBase == recvBase
  }

  /** The client's byte reaches the server and is acknowledged. */
  lemma ByteSent(c: Endpoint)
    requires c == Establish(Fresh(true))
    ensures SendData(c.(appRecvQ := [[7]]))
         == Effect(c.(next := 2, rem := MSS - 1, buffer := Splice(c.buffer, 0, [7])), [Packet(1, 0, TH_DATA, [7])])
  {
    hide Splice;
    assert [[7]][1..] == [];
  }

  lemma ByteExchanged() returns (steps: seq<Step>, v: Sys)
    ensures Run(true, Init(), steps, v)
    ensures Resting(v.c, true, Established, 2, 1) && v.c.sendBase == 2 && v.c.appSendQ == []
    ensures Resting(v.s, false, Established, 1, 2) && v.s.appSendQ == [[7]]
    ensures v.ca == NoApp.(written := [7]) && v.sa == NoApp && v.c2s == [] && v.s2c == []
  {
    hide Run, Zeros, Round, StageStep;
    var u := Init();
    steps := HandshakeRun();
    v := BothEstablished();
    var c := v.c;
    steps, v := Do(u, steps, v, Step(true, DoWrite([7])));
    assert v.c == c.(appRecvQ := [[7]]);
    RoundSends(v.c);
    var d := Packet(1, 0, TH_DATA, [7]);
    ByteSent(c);
    hide SendData, Splice;
    steps, v := DoRound(u, steps, v, true);
    assert v.c2s == [d] && v.s == BothEstablished().s;
    steps, v := ByteReceived(steps, v, d);
  }

  lemma ByteReceived(before: seq<Step>, from: Sys, d: Packet) returns (steps: seq<Step>, v: Sys)
    requires Run(true, Init(), before, from)
    requires from.s == BothEstablished().s && from.c2s == [d] && from.s2c == [] && d == Packet(1, 0, TH_DATA, [7])
    requires Resting(from.c, true, Established, 2, 1) && from.c.sendBase == 1 && from.c.appSendQ == []
    requires from.c.cwnd == MSS == from.c.swnd == |from.c.buffer| && from.c.recvWin == RECV_WINDOW_SIZE
    requires from.ca == NoApp.(written := [7]) && from.sa == NoApp
    ensures Run(true, Init(), steps, v)
    ensures Resting(v.c, true, Established, 2, 1) && v.c.sendBase == 2 && v.c.appSendQ == []
    ensures Resting(v.s, false, Established, 1, 2) && v.s.appSendQ == [[7]]
    ensures v.ca == NoApp.(written := [7]) && v.sa == NoApp && v.c2s == [] && v.s2c == []
  {
    hide Run, Zeros, Round, StageStep, SendData;
    var u := Init();
    steps, v := Do(u, before, from, Step(false, DoDeliver));
    assert v.s == from.s.(netQ := [d]) && v.c2s == [];
    RoundReceives(v.s);
    var ack := Packet(2, 2, TH_ACK, []);
    assert RecvPacket(v.s) == Effect(from.s.(recvBase := 2, appSendQ := [[7]]), [ack]);
    steps, v := DoRound(u, steps, v, false);
    assert v.s2c == [ack];
    steps, v := Do(u, steps, v, Step(true, DoDeliver));
    assert v.c == from.c.(netQ := [ack]) && v.s2c == [];
    RoundReceives(v.c);
    assert RecvPacket(v.c).sent == [] && RecvPacket(v.c).e == RecvAck(from.c, ack) && RecvAck(from.c, ack).sendBase == 2;
    steps, v := DoRound(u, steps, v, true);
  }

  /** The client closes: FIN, its acknowledgement, and the server has seen the end of the stream. */
  lemma ClientClosed() returns (steps: seq<Step>, v: Sys)
    ensures Run(true, Init(), steps, v)
    ensures Resting(v.c, true, FinWait2, 3, 1) && v.c.appSendQ == []
    ensures Resting(v.s, false, CloseWait, 1, 3) && v.s.appSendQ == [[7], []]
    ensures v.ca == NoApp.(written := [7], closed := true) && v.sa == NoApp && v.c2s == [] && v.s2c == []
  {
    hide Run, Zeros, Round, StageStep, SendData, RecvAck, RecvData;
    var u := Init();
    steps, v := ByteExchanged();
    var c, s := v.c, v.s;
    assert Received(v.c, v.ca) == [] == v.sa.written;
    steps, v := Do(u, steps, v, Step(true, DoClose));
    assert v.c == c.(closeRequested := true);
    RoundCloses(v.c);
    var fin, ack := Packet(2, 0, TH_FIN, []), Packet(3, 3, TH_ACK, []);
    steps, v := DoRound(u, steps, v, true);
    assert v.c2s == [fin] && v.c.conn == FinWait1 && v.c.next == 3;
    c := v.c;
    steps, v := Do(u, steps, v, Step(false, DoDeliver));
    assert v.s == s.(netQ := [fin]);
    RoundReceives(v.s);
    assert RecvPacket(v.s) == Effect(s.(recvBase := 3, conn := CloseWait, appSendQ := [[7], []]), [ack]);
    steps, v := DoRound(u, steps, v, false);
    assert v.s2c == [ack];
    steps, v := Do(u, steps, v, Step(true, DoDeliver));
    assert v.c == c.(netQ := [ack]);
    RoundSwallows(v.c);
    steps, v := DoRound(u, steps, v, true);
  }

  /** The server reads to the end of the stream and closes: its FIN is on its way. */
  lemma ServerClosed() returns (steps: seq<Step>, v: Sys)
    ensures Run(true, Init(), steps, v)
    ensures Resting(v.c, true, FinWait2, 3, 1) && v.c.appSendQ == []
    ensures Resting(v.s, false, LastAck, 2, 3) && v.s.appSendQ == []
    ensures v.ca == NoApp.(written := [7], closed := true) && v.sa == NoApp.(read := [7], eof := true, closed := true)
    ensures v.c2s == [] && v.s2c == [Packet(1, 0, TH_FIN, [])]
  {
    hide Run, Zeros, Round, StageStep, SendData, RecvAck, RecvData, RecvPacket;
    var u := Init();
    steps, v := ClientClosed();
    var s := v.s;
    steps, v := Do(u, steps, v, Step(false, DoRead(10)));
    assert v.sa == NoApp.(read := [7]) && v.s == s.(appSendQ := [[]]);
    steps, v := Do(u, steps, v, Step(false, DoRead(10)));
    assert v.sa == NoApp.(read := [7], eof := true) && v.s == s.(appSendQ := []);
    steps, v := Do(u, steps, v, Step(false, DoClose));
    assert v.s == s.(appSendQ := [], closeRequested := true);
    RoundCloses(v.s);
    steps, v := DoRound(u, steps, v, false);
  }

  /** A disciplined run from the first SYN to the end: the byte is delivered, both applications have
      closed, both threads have left their loops and nothing is in flight. */
  lemma CompleteConnection() returns (steps: seq<Step>, v: Sys)
    ensures Run(true, Init(), steps, v)
    ensures v.c.pc == Exit && v.s.pc == Exit && v.c.conn == Closed && v.s.conn == Closed
    ensures v.ca.closed && v.sa.closed && v.ca.written == [7] && v.sa.read == [7] && v.sa.eof
    ensures v.c2s == [] && v.s2c == []
  {
    hide Run, Zeros, Round, StageStep, SendData, RecvAck, RecvData, SendFin;
    var u := Init();
    steps, v := ServerClosed();
    var c, s := v.c, v.s;
    var fin, ack := Packet(1, 0, TH_FIN, []), Packet(2, 2, TH_ACK, []);
    steps, v := Do(u, steps, v, Step(true, DoDeliver));
    assert v.c == c.(netQ := [fin]);
    RoundReceives(v.c);
    assert RecvPacket(v.c) == Effect(c.(recvBase := 2, conn := Closed, done := true, appSendQ := [[]]), [ack]);
    steps, v := DoRound(u, steps, v, true);
    assert v.c2s == [ack] && v.c.pc == Exit;
    steps, v := Do(u, steps, v, Step(false, DoDeliver));
    assert v.s == s.(netQ := [ack]);
    RoundSwallows(v.s);
    steps, v := DoRound(u, steps, v, false);
  }
}
