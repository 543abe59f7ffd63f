/** What goes wrong, and exactly when, if the applications do not follow the discipline. */
module StcpUndisciplined {
  import opened Bytes
  import opened PacketQueueSpec
  import opened StcpTypes
  import opened StcpSteps
  import opened StcpSystem
  import opened StcpChannel
  import opened StcpHandshake
  import opened StcpTheorems
  import opened StcpOrderly
  import opened StcpFree
  import opened StcpOverrun

  // ----- FIN_WAIT_1 has no room for data ----------------------------------------------------------

  /** The stream to the server is intact in every run: LAST_ACK never meets a packet that carries data. */
  lemma ServerStreamIntact(steps: seq<Step>, w: Sys)
    requires FreeRun(Init(), steps, w) && Small(w.ca) && Small(w.sa)
    ensures ConservedTo(w, false) && !w.s.overread && NoDataSwallowed(Init(), steps, false)
  {
    NoOverrun(steps, w);
    StreamSafetyExactly(steps, w, false);
    hide FreeRun, NoDataSwallowed, ConservedTo, FinsFit;
  }

  /** However the applications close, the conclusion of StreamSafety holds exactly until the client reads
      past its header buffer, that is until it takes a packet that carries data in FIN_WAIT_1. */
  lemma ConservedExactly(steps: seq<Step>, w: Sys)
    requires FreeRun(Init(), steps, w) && Small(w.ca) && Small(w.sa)
    ensures Conserved(w) <==> !w.c.overread
    ensures w.c.overread <==> !NoDataSwallowed(Init(), steps, true)
  {
    ServerStreamIntact(steps, w);
    StreamSafetyExactly(steps, w, true);
    ConservedIs(w);
    hide FreeRun, NoDataSwallowed, Conserved, ConservedTo;
  }

  lemma ConservedIs(w: Sys)
    ensures Conserved(w) <==> ConservedTo(w, true) && ConservedTo(w, false)
  {
    hide Flat, Payload;
  }

  // ----- concrete runs ----------------------------------------------------------------------------

  /** The client has sent its FIN while the server's byte 7 waits in its queue. */
  function Racing(): Sys {
    var b := BothEstablished();
    Sys(b.c.(next := 2, rem := MSS - 1, conn := FinWait1), b.s.(appRecvQ := [[7]]),
        NoApp.(closed := true), NoApp.(written := [7]), [Packet(1, 0, TH_FIN, [])], [])
  }

  lemma ClientClosesFirst() returns (steps: seq<Step>)
    ensures FreeRun(Init(), steps, Racing())
  {
    hide FreeRun, Run, Zeros;
    var u := Init();
    steps := HandshakeRun();
    RunIsFree(true, u, steps, BothEstablished());
    var v := BothEstablished();
    var c, s := v.c, v.s;
    steps, v := FreeDo(u, steps, v, Step(false, DoWrite([7])));
    assert v == BothEstablished().(s := s.(appRecvQ := [[7]]), sa := NoApp.(written := [7]));
    steps, v := FreeDo(u, steps, v, Step(true, DoClose));
    assert v == Racing().(c := c.(closeRequested := true), c2s := []);
    steps, v := ClientClosesNow(steps, v);
    assert v == Racing();
  }

  /** The client's round that handles the close request: the FIN leaves. */
  lemma ClientClosesNow(before: seq<Step>, from: Sys) returns (steps: seq<Step>, w: Sys)
    requires FreeRun(Init(), before, from)
    requires from.c == BothEstablished().c.(closeRequested := true)
    ensures FreeRun(Init(), steps, w)
    ensures w == from.(c := Racing().c, c2s := from.c2s + [Packet(1, 0, TH_FIN, [])])
  {
    hide FreeRun, Zeros, SendData, RecvPacket, RecvAck, RecvData, ShakeStep, BootStep, ReadStep;
    var u, v := Init(), from;
    var c := BothEstablished().c;
    var ev := Event(false, false, true);
    steps := before;
    steps, v := FreeDo(u, steps, v, Step(true, DoStage));
    assert v == from.(c := c.(pc := AppStage(ev)));
    steps, v := FreeDo(u, steps, v, Step(true, DoStage));
    assert v == from.(c := c.(pc := NetStage(ev)));
    steps, v := FreeDo(u, steps, v, Step(true, DoStage));
    assert v == from.(c := c.(pc := CloseStage(ev)));
    steps, v := FreeDo(u, steps, v, Step(true, DoStage));
    w := v;
  }

  /** A client that closes while the server still has a byte to send: FIN_WAIT_1 takes the byte's packet into
      20 octets and checks the sum over 21. The process is gone, and the byte with it. */
  lemma EarlyClientCloseOverreads() returns (steps: seq<Step>, w: Sys)
    ensures FreeRun(Init(), steps, w)
    ensures w.c.overread && w.c.conn == FinWait1 && w.sa.written == [7] && !Conserved(w)
    ensures forall action :: !CanStep(w, Step(true, action))
  {
    hide FreeRun;
    hide Zeros;
    var u := Init();
    steps := ClientClosesFirst();
    var v := Racing();
    var c := v.c;
    var d := Packet(1, 0, TH_DATA, [7]);
    steps, v := FreeDo(u, steps, v, Step(false, DoStage));
    assert v == Racing().(s := Racing().s.(pc := AppStage(Event(true, false, false))));
    steps, v := FreeDo(u, steps, v, Step(false, DoStage));
    assert v.s.appRecvQ == [] && v.s2c == [d] && v.c == c && v.ca == NoApp.(closed := true) && v.sa == NoApp.(written := [7]);
    steps, w := ClientTakesData(steps, v, d);
    ConservedExactly(steps, w);
    hide Conserved, NoDataSwallowed;
  }

  /** In FIN_WAIT_1 the client takes the data packet off its queue and reads past its buffer. */
  lemma ClientTakesData(before: seq<Step>, from: Sys, d: Packet) returns (steps: seq<Step>, w: Sys)
    requires FreeRun(Init(), before, from)
    requires from.c == Racing().c && from.s2c == [d] && d.payload != []
    ensures FreeRun(Init(), steps, w) && w == from.(c := from.c.(overread := true), s2c := [])
  {
    hide FreeRun, Zeros, SendData, RecvPacket, RecvAck, RecvData, SendFin, ShakeStep, BootStep, ReadStep;
    var u, v := Init(), from;
    var c := v.c;
    var ev := Event(false, true, false);
    steps := before;
    steps, v := FreeDo(u, steps, v, Step(true, DoDeliver));
    assert v == from.(c := c.(netQ := [d]), s2c := []);
    steps, v := FreeDo(u, steps, v, Step(true, DoStage));
    assert v == from.(c := c.(netQ := [d], pc := AppStage(ev)), s2c := []);
    steps, v := FreeDo(u, steps, v, Step(true, DoStage));
    assert v == from.(c := c.(netQ := [d], pc := NetStage(ev)), s2c := []);
    steps, v := FreeDo(u, steps, v, Step(true, DoStage));
    w := v;
  }

  // ----- a FIN that fills the window --------------------------------------------------------------

  /** The client has one segment of 536 bytes on its way and no room left. */
  function WindowFull(): Sys {
    var b := BothEstablished();
    b.(c := b.c.(next := 1 + MSS, rem := 0, buffer := Splice(b.c.buffer, 0, Zeros(MSS))),
       ca := NoApp.(written := Zeros(MSS)), c2s := [Packet(1, 0, TH_DATA, Zeros(MSS))])
  }

  lemma WindowFills() returns (steps: seq<Step>)
    ensures Run(true, Init(), steps, WindowFull())
  {
    hide Run, Zeros, Round;
    var u := Init();
    steps := HandshakeRun();
    var v := BothEstablished();
    var c := v.c;
    steps, v := Do(u, steps, v, Step(true, DoWrite(Zeros(MSS))));
    assert v.c == c.(appRecvQ := [Zeros(MSS)]);
    RoundSends(v.c);
    assert TakePartial(v.c.appRecvQ, MSS) == Taken(Zeros(MSS), []);
    steps, v := DoRound(u, steps, v, true);
    assert v == WindowFull();
  }

  /** The FIN leaves at once: the window now counts one byte more than it holds. */
  function FinFillsWindow(): Sys {
    var b := WindowFull();
    b.(c := b.c.(next := 2 + MSS, rem := W64 - 1, conn := FinWait1), ca := b.ca.(closed := true),
       c2s := b.c2s + [Packet(1 + MSS, 0, TH_FIN, [])])
  }

  lemma FullWindowCloses() returns (steps: seq<Step>)
    ensures FreeRun(Init(), steps, FinFillsWindow())
  {
    hide FreeRun, Run, Zeros, Round;
    var u, v := Init(), WindowFull();
    steps := WindowFills();
    RunIsFree(true, u, steps, v);
    steps, v := FreeDo(u, steps, v, Step(true, DoClose));
    var more: seq<Step>, w: Sys := [], v;
    RunNil(v);
    RoundCloses(v.c);
    more, w := DoRound(v, [], v, true);
    assert w == FinFillsWindow();
    RunIsFree(true, v, more, w);
    FreeRunConcat(u, steps, v, more, w);
    steps := steps + more;
  }

  /** The server answers both; the client takes the first answer unseen and the second one shifts its
      buffer by one byte more than it has: the copy leaves the buffer. */
  lemma FullWindowFinOverruns() returns (steps: seq<Step>, w: Sys)
    ensures FreeRun(Init(), steps, w) && Small(w.ca) && Small(w.sa)
    ensures w.c.fault && !FinsFit(Init(), steps)
  {
    steps := FullWindowCloses();
    var more: seq<Step>;
    more, w := AnswersArrive();
    RunIsFree(true, FinFillsWindow(), more, w);
    FreeRunConcat(Init(), steps, FinFillsWindow(), more, w);
    steps := steps + more;
    NoOverrun(steps, w);
    hide FreeRun, Run, FinsFit;
  }

  lemma AnswersArrive() returns (steps: seq<Step>, w: Sys)
    ensures Run(true, FinFillsWindow(), steps, w)
    ensures w.c.fault && Small(w.ca) && Small(w.sa)
  {
    hide Run, Zeros, Round, StageStep, RecvAck;
    var u := FinFillsWindow();
    steps, w := BothAnswered();
    var c := w.c;
    var first, second := w.s2c[0], w.s2c[1];
    steps, w := Do(u, steps, w, Step(true, DoDeliver));
    assert w.c == c.(netQ := [first]) && w.s2c == [second];
    RoundSwallows(w.c);
    steps, w := DoRound(u, steps, w, true);
    assert w.c == c.(conn := FinWait2);
    steps, w := Do(u, steps, w, Step(true, DoDeliver));
    assert w.c == c.(conn := FinWait2, netQ := [second]);
    RoundReceives(w.c);
    assert c.netQ == [] && w.c.netQ[1..] == [];
    assert RecvPacket(w.c).e == RecvAck(c.(conn := FinWait2), second);
    assert RecvAck(c.(conn := FinWait2), second).fault by { OneTooMany(c.(conn := FinWait2), second); }
    steps, w := DoRound(u, steps, w, true);
  }

  /** An answer for one byte more than the window holds. */
  lemma OneTooMany(e: Endpoint, p: Packet)
    requires e.cwnd > 0 && p.ack == e.sendBase + e.swnd + 1 && p.ack < W32
    ensures RecvAck(e, p).fault
  {
    hide GrowCwnd, Zeros;
  }

  /** An idle server takes the next packet off the wire in one round. */
  lemma ServerTakes(u: Sys, a: seq<Step>, v: Sys) returns (steps: seq<Step>, w: Sys)
    requires Run(true, u, a, v) && v.c2s != [] && v.s.pc == Wait && v.s.netQ == [] && v.s.appRecvQ == []
    requires !v.s.closeRequested && !JumpsToClose(v.s)
    requires v.s.Running() && RecvPacket(v.s.(netQ := [v.c2s[0]])).e.Running()
    ensures Run(true, u, steps, w)
    ensures var f := RecvPacket(v.s.(netQ := [v.c2s[0]]));
            w == v.(s := EndRound(f.e), c2s := v.c2s[1..], s2c := v.s2c + f.sent)
  {
    hide Run, Round, StageStep, RecvPacket, Disciplined;
    assert Disciplined(true, v, Step(false, DoDeliver)) by { hide *; DeliveryAllowed(v); }
    steps, w := Do(u, a, v, Step(false, DoDeliver));
    assert w.s == v.s.(netQ := [v.c2s[0]]) && w == v.(s := w.s, c2s := v.c2s[1..]);
    RoundReceives(w.s);
    steps, w := DoRound(u, steps, w, false);
  }

  lemma DeliveryAllowed(v: Sys)
    ensures Disciplined(true, v, Step(false, DoDeliver))
  {
  }

  /** The server answers the segment and the FIN. */
  lemma BothAnswered() returns (steps: seq<Step>, w: Sys)
    ensures Run(true, FinFillsWindow(), steps, w)
    ensures w.c == FinFillsWindow().c && w.ca == FinFillsWindow().ca && w.sa == NoApp
    ensures w.s2c == [Packet(1 + MSS, 1 + MSS, TH_ACK, []), Packet(2 + MSS, 2 + MSS, TH_ACK, [])]
  {
    hide Run, Zeros;
    var u := FinFillsWindow();
    RunNil(u);
    steps, w := ServerTakes(u, [], u);
    var s := w.s;
    assert s == u.s.(recvBase := 1 + MSS, appSendQ := [Zeros(MSS)]);
    steps, w := ServerTakes(u, steps, w);
  }
}
