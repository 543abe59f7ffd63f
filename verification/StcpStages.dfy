/** Every stage of control_loop, at either end, keeps the invariant. */
module StcpStages {
  import opened Bytes
  import opened StcpTypes
  import opened StcpSteps
  import opened StcpSystem
  import opened StcpChannel
  import opened StcpLink
  import opened StcpInvariant

  function Stage(client: bool): Step { Step(client, DoStage) }

  /** Stages that only move the control location. */
  predicate Idle(e: Endpoint) {
    match e.pc
    case Wait => true
    case AppStage(ev) => !ev.app
    case NetStage(ev) => !ev.net
    case CloseStage(ev) => !ev.close
    case _ => false
  }

  /** A stage at one end replaces the endpoint and appends what it sent. */
  lemma StageIs(v: Sys, client: bool)
    requires CanStep(v, Stage(client))
    ensures var x := EndOf(v, client);
            && StageEnabled(x.e)
            && After(v, Stage(client)) == Put(v, client, Outcome(x.(e := StageStep(x.e).e), StageStep(x.e).sent))
  {
    AfterIs(v, Stage(client));
  }

  /** An idle stage sends nothing, keeps the queues and neither loses nor invents a close request. */
  lemma IdleEffect(x: End)
    requires InLoop(x.e) && StageEnabled(x.e) && Idle(x.e) && EventsHold(x.e)
    ensures var f := StageStep(x.e);
            && f.sent == [] && f.e.netQ == x.e.netQ
            && SameView(x.e, f.e)
            && SideOf(f.e, x.a) == SideOf(x.e, x.a)
            && EventsHold(f.e) && InLoop(f.e)
  {
  }

  lemma IdleKeepsCore(nonEmpty: bool, v: Sys, client: bool)
    requires Core(nonEmpty, v) && CanStep(v, Stage(client))
    requires Idle(EndOf(v, client).e)
    ensures Core(nonEmpty, After(v, Stage(client)))
  {
    var x := EndOf(v, client);
    StageIs(v, client);
    CoreFrom(nonEmpty, v, client);
    IdleEffect(x);
    hide Core;
    hide After;
    hide StageStep;
    FrameKeepsCore(nonEmpty, v, client, Outcome(x.(e := StageStep(x.e).e), StageStep(x.e).sent));
  }

  // ----- assembling a stage that does something ---------------------------------------------------

  /** A stage computes `f` on some endpoint and then only moves control; `taken` says whether it
      consumed the first packet. */
  lemma StageKeepsCoreBy(nonEmpty: bool, v: Sys, client: bool, e: Endpoint, taken: bool)
    requires Core(nonEmpty, v) && CanStep(v, Stage(client))
    requires var x := EndOf(v, client); var f := StageStep(x.e);
             var ix := if taken && Towards(v, client) != [] then Towards(v, client)[1..] else Towards(v, client);
             && SameView(e, f.e) && Sound(f.e, client)
             && (if taken then x.e.netQ != [] && f.e.netQ == x.e.netQ[1..] else f.e.netQ == x.e.netQ)
             && LinkFrom(nonEmpty, client, v, e, x.a, ix, Towards(v, !client) + f.sent)
             && PhaseFrom(client, v, SideOf(f.e, x.a), ix, Towards(v, !client) + f.sent)
    ensures Core(nonEmpty, After(v, Stage(client)))
  {
    var x := EndOf(v, client);
    StageIs(v, client);
    hide StageStep;
    hide After;
    var f := StageStep(x.e);
    if taken { RecvKeepsInbound(x.e.netQ, x.wire); }
    var ix := Inbound(f.e.netQ, x.wire);
    assert ix == if taken then Towards(v, client)[1..] else Towards(v, client);
    hide Core;
    hide Link;
    hide PhaseFrom;
    hide SideOf;
    hide SameView;
    hide Sound;
    if client {
      LinkFrame(nonEmpty, e, f.e, x.a, v.s, v.sa, ix, ToServer(v) + f.sent);
    } else {
      LinkFrame(nonEmpty, e, f.e, x.a, v.c, v.ca, ix, ToClient(v) + f.sent);
    }
    CoreAfter(nonEmpty, v, client, Outcome(x.(e := f.e), f.sent));
  }

  // ----- APP_DATA ----------------------------------------------------------------------------

  lemma AppStageEffect(e: Endpoint, a: App, client: bool)
    requires StageEnabled(e) && Sound(e, client) && e.pc.AppStage? && e.pc.ev.app && !Pending(e)
    requires Windowed(e)
    ensures var f := SendData(e); var g := StageStep(e);
            && g.sent == f.sent && g.e.netQ == e.netQ && SameView(f.e, g.e) && Sound(g.e, client)
            && (forall p <- g.sent :: p.flags == TH_DATA)
            && SideOf(g.e, a) == SideOf(e, a).(drained := g.e.appRecvQ == [], next := g.e.next)
  {
    SendDataKeepsWindow(e);
    hide SendData;
  }

  lemma WindowedOf(nonEmpty: bool, v: Sys)
    requires Core(nonEmpty, v)
    ensures Windowed(v.c) && Windowed(v.s)
  {
    hide Windowed;
    hide Phase;
  }

  /** Data can only be waiting before the client's myclose. */
  lemma AppDataMeansOpen(nonEmpty: bool, v: Sys, client: bool)
    requires Core(nonEmpty, v) && EndOf(v, client).e.appRecvQ != []
    ensures PhaseOpen(SideOf(v.c, v.ca), SideOf(v.s, v.sa), ToClient(v), ToServer(v))
    ensures !Pending(v.c) && !Pending(v.s)
    ensures !FinSent(v.c) && !FinSent(v.s) && !FinReceived(v.c) && !FinReceived(v.s)
  {
    hide Link;
  }

  lemma OpenSend(client: bool, v: Sys, x: Side, ix: seq<Packet>, iy: seq<Packet>, sent: seq<Packet>)
    requires PhaseOpen(SideOf(v.c, v.ca), SideOf(v.s, v.sa), Towards(v, true), Towards(v, false))
    requires ix == Towards(v, client) || (Towards(v, client) != [] && ix == Towards(v, client)[1..])
    requires iy == Towards(v, !client)
    requires var e := EndOf(v, client); x == SideOf(e.e, e.a).(drained := x.drained, next := x.next, sendBase := x.sendBase)
    requires NoFin(sent)
    ensures PhaseFrom(client, v, x, ix, iy + sent)
  {
    assert NoFin(iy + sent) && NoFin(ix);
    if client {
      assert PhaseOpen(x, SideOf(v.s, v.sa), ix, iy + sent);
    } else {
      assert PhaseOpen(SideOf(v.c, v.ca), x, iy + sent, ix);
    }
  }

  lemma AppStageKeepsCore(nonEmpty: bool, v: Sys, client: bool)
    requires Core(nonEmpty, v) && CanStep(v, Stage(client))
    requires var e := EndOf(v, client).e; e.pc.AppStage? && e.pc.ev.app
    ensures Core(nonEmpty, After(v, Stage(client)))
  {
    var x := EndOf(v, client);
    StageIs(v, client);
    CoreFrom(nonEmpty, v, client);
    AppDataMeansOpen(nonEmpty, v, client);
    WindowedOf(nonEmpty, v);
    AppStageEffect(x.e, x.a, client);
    hide Core;
    hide Link;
    hide SendData;
    hide StageStep;
    hide Sound;
    hide SameView;
    hide PhaseOpen;
    var f := SendData(x.e);
    if client {
      SendDataKeepsLink(nonEmpty, x.e, x.a, v.s, v.sa, ToClient(v), ToServer(v));
    } else {
      SendDataKeepsLink(nonEmpty, x.e, x.a, v.c, v.ca, ToServer(v), ToClient(v));
    }
    OpenSend(client, v, SideOf(StageStep(x.e).e, x.a), Towards(v, client), Towards(v, !client), f.sent);
    hide SideOf;
    hide PhaseFrom;
    StageKeepsCoreBy(nonEmpty, v, client, f.e, false);
  }

  // ----- NETWORK_DATA ------------------------------------------------------------------------

  predicate ReceivesAtStage(e: Endpoint) {
    e.pc.NetStage? && e.pc.ev.net && e.netQ != [] && !JumpsToClose(e)
  }

  lemma RecvAckFrame(x: Endpoint, p: Packet)
    ensures var e := RecvAck(x, p);
            e == x.(sendBase := e.sendBase, cwnd := e.cwnd, swnd := e.swnd, rem := e.rem, buffer := e.buffer, fault := e.fault)
  {
  }

  /** The queue of packets and the place in the loop play no part in an acknowledgement. */
  lemma RecvAckAnywhere(x: Endpoint, p: Packet, netQ: seq<Packet>, pc: Pc)
    ensures RecvAck(x.(netQ := netQ, pc := pc), p) == RecvAck(x, p).(netQ := netQ, pc := pc)
  {
    hide Wrap64, GrowCwnd, Zeros, Remaining, Min;
    var ackSize, swnd := Wrap64(p.ack - x.sendBase), Min(GrowCwnd(x.cwnd), x.recvWin);
    if ackSize > x.swnd || x.swnd > |x.buffer| || x.swnd - ackSize > swnd {
      assert RecvAck(x, p) == x.(fault := true);
    } else {
      var e := RecvAck(x, p);
      assert e == x.(sendBase := e.sendBase, cwnd := e.cwnd, swnd := e.swnd, rem := e.rem, buffer := e.buffer);
    }
  }

  /** A packet that is not a FIN changes numbers and queues but no state, and is answered with ACKs only. */
  lemma RecvPacketEffect(x: Endpoint, a: App, client: bool)
    requires StageEnabled(x) && Sound(x, client) && ReceivesAtStage(x) && x.netQ[0].flags != TH_FIN
    ensures var f := RecvPacket(x); var g := StageStep(x);
            && g.sent == f.sent && g.e.netQ == x.netQ[1..] && SameView(f.e, g.e) && Sound(g.e, client)
            && SideOf(g.e, a) == SideOf(x, a).(sendBase := g.e.sendBase)
            && (forall p <- f.sent :: p.flags == TH_ACK)
            && (x.netQ[0].flags == TH_ACK ==> f.sent == [])
  {
    RecvAckFrame(x.(netQ := x.netQ[1..]), x.netQ[0]);
    hide RecvAck;
  }

  lemma RecvPacketKeepsLink(nonEmpty: bool, x: Endpoint, xa: App, y: Endpoint, ya: App, ix: seq<Packet>, iy: seq<Packet>)
    requires Link(nonEmpty, x, xa, y, ya, ix, iy)
    requires x.netQ != [] && ix != [] && ix[0] == x.netQ[0] && ix[0].flags != TH_FIN
    requires !FinSent(x) && !FinReceived(x) && !FinReceived(y)
    ensures var f := RecvPacket(x); Link(nonEmpty, f.e, xa, y, ya, ix[1..], iy + f.sent)
  {
    var x1 := x.(netQ := x.netQ[1..]);
    assert SameView(x, x1);
    assert !FinSent(x1) && !FinReceived(x1);
    hide Link;
    hide RecvAck;
    hide RecvData;
    hide SameView;
    hide FinSent;
    hide FinReceived;
    LinkFrame(nonEmpty, x, x1, xa, y, ya, ix, iy);
    if ix[0].flags == TH_ACK {
      RecvAckKeepsLink(nonEmpty, x1, xa, y, ya, ix, iy);
      assert iy + [] == iy;
    } else {
      RecvDataKeepsLink(nonEmpty, x1, xa, y, ya, ix, iy);
    }
  }

  /** The client takes a non-FIN packet in the receive branch only before anyone closes. */
  lemma ClientRecvIsOpen(nonEmpty: bool, v: Sys)
    requires Core(nonEmpty, v) && v.c.netQ != [] && !JumpsToClose(v.c) && v.c.netQ[0].flags != TH_FIN
    ensures PhaseOpen(SideOf(v.c, v.ca), SideOf(v.s, v.sa), ToClient(v), ToServer(v))
    ensures !FinSent(v.c) && !FinReceived(v.c) && !FinReceived(v.s)
  {
    RecvKeepsInbound(v.c.netQ, v.s2c);
    hide Link;
  }

  lemma ClientRecvKeepsCore(nonEmpty: bool, v: Sys)
    requires Core(nonEmpty, v) && CanStep(v, Stage(true)) && ReceivesAtStage(v.c)
    requires v.c.netQ[0].flags != TH_FIN
    ensures Core(nonEmpty, After(v, Stage(true)))
  {
    StageIs(v, true);
    CoreFrom(nonEmpty, v, true);
    ClientRecvIsOpen(nonEmpty, v);
    RecvPacketEffect(v.c, v.ca, true);
    RecvKeepsInbound(v.c.netQ, v.s2c);
    hide Core;
    hide Link;
    hide RecvPacket;
    hide StageStep;
    hide Sound;
    hide SameView;
    hide PhaseOpen;
    hide Phase;
    var f := RecvPacket(v.c);
    RecvPacketKeepsLink(nonEmpty, v.c, v.ca, v.s, v.sa, ToClient(v), ToServer(v));
    OpenSend(true, v, SideOf(StageStep(v.c).e, v.ca), ToClient(v)[1..], ToServer(v), f.sent);
    hide SideOf;
    hide PhaseFrom;
    StageKeepsCoreBy(nonEmpty, v, true, f.e, true);
  }

  lemma ServerRecvPhase(c: Side, s: Side, s': Side, ic: seq<Packet>, is_: seq<Packet>, sent: seq<Packet>)
    requires Phase(c, s, ic, is_) && is_ != [] && is_[0].flags != TH_FIN && s.conn != LastAck
    requires s' == s.(sendBase := s'.sendBase)
    requires forall p <- sent :: p.flags == TH_ACK
    requires is_[0].flags == TH_ACK ==> sent == []
    ensures Phase(c, s', ic + sent, is_[1..])
    ensures s.conn == Established
  {
    if PhaseOpen(c, s, ic, is_) {
      assert PhaseOpen(c, s', ic + sent, is_[1..]);
    } else if PhaseClosing(c, s, ic, is_) {
      assert is_[0] in is_;
      assert PhaseClosing(c, s', ic + sent, is_[1..]);
    } else {
      assert PhaseFinInFlight(c, s, ic, is_);
      assert is_[0] in is_ && |is_| > 1;
      assert is_[1..][..|is_| - 2] == is_[..|is_| - 1][1..];
      assert PhaseFinInFlight(c, s', ic + sent, is_[1..]);
    }
  }

  lemma ServerRecvKeepsCore(nonEmpty: bool, v: Sys)
    requires Core(nonEmpty, v) && CanStep(v, Stage(false)) && ReceivesAtStage(v.s)
    requires v.s.netQ[0].flags != TH_FIN
    ensures Core(nonEmpty, After(v, Stage(false)))
  {
    StageIs(v, false);
    CoreFrom(nonEmpty, v, false);
    RecvPacketEffect(v.s, v.sa, false);
    RecvKeepsInbound(v.s.netQ, v.c2s);
    hide Core;
    hide Link;
    hide RecvPacket;
    hide StageStep;
    hide SameView;
    hide Phase;
    var f := RecvPacket(v.s);
    var s' := SideOf(StageStep(v.s).e, v.sa);
    ServerRecvPhase(SideOf(v.c, v.ca), SideOf(v.s, v.sa), s', ToClient(v), ToServer(v), f.sent);
    ServerEstablished(nonEmpty, v);
    hide Sound;
    RecvPacketKeepsLink(nonEmpty, v.s, v.sa, v.c, v.ca, ToServer(v), ToClient(v));
    hide SideOf;
    StageKeepsCoreBy(nonEmpty, v, false, f.e, true);
  }

  /** While the server is established the client has not seen a FIN, and the server has sent none. */
  lemma ServerEstablished(nonEmpty: bool, v: Sys)
    requires Core(nonEmpty, v) && v.s.conn == Established
    ensures !FinSent(v.s) && !FinReceived(v.s) && !FinReceived(v.c)
  {
    hide Link;
  }

  // ----- FIN -----------------------------------------------------------------------------------

  lemma FinStageEffect(x: Endpoint, a: App, client: bool)
    requires StageEnabled(x) && Sound(x, client) && ReceivesAtStage(x) && x.netQ[0].flags == TH_FIN
    requires !Pending(x) || !client
    ensures var f := RecvFin(x.(netQ := x.netQ[1..]), x.netQ[0]); var g := StageStep(x);
            && g.sent == f.sent && g.e.netQ == x.netQ[1..] && SameView(f.e, g.e) && Sound(g.e, client)
            && SideOf(g.e, a) == SideOf(x, a).(conn := if client then Closed else CloseWait)
            && f.e.conn == g.e.conn
  {
  }

  /** What the numbers say when a FIN is on its way and no data is. */
  lemma FinNumbers(nonEmpty: bool, x: Endpoint, xa: App, y: Endpoint, ya: App, ix: seq<Packet>, iy: seq<Packet>)
    requires Link(nonEmpty, x, xa, y, ya, ix, iy)
    requires FinSent(y) && !FinReceived(x) && NoData(ix)
    ensures x.recvBase == y.next - 1
  {
    NoDataNoPayload(nonEmpty, ix);
  }

  /** With no data towards y and no acknowledgement towards x, all of x's data is acknowledged. */
  lemma AllAcked(nonEmpty: bool, x: Endpoint, xa: App, y: Endpoint, ya: App, ix: seq<Packet>, iy: seq<Packet>)
    requires Link(nonEmpty, x, xa, y, ya, ix, iy)
    requires !FinSent(x) && !FinReceived(y) && NoData(iy)
    requires forall p <- ix :: p.flags != TH_ACK
    ensures x.sendBase == x.next
  {
    NoDataNoPayload(nonEmpty, iy);
    AckChainNone(nonEmpty, ix, x.sendBase, y.recvBase);
  }

  lemma FinIsLast(ch: seq<Packet>, n: int)
    requires EndsInFin(ch, n)
    ensures ch[0].flags == TH_FIN ==> |ch| == 1
  {
    if |ch| > 1 {
      assert ch[0] == ch[..|ch| - 1][0];
    }
  }

  /** Taking the FIN that is the only packet in flight. */
  lemma TakeFinKeepsLink(nonEmpty: bool, x: Endpoint, xa: App, y: Endpoint, ya: App, ix: seq<Packet>, iy: seq<Packet>)
    requires Link(nonEmpty, x, xa, y, ya, ix, iy)
    requires x.netQ != [] && ix == [x.netQ[0]] && IsFin(ix[0], y.next - 1) && NoData(ix)
    requires FinSent(y) && x.conn == if x.isClient then FinWait2 else Established
    ensures var f := RecvFin(x.(netQ := x.netQ[1..]), x.netQ[0]);
            && Link(nonEmpty, f.e, xa, y, ya, ix[1..], iy + f.sent)
            && f.sent == [Packet(y.next, y.next, TH_ACK, [])]
  {
    var x1 := x.(netQ := x.netQ[1..]);
    var f := RecvFin(x1, ix[0]);
    hide Link, SameView, NoData;
    FinKeepsView(x);
    hide RecvFin, FinSent, FinReceived;
    FinNumbers(nonEmpty, x, xa, y, ya, ix, iy);
    LinkFrame(nonEmpty, x, x1, xa, y, ya, ix, iy);
    RecvFinKeepsLink(nonEmpty, x1, xa, y, ya, ix, iy);
  }

  /** The server takes a FIN only as the last packet of a client that has closed. */
  lemma FinKeepsView(x: Endpoint)
    requires x.netQ != [] && x.conn == if x.isClient then FinWait2 else Established
    ensures var x1 := x.(netQ := x.netQ[1..]); var f := RecvFin(x1, x.netQ[0]);
            && SameView(x, x1) && FinSent(x1) == FinSent(x) && !FinReceived(x1) && !FinReceived(x)
            && FinReceived(f.e) && FinSent(f.e) == FinSent(x1)
  {
  }

  lemma ServerFinPhase(nonEmpty: bool, v: Sys)
    requires Core(nonEmpty, v) && v.s.netQ != [] && !JumpsToClose(v.s) && v.s.netQ[0].flags == TH_FIN
    ensures PhaseFinInFlight(SideOf(v.c, v.ca), SideOf(v.s, v.sa), ToClient(v), ToServer(v))
    ensures ToServer(v) == [v.s.netQ[0]] && NoData(ToServer(v))
    ensures !FinSent(v.s) && !FinReceived(v.s) && FinSent(v.c) && !FinReceived(v.c) && v.s.conn == Established && !v.s.isClient
    ensures IsFin(ToServer(v)[0], v.c.next - 1) && ToClient(v) == [] && forall p <- ToServer(v) :: p.flags != TH_ACK
  {
    RecvKeepsInbound(v.s.netQ, v.c2s);
    hide Link;
    var is_ := ToServer(v);
    assert is_[0] in is_;
    assert PhaseFinInFlight(SideOf(v.c, v.ca), SideOf(v.s, v.sa), ToClient(v), is_);
    FinIsLast(is_, v.c.next - 1);
  }

  lemma ServerFinKeepsCore(nonEmpty: bool, v: Sys)
    requires Core(nonEmpty, v) && CanStep(v, Stage(false)) && ReceivesAtStage(v.s)
    requires v.s.netQ[0].flags == TH_FIN
    ensures Core(nonEmpty, After(v, Stage(false)))
  {
    hide Core, Link, RecvFin, StageStep, SameView, Sound, SideOf, Phase, PhaseFinInFlight, ToServer, ToClient, IsFin, NoData, FinSent, FinReceived, After;
    StageIs(v, false);
    CoreFrom(nonEmpty, v, false);
    ServerFinPhase(nonEmpty, v);
    FinStageEffect(v.s, v.sa, false);
    var ic, is_ := ToClient(v), ToServer(v);
    var f := RecvFin(v.s.(netQ := v.s.netQ[1..]), v.s.netQ[0]);
    assert NoData(ic) by { hide *; NoDataInNothing(); }
    AllAcked(nonEmpty, v.s, v.sa, v.c, v.ca, is_, ic);
    TakeFinKeepsLink(nonEmpty, v.s, v.sa, v.c, v.ca, is_, ic);
    var g := StageStep(v.s);
    ServerFinAdvances(v, g.e, g.sent);
    StageKeepsCoreBy(nonEmpty, v, false, f.e, true);
  }

  lemma NoDataInNothing()
    ensures NoData([])
  {
  }

  lemma ServerFinAdvances(v: Sys, e: Endpoint, sent: seq<Packet>)
    requires PhaseFinInFlight(SideOf(v.c, v.ca), SideOf(v.s, v.sa), ToClient(v), ToServer(v)) && |ToServer(v)| == 1
    requires v.s.sendBase == v.s.next && sent == [Packet(v.c.next, v.c.next, TH_ACK, [])]
    requires SideOf(e, v.sa) == SideOf(v.s, v.sa).(conn := CloseWait)
    ensures PhaseFrom(false, v, SideOf(e, v.sa), ToServer(v)[1..], ToClient(v) + sent)
  {
    assert PhaseAwaitingAck(SideOf(v.c, v.ca), SideOf(e, v.sa), ToClient(v) + sent, ToServer(v)[1..]);
    hide ToServer, ToClient;
  }

  lemma ClientFinPhase(nonEmpty: bool, v: Sys)
    requires Core(nonEmpty, v) && v.c.netQ != [] && !JumpsToClose(v.c) && v.c.netQ[0].flags == TH_FIN
    ensures PhaseAwaitingFin(SideOf(v.c, v.ca), SideOf(v.s, v.sa), ToClient(v), ToServer(v))
    ensures ToClient(v) == [v.c.netQ[0]] && v.s.conn == LastAck && NoData(ToClient(v)) && ToServer(v) == []
    ensures FinSent(v.c) && !FinReceived(v.c) && FinSent(v.s) && !Pending(v.c) && v.c.conn == FinWait2 && v.c.isClient
    ensures IsFin(ToClient(v)[0], v.s.next - 1)
  {
    RecvKeepsInbound(v.c.netQ, v.s2c);
    hide Link;
    assert ToClient(v)[0] in ToClient(v);
    assert PhaseAwaitingFin(SideOf(v.c, v.ca), SideOf(v.s, v.sa), ToClient(v), ToServer(v));
  }

  lemma ClientFinKeepsCore(nonEmpty: bool, v: Sys)
    requires Core(nonEmpty, v) && CanStep(v, Stage(true)) && ReceivesAtStage(v.c)
    requires v.c.netQ[0].flags == TH_FIN
    ensures Core(nonEmpty, After(v, Stage(true)))
  {
    hide Core, Link, RecvFin, StageStep, SameView, Sound, SideOf, Phase, PhaseAwaitingFin, ToServer, ToClient, IsFin, NoData, FinSent, FinReceived, After, Pending;
    StageIs(v, true);
    CoreFrom(nonEmpty, v, true);
    ClientFinPhase(nonEmpty, v);
    FinStageEffect(v.c, v.ca, true);
    var ic, is_ := ToClient(v), ToServer(v);
    var f := RecvFin(v.c.(netQ := v.c.netQ[1..]), v.c.netQ[0]);
    TakeFinKeepsLink(nonEmpty, v.c, v.ca, v.s, v.sa, ic, is_);
    var g := StageStep(v.c);
    ClientFinAdvances(v, g.e, g.sent);
    StageKeepsCoreBy(nonEmpty, v, true, f.e, true);
  }

  lemma ClientFinAdvances(v: Sys, e: Endpoint, sent: seq<Packet>)
    requires PhaseAwaitingFin(SideOf(v.c, v.ca), SideOf(v.s, v.sa), ToClient(v), ToServer(v)) && |ToClient(v)| == 1
    requires v.s.conn == LastAck && sent == [Packet(v.s.next, v.s.next, TH_ACK, [])]
    requires SideOf(e, v.ca) == SideOf(v.c, v.ca).(conn := Closed)
    ensures PhaseFrom(true, v, SideOf(e, v.ca), ToClient(v)[1..], ToServer(v) + sent)
  {
    assert PhaseLastAck(SideOf(e, v.ca), SideOf(v.s, v.sa), ToClient(v)[1..], ToServer(v) + sent);
    hide ToServer, ToClient;
  }

  // ----- FIN_WAIT_1 and LAST_ACK -----------------------------------------------------------------

  /** An acknowledgement fits the buffer for a header. */
  lemma AckIsBare(nonEmpty: bool, v: Sys, client: bool)
    requires Core(nonEmpty, v)
    ensures var ch := Towards(v, client); ch != [] && ch[0].flags == TH_ACK ==> ch[0].payload == []
  {
    hide Phase, Sound, Numbered, Payload;
    assert AllShaped(nonEmpty, ToClient(v)) && AllShaped(nonEmpty, ToServer(v));
    var ch := Towards(v, client);
    if ch != [] {
      assert ch[0] in ch;
    }
    hide Link;
  }

  lemma SwallowEffect(x: Endpoint, a: App, client: bool)
    requires StageEnabled(x) && Sound(x, client) && x.pc.NetStage? && x.pc.ev.net && AwaitsLastAck(x)
    requires x.netQ[0].flags == TH_ACK && x.netQ[0].payload == [] && !Pending(x)
    ensures var g := StageStep(x); var conn := if client then FinWait2 else Closed;
            && g.sent == [] && g.e.netQ == x.netQ[1..] && SameView(x.(conn := conn), g.e) && Sound(g.e, client)
            && SideOf(g.e, a) == SideOf(x, a).(conn := conn)
  {
  }

  lemma ClientSwallowKeepsCore(nonEmpty: bool, v: Sys)
    requires Core(nonEmpty, v) && CanStep(v, Stage(true))
    requires v.c.pc.NetStage? && v.c.pc.ev.net && JumpsToClose(v.c)
    ensures Core(nonEmpty, After(v, Stage(true)))
  {
    StageIs(v, true);
    CoreFrom(nonEmpty, v, true);
    RecvKeepsInbound(v.c.netQ, v.s2c);
    var ic, is_ := ToClient(v), ToServer(v);
    hide Link;
    assert PhaseAwaitingAck(SideOf(v.c, v.ca), SideOf(v.s, v.sa), ic, is_);
    AckIsBare(nonEmpty, v, true);
    SwallowEffect(v.c, v.ca, true);
    hide StageStep;
    hide SameView;
    assert FinReceived(v.s);
    SwallowKeepsLink(nonEmpty, v.c, v.ca, v.s, v.sa, ic, is_, FinWait2);
    assert is_ + [] == is_;
    hide Core;
    assert PhaseAwaitingFin(SideOf(StageStep(v.c).e, v.ca), SideOf(v.s, v.sa), ic[1..], is_);
    hide Sound;
    hide SideOf;
    StageKeepsCoreBy(nonEmpty, v, true, v.c.(conn := FinWait2), true);
  }

  lemma ServerSwallowKeepsCore(nonEmpty: bool, v: Sys)
    requires Core(nonEmpty, v) && CanStep(v, Stage(false))
    requires v.s.pc.NetStage? && v.s.pc.ev.net && JumpsToClose(v.s)
    ensures Core(nonEmpty, After(v, Stage(false)))
  {
    StageIs(v, false);
    CoreFrom(nonEmpty, v, false);
    RecvKeepsInbound(v.s.netQ, v.c2s);
    var ic, is_ := ToClient(v), ToServer(v);
    hide Link;
    assert PhaseLastAck(SideOf(v.c, v.ca), SideOf(v.s, v.sa), ic, is_);
    AckIsBare(nonEmpty, v, false);
    SwallowEffect(v.s, v.sa, false);
    hide StageStep;
    hide SameView;
    assert FinReceived(v.c);
    SwallowKeepsLink(nonEmpty, v.s, v.sa, v.c, v.ca, is_, ic, Closed);
    assert ic + [] == ic;
    hide Core;
    assert PhaseDone(SideOf(v.c, v.ca), SideOf(StageStep(v.s).e, v.sa), ic, is_[1..]);
    hide Sound;
    hide SideOf;
    StageKeepsCoreBy(nonEmpty, v, false, v.s.(conn := Closed), true);
  }

  // ----- the close request -----------------------------------------------------------------------

  lemma CloseStageEffect(x: Endpoint, a: App, client: bool)
    requires StageEnabled(x) && Sound(x, client) && x.pc.CloseStage? && x.pc.ev.close
    requires x.conn == if client then Established else CloseWait
    requires Windowed(x) && x.next + 1 < W32 && x.sendBase == x.next
    ensures var conn := if client then FinWait1 else LastAck; var f := SendFin(x, conn); var g := StageStep(x);
            && g.sent == f.sent && g.e.netQ == x.netQ && SameView(f.e, g.e) && Sound(g.e, client)
            && SideOf(g.e, a) == SideOf(x, a).(conn := conn, pending := false, next := x.next + 1)
  {
    var conn := if client then FinWait1 else LastAck;
    SendFinEffect(x, conn);
    hide SendFin;
  }

  lemma NextIsSmall(nonEmpty: bool, x: Endpoint, xa: App, y: Endpoint, ya: App, ix: seq<Packet>, iy: seq<Packet>)
    requires Link(nonEmpty, x, xa, y, ya, ix, iy) && !FinSent(x)
    ensures x.next + 1 < W32
  {
    Unsent(nonEmpty, x, xa, y, ya, iy);
  }

  lemma ClientCloseKeepsCore(nonEmpty: bool, v: Sys)
    requires Core(nonEmpty, v) && CanStep(v, Stage(true))
    requires v.c.pc.CloseStage? && v.c.pc.ev.close
    ensures Core(nonEmpty, After(v, Stage(true)))
  {
    StageIs(v, true);
    CoreFrom(nonEmpty, v, true);
    WindowedOf(nonEmpty, v);
    var ic, is_ := ToClient(v), ToServer(v);
    hide Link;
    assert PhaseClosing(SideOf(v.c, v.ca), SideOf(v.s, v.sa), ic, is_);
    assert !FinSent(v.c) && !FinReceived(v.s);
    NextIsSmall(nonEmpty, v.c, v.ca, v.s, v.sa, ic, is_);
    CloseStageEffect(v.c, v.ca, true);
    hide StageStep;
    hide SameView;
    SendFinKeepsLink(nonEmpty, v.c, v.ca, v.s, v.sa, ic, is_, FinWait1);
    hide SendFin;
    hide Core;
    var g := StageStep(v.c);
    FinEndsChannel(is_, g.sent[0]);
    assert PhaseFinInFlight(SideOf(g.e, v.ca), SideOf(v.s, v.sa), ic, is_ + g.sent);
    hide Sound;
    hide SideOf;
    StageKeepsCoreBy(nonEmpty, v, true, SendFin(v.c, FinWait1).e, false);
  }

  lemma FinEndsChannel(ch: seq<Packet>, p: Packet)
    requires NoFin(ch) && NoData(ch) && p.flags == TH_FIN
    ensures EndsInFin(ch + [p], p.seqno)
  {
    assert (ch + [p])[..|ch|] == ch;
  }

  lemma ServerCloseKeepsCore(nonEmpty: bool, v: Sys)
    requires Core(nonEmpty, v) && CanStep(v, Stage(false))
    requires v.s.pc.CloseStage? && v.s.pc.ev.close
    ensures Core(nonEmpty, After(v, Stage(false)))
  {
    StageIs(v, false);
    CoreFrom(nonEmpty, v, false);
    WindowedOf(nonEmpty, v);
    var ic, is_ := ToClient(v), ToServer(v);
    hide Link;
    assert v.s.conn == CloseWait && is_ == [] && v.s.sendBase == v.s.next;
    assert !FinSent(v.s) && !FinReceived(v.c);
    NextIsSmall(nonEmpty, v.s, v.sa, v.c, v.ca, is_, ic);
    CloseStageEffect(v.s, v.sa, false);
    hide StageStep;
    hide SameView;
    SendFinKeepsLink(nonEmpty, v.s, v.sa, v.c, v.ca, is_, ic, LastAck);
    hide SendFin;
    hide Core;
    var g := StageStep(v.s);
    ServerFinSentPhase(SideOf(v.c, v.ca), SideOf(v.s, v.sa), SideOf(g.e, v.sa), ic, is_, g.sent);
    hide Sound;
    hide SideOf;
    StageKeepsCoreBy(nonEmpty, v, false, SendFin(v.s, LastAck).e, false);
  }

  lemma ServerFinSentPhase(c: Side, s: Side, s': Side, ic: seq<Packet>, is_: seq<Packet>, sent: seq<Packet>)
    requires Phase(c, s, ic, is_) && s.conn == CloseWait && s.pending
    requires s' == s.(conn := LastAck, pending := false, next := s.next + 1)
    requires |sent| == 1 && IsFin(sent[0], s.next)
    ensures Phase(c, s', ic + sent, is_)
  {
    if PhaseAwaitingAck(c, s, ic, is_) {
      assert (ic + sent)[1..] == sent;
      assert PhaseAwaitingAck(c, s', ic + sent, is_);
    } else {
      assert PhaseAwaitingFin(c, s', ic + sent, is_);
    }
  }

  // ----- all stages --------------------------------------------------------------------------------

  lemma StageKeepsCore(nonEmpty: bool, v: Sys, client: bool)
    requires Core(nonEmpty, v) && CanStep(v, Stage(client))
    ensures Core(nonEmpty, After(v, Stage(client)))
  {
    hide Core;
    hide After;
    var e := EndOf(v, client).e;
    if Idle(e) {
      IdleKeepsCore(nonEmpty, v, client);
    } else if e.pc.AppStage? {
      AppStageKeepsCore(nonEmpty, v, client);
    } else if e.pc.CloseStage? {
      if client { ClientCloseKeepsCore(nonEmpty, v); } else { ServerCloseKeepsCore(nonEmpty, v); }
    } else if JumpsToClose(e) {
      if client { ClientSwallowKeepsCore(nonEmpty, v); } else { ServerSwallowKeepsCore(nonEmpty, v); }
    } else if e.netQ[0].flags == TH_FIN {
      if client { ClientFinKeepsCore(nonEmpty, v); } else { ServerFinKeepsCore(nonEmpty, v); }
    } else {
      if client { ClientRecvKeepsCore(nonEmpty, v); } else { ServerRecvKeepsCore(nonEmpty, v); }
    }
  }

  lemma StepKeepsCore(nonEmpty: bool, v: Sys, step: Step)
    requires Core(nonEmpty, v) && CanStep(v, step) && Disciplined(nonEmpty, v, step)
    ensures Core(nonEmpty, After(v, step))
  {
    CoreFrom(nonEmpty, v, step.client);
    match step.action {
      case DoDeliver => hide Core; hide After; DeliverKeepsCore(nonEmpty, v, step.client);
      case DoStage => hide Core; hide After; assert step == Stage(step.client); StageKeepsCore(nonEmpty, v, step.client);
      case DoWrite(data) => hide Core; hide After; WriteKeepsCore(nonEmpty, v, step.client, data);
      case DoRead(max) => hide Core; hide After; ReadKeepsCore(nonEmpty, v, step.client, max);
      case DoClose => hide Core; hide After; CloseKeepsCore(nonEmpty, v, step.client);
      case DoBoot => assert false;
      case DoShake => assert false;
    }
  }
}
