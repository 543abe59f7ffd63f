/** What every disciplined run of STCP guarantees, stated on the states the run reaches. */
module StcpTheorems {
  import opened Bytes
  import opened PacketQueueSpec
  import opened StcpTypes
  import opened StcpSteps
  import opened StcpSystem
  import opened StcpChannel
  import opened StcpLink
  import opened StcpInvariant
  import opened StcpHandshake

  /** `v` is reached by some disciplined run. */
  ghost predicate Reached(nonEmpty: bool, steps: seq<Step>, v: Sys) {
    Run(nonEmpty, Init(), steps, v)
  }

  lemma ReachedInv(nonEmpty: bool, steps: seq<Step>, v: Sys)
    requires Reached(nonEmpty, steps, v)
    ensures Inv(nonEmpty, v)
  {
    hide Inv;
    InitInv(nonEmpty);
    RunKeepsInv(nonEmpty, Init(), steps, v);
  }

  // ----- end-to-end stream safety -----------------------------------------------------------------

  /** The handshake packets carry no bytes, so the payload in flight is that of the stripped system. */
  lemma StripKeepsBytes(nonEmpty: bool, v: Sys)
    requires Inv(nonEmpty, v)
    ensures var u := Strip(v);
            && Payload(ToServer(u)) == Payload(ToServer(v)) && Payload(ToClient(u)) == Payload(ToClient(v))
            && u.c.appRecvQ == v.c.appRecvQ && u.c.appSendQ == v.c.appSendQ
            && u.s.appRecvQ == v.s.appRecvQ && u.s.appSendQ == v.s.appSendQ
            && u.ca == v.ca && u.sa == v.sa
  {
    hide Core;
    hide Zeros;
    if InLoop(v.c) && InLoop(v.s) {
      assert Strip(v) == v;
    } else if Late(v.c, v.s, ToServer(v)) {
      var u := Strip(v);
      assert ToServer(u) == ToServer(v)[1..];
      assert Payload(ToServer(v)) == [] + Payload(ToServer(v)[1..]);
    } else {
      EarlyStrip(v);
      assert Payload([Syn]) == [] + Payload([]);
      assert Payload([SynAck]) == [] + Payload([]);
      assert ToServer(Strip(v)) == [] && ToClient(Strip(v)) == [];
    }
  }

  /** Bytes given to one application's mywrite: read by the peer ++ waiting for its myread ++ in
      flight ++ waiting to be sent. */
  ghost predicate Conserved(v: Sys) {
    && v.ca.written == v.sa.read + Flat(v.s.appSendQ) + Payload(ToServer(v)) + Flat(v.c.appRecvQ)
    && v.sa.written == v.ca.read + Flat(v.c.appSendQ) + Payload(ToClient(v)) + Flat(v.s.appRecvQ)
  }

  /** In every reachable state, in both directions at once, no byte is lost, duplicated or
      reordered; what an application has read is a prefix of what its peer wrote. */
  lemma StreamSafety(nonEmpty: bool, steps: seq<Step>, v: Sys)
    requires Reached(nonEmpty, steps, v)
    ensures Conserved(v)
    ensures v.sa.read <= v.ca.written && v.ca.read <= v.sa.written
  {
    ReachedInv(nonEmpty, steps, v);
    StripKeepsBytes(nonEmpty, v);
    hide Phase;
    hide Strip;
    hide Inbound;
    hide Numbered;
    hide AckChain;
    assert Conserved(v);
  }

  /** myread returns 0 only after every byte the peer ever wrote has been read. */
  lemma EofMeansEverythingRead(nonEmpty: bool, steps: seq<Step>, v: Sys)
    requires Reached(nonEmpty, steps, v)
    ensures v.sa.eof ==> v.sa.read == v.ca.written
    ensures v.ca.eof ==> v.ca.read == v.sa.written
  {
    StreamSafety(nonEmpty, steps, v);
    ReachedInv(nonEmpty, steps, v);
    StripKeepsBytes(nonEmpty, v);
    var u := Strip(v);
    EofMarkedOf(nonEmpty, u);
    LeavingIsEmpty(nonEmpty, u);
    hide Inv;
    hide Inbound;
    assert v.sa.eof ==> FinReceived(u.s) && Flat(v.s.appSendQ) == [];
    assert v.ca.eof ==> FinReceived(u.c) && Flat(v.c.appSendQ) == [];
  }

  /** Once an end has the peer's FIN no byte of the peer is outstanding. */
  lemma LeavingIsEmpty(nonEmpty: bool, u: Sys)
    requires Core(nonEmpty, u)
    ensures FinReceived(u.s) ==> Payload(ToServer(u)) == [] && Flat(u.c.appRecvQ) == []
    ensures FinReceived(u.c) ==> Payload(ToClient(u)) == [] && Flat(u.s.appRecvQ) == []
    ensures u.c.done ==> FinReceived(u.c) && FinReceived(u.s)
    ensures u.s.done ==> u.c.done
  {
    hide Link;
    var ic, is_ := ToClient(u), ToServer(u);
    assert AllShaped(nonEmpty, ic) && AllShaped(nonEmpty, is_) by { ShapedOf(nonEmpty, u); }
    if FinReceived(u.s) {
      assert NoData(is_);
      NoDataNoPayload(nonEmpty, is_);
    }
  }

  lemma ShapedOf(nonEmpty: bool, u: Sys)
    requires Core(nonEmpty, u)
    ensures AllShaped(nonEmpty, ToClient(u)) && AllShaped(nonEmpty, ToServer(u))
  {
    hide Phase;
  }

  // ----- window ---------------------------------------------------------------------------------

  /** The numbers of one direction: `x` sends data in `iy`, acknowledgements come back in `ix`. */
  ghost predicate Accounted(nonEmpty: bool, x: Endpoint, y: Endpoint, ix: seq<Packet>, iy: seq<Packet>) {
    && (forall i | 0 <= i < |ix| && ix[i].flags == TH_ACK :: x.sendBase <= ix[i].ack <= y.recvBase)
    && (forall i, j | 0 <= i < j < |ix| && ix[i].flags == TH_ACK && ix[j].flags == TH_ACK :: ix[i].ack <= ix[j].ack)
    && x.sendBase <= y.recvBase <= x.next <= x.sendBase + x.swnd
    && x.rem == x.swnd - (x.next - x.sendBase)
    && (forall p <- iy | IsData(p) :: |p.payload| <= MSS && (nonEmpty ==> 1 <= |p.payload|))
    && Numbered(iy, y.recvBase)
  }

  /** SendBase <= every ACK in flight <= the peer's RecvBase <= next_seqnum <= SendBase + SWND. */
  lemma WindowAccounting(nonEmpty: bool, steps: seq<Step>, v: Sys)
    requires Reached(nonEmpty, steps, v)
    ensures var u := Strip(v);
            && Accounted(nonEmpty, u.c, u.s, ToClient(u), ToServer(u))
            && Accounted(nonEmpty, u.s, u.c, ToServer(u), ToClient(u))
  {
    ReachedInv(nonEmpty, steps, v);
    var u := Strip(v);
    hide Strip;
    hide Inv;
    var ic, is_ := ToClient(u), ToServer(u);
    PhaseAcks(SideOf(u.c, u.ca), SideOf(u.s, u.sa), ic, is_);
    assert FinReceived(u.s) <==> u.s.conn != Established by { hide Link; }
    assert FinReceived(u.s) ==> FinSent(u.c) by { hide Link; }
    assert FinReceived(u.c) ==> FinSent(u.s) by { hide Link; }
    hide Phase;
    hide Direction;
    DirectionAccounted(nonEmpty, u.c, u.ca, u.s, u.sa, ic, is_);
    DirectionAccounted(nonEmpty, u.s, u.sa, u.c, u.ca, is_, ic);
  }

  /** After x's FIN has arrived at y, the only acknowledgement towards x is the one of that FIN. */
  predicate OnlyFinAck(x: Side, received: bool, ix: seq<Packet>, iy: seq<Packet>) {
    received ==>
      && x.conn != Established && x.conn != CloseWait && NoData(iy)
      && (forall i | 0 <= i < |ix| && ix[i].flags == TH_ACK :: i == 0 && ix[i].ack == x.next)
      && x.sendBase == x.next - 1
  }

  lemma PhaseAcks(c: Side, s: Side, ic: seq<Packet>, is_: seq<Packet>)
    requires Phase(c, s, ic, is_)
    ensures OnlyFinAck(c, s.conn != Established, ic, is_) && OnlyFinAck(s, c.conn == Closed, is_, ic)
  {
    if PhaseAwaitingAck(c, s, ic, is_) && |ic| > 1 {
      assert ic[1..][0] == ic[1];
    }
  }

  lemma DirectionAccounted(nonEmpty: bool, x: Endpoint, xa: App, y: Endpoint, ya: App, ix: seq<Packet>, iy: seq<Packet>)
    requires Direction(nonEmpty, x, xa, y, ya, ix, iy) && OnlyFinAck(SideOf(x, xa), FinReceived(y), ix, iy)
    requires FinReceived(y) ==> FinSent(x)
    ensures Accounted(nonEmpty, x, y, ix, iy)
  {
    if FinReceived(y) {
      NoDataNoPayload(nonEmpty, iy);
      NumberedQuiet(iy, y.recvBase);
    } else {
      AckChainBounds(nonEmpty, ix, x.sendBase, y.recvBase);
    }
  }

  lemma {:induction false} NumberedQuiet(ch: seq<Packet>, n: nat)
    requires NoData(ch)
    ensures Numbered(ch, n)
  {
    if ch != [] {
      assert ch[0] in ch;
      NumberedQuiet(ch[1..], n + |ch[0].payload|);
    }
  }

  /** No copy of the control loop ever leaves its buffer, the window buffer is exactly SWND long, and
      it starts with the bytes of the stream that are sent and not yet acknowledged. */
  lemma SendBufferHolds(nonEmpty: bool, steps: seq<Step>, v: Sys)
    requires Reached(nonEmpty, steps, v)
    ensures var u := Strip(v);
            && !u.c.fault && |u.c.buffer| == u.c.swnd && Buffered(u.c, u.ca)
            && !u.s.fault && |u.s.buffer| == u.s.swnd && Buffered(u.s, u.sa)
            && MSS <= u.c.swnd <= RECV_WINDOW_SIZE && MSS <= u.s.swnd <= RECV_WINDOW_SIZE
  {
    ReachedInv(nonEmpty, steps, v);
    hide Strip;
    hide Phase;
    hide Stream;
    hide Acks;
  }

  /** A full window is never stuck: a segment or an acknowledgement that will reopen it is in flight. */
  lemma FullWindowReopens(nonEmpty: bool, steps: seq<Step>, v: Sys)
    requires Reached(nonEmpty, steps, v)
    ensures var u := Strip(v);
            && (u.c.rem == 0 ==> (exists p <- ToServer(u) :: IsData(p)) || (exists p <- ToClient(u) :: p.flags == TH_ACK))
            && (u.s.rem == 0 ==> (exists p <- ToClient(u) :: IsData(p)) || (exists p <- ToServer(u) :: p.flags == TH_ACK))
  {
    ReachedInv(nonEmpty, steps, v);
    var u := Strip(v);
    hide Strip;
    hide Inv;
    PhaseAcks(SideOf(u.c, u.ca), SideOf(u.s, u.sa), ToClient(u), ToServer(u));
    assert FinReceived(u.s) <==> u.s.conn != Established by { hide Link; }
    hide Phase;
    hide Direction;
    FullMeansInFlight(nonEmpty, u.c, u.ca, u.s, u.sa, ToClient(u), ToServer(u));
    FullMeansInFlight(nonEmpty, u.s, u.sa, u.c, u.ca, ToServer(u), ToClient(u));
  }

  lemma FullMeansInFlight(nonEmpty: bool, x: Endpoint, xa: App, y: Endpoint, ya: App, ix: seq<Packet>, iy: seq<Packet>)
    requires Direction(nonEmpty, x, xa, y, ya, ix, iy) && OnlyFinAck(SideOf(x, xa), FinReceived(y), ix, iy)
    ensures x.rem == 0 ==> (exists p <- iy :: IsData(p)) || (exists p <- ix :: p.flags == TH_ACK)
  {
    if x.rem == 0 && !FinReceived(y) && NoData(iy) && forall p <- ix :: p.flags != TH_ACK {
      NoDataNoPayload(nonEmpty, iy);
      AckChainNone(nonEmpty, ix, x.sendBase, y.recvBase);
    }
  }

  // ----- handshake -------------------------------------------------------------------------------

  /** Each round of the handshake loop takes exactly the packet it waits for, never a data packet. */
  lemma HandshakeTakesItsOwn(nonEmpty: bool, steps: seq<Step>, v: Sys, client: bool)
    requires Reached(nonEmpty, steps, v) && CanStep(v, Step(client, DoShake))
    ensures var e := EndOf(v, client).e;
            if client then e.conn == SynSent && e.netQ[0] == SynAck
            else if e.conn == Listen then e.netQ[0] == Syn
            else e.conn == SynRcvd && e.netQ[0] == LastOfThree
  {
    ReachedInv(nonEmpty, steps, v);
    HeadAtHandshake(v, client);
    hide Inv;
  }

  lemma HeadAtHandshake(v: Sys, client: bool)
    requires Handshake(v) && CanStep(v, Step(client, DoShake))
    ensures var e := EndOf(v, client).e;
            if client then e.conn == SynSent && e.netQ[0] == SynAck
            else if e.conn == Listen then e.netQ[0] == Syn
            else e.conn == SynRcvd && e.netQ[0] == LastOfThree
  {
    RecvKeepsInboundAt(v, client);
  }

  lemma RecvKeepsInboundAt(v: Sys, client: bool)
    requires EndOf(v, client).e.netQ != []
    ensures Towards(v, client) != [] && Towards(v, client)[0] == EndOf(v, client).e.netQ[0]
  {
  }

  /** Both ends enter control_loop agreeing on the numbers: the one that enters starts at the number
      the data in flight towards it starts with, and that data reaches exactly the peer's next_seqnum. */
  lemma HandshakeAgrees(nonEmpty: bool, steps: seq<Step>, v: Sys, client: bool)
    requires Reached(nonEmpty, steps, v) && Disciplined(nonEmpty, v, Step(client, DoShake))
    requires CanStep(v, Step(client, DoShake)) && InLoop(EndOf(After(v, Step(client, DoShake)), client).e)
    ensures var w := After(v, Step(client, DoShake)); var x := EndOf(w, client).e; var y := EndOf(Strip(w), !client).e;
            && x.sendBase == x.next == y.recvBase == 1
            && y.sendBase == x.recvBase == 1
            && Numbered(Towards(Strip(w), client), x.recvBase)
            && y.next == x.recvBase + |Payload(Towards(Strip(w), client))| + One(FinSent(y))
  {
    hide Inv, After, Handshake, Strip, Core, Numbered, Reached, Disciplined, InLoop, CanStep;
    ReachedInv(nonEmpty, steps, v);
    StepKeepsInv(nonEmpty, v, Step(client, DoShake));
    var w := After(v, Step(client, DoShake));
    JustEstablished(v, client);
    LoopIsStripped(w, client);
    InvSplits(nonEmpty, w);
    AgreeFrom(nonEmpty, Strip(w), client);
  }

  /** What is stripped is only the end that is not yet in the loop. */
  lemma LoopIsStripped(v: Sys, client: bool)
    ensures var e := EndOf(v, client).e; InLoop(e) ==> e == EndOf(Strip(v), client).e
  {
    hide Establish, InLoop;
  }

  lemma InvSplits(nonEmpty: bool, v: Sys)
    requires Inv(nonEmpty, v)
    ensures Handshake(v) && Core(nonEmpty, Strip(v))
  {
    hide Handshake, Core, Strip;
  }

  lemma JustEstablished(v: Sys, client: bool)
    requires CanStep(v, Step(client, DoShake)) && InLoop(EndOf(After(v, Step(client, DoShake)), client).e)
    ensures var w := After(v, Step(client, DoShake)); var x := EndOf(w, client);
            x.e.sendBase == x.e.recvBase == x.e.next == ISN && x.e.conn == Established
  {
    AfterIs(v, Step(client, DoShake));
    hide After;
  }

  lemma AgreeFrom(nonEmpty: bool, u: Sys, client: bool)
    requires Core(nonEmpty, u)
    requires var x := EndOf(u, client).e; x.sendBase == x.recvBase == x.next == ISN && x.conn == Established
    ensures var x := EndOf(u, client).e; var y := EndOf(u, !client).e;
            && y.recvBase == ISN && y.sendBase == ISN
            && Numbered(Towards(u, client), x.recvBase)
            && y.next == x.recvBase + |Payload(Towards(u, client))| + One(FinSent(y))
  {
    CoreFrom(nonEmpty, u, client);
    EstablishedPeer(nonEmpty, u, client);
    hide Core;
    hide PhaseFrom;
    hide Sound;
    var x, y := EndOf(u, client), EndOf(u, !client);
    assert !FinReceived(x.e);
    assert Acks(nonEmpty, y.e, x.e, Towards(u, !client));
    AckChainBounds(nonEmpty, Towards(u, !client), y.e.sendBase, x.e.recvBase);
  }

  lemma EstablishedPeer(nonEmpty: bool, u: Sys, client: bool)
    requires Core(nonEmpty, u) && EndOf(u, client).e.conn == Established
    ensures !FinReceived(EndOf(u, !client).e)
  {
    hide Link;
  }
}
