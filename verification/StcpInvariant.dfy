/** The invariant of every disciplined run once both ends are in control_loop, and its preservation. */
module StcpInvariant {
  import opened Bytes
  import opened PacketQueueSpec
  import opened StcpTypes
  import opened StcpSteps
  import opened StcpSystem
  import opened StcpChannel
  import opened StcpLink

  predicate EventCloses(e: Endpoint) {
    match e.pc
    case AppStage(ev) => ev.close
    case NetStage(ev) => ev.close
    case CloseStage(ev) => ev.close
    case _ => false
  }

  /** myclose was called and the close branch has not run yet. */
  predicate Pending(e: Endpoint) {
    e.closeRequested || EventCloses(e)
  }

  /** The sampled event bits are still true when their stage comes. */
  predicate EventsHold(e: Endpoint) {
    && !(e.closeRequested && EventCloses(e))
    && (e.pc.AppStage? ==> (e.pc.ev.app ==> e.appRecvQ != []) && (e.pc.ev.net ==> e.netQ != []))
    && (e.pc.NetStage? ==> (e.pc.ev.net ==> e.netQ != []))
    && (EventCloses(e) ==> e.appRecvQ == [])
    && (e.done <==> e.conn == Closed)
    && (e.pc == Exit ==> e.done)
    && (e.done ==> e.pc == Exit || e.pc.CloseStage?)
  }

  predicate IsFin(p: Packet, n: int) {
    p.flags == TH_FIN && p.seqno == n
  }

  predicate IsAckOf(p: Packet, n: nat) {
    p.flags == TH_ACK && p.ack == n
  }

  /** The channel's last packet is the FIN with number `n`; before it there are only ACKs. */
  predicate EndsInFin(ch: seq<Packet>, n: int) {
    ch != [] && IsFin(ch[|ch| - 1], n) && NoFin(ch[..|ch| - 1]) && NoData(ch)
  }

  /** What teardown depends on at one end. */
  datatype Side = Side(conn: CState, closed: bool, pending: bool, drained: bool, sendBase: nat, next: nat)

  function SideOf(e: Endpoint, a: App): Side {
    Side(e.conn, a.closed, Pending(e), e.appRecvQ == [], e.sendBase, e.next)
  }

  /** Before the client calls myclose. */
  predicate PhaseOpen(c: Side, s: Side, ic: seq<Packet>, is_: seq<Packet>) {
    && c.conn == Established && s.conn == Established
    && !c.closed && !s.closed && !c.pending && !s.pending
    && NoFin(ic) && NoFin(is_)
  }

  /** From the client's myclose to its FIN. */
  predicate PhaseClosing(c: Side, s: Side, ic: seq<Packet>, is_: seq<Packet>) {
    && c.conn == Established && s.conn == Established
    && c.closed && !s.closed && c.pending && !s.pending
    && c.drained && s.drained && c.sendBase == c.next
    && ic == [] && NoFin(is_) && NoData(is_)
  }

  /** From the client's FIN to its arrival. */
  predicate PhaseFinInFlight(c: Side, s: Side, ic: seq<Packet>, is_: seq<Packet>) {
    && c.conn == FinWait1 && s.conn == Established
    && c.closed && !s.closed && !c.pending && !s.pending
    && c.drained && s.drained && c.sendBase == c.next - 1
    && ic == [] && EndsInFin(is_, c.next - 1)
  }

  /** After the server has the client's FIN. */
  predicate ServerLeaving(c: Side, s: Side) {
    && c.closed && !c.pending && c.drained && s.drained && c.sendBase == c.next - 1
    && if s.conn == CloseWait then (s.pending <==> s.closed) && s.sendBase == s.next
       else !s.pending && s.closed && s.sendBase == s.next - 1
  }

  predicate FinIfSent(s: Side, ch: seq<Packet>) {
    if s.conn == CloseWait then ch == [] else |ch| == 1 && IsFin(ch[0], s.next - 1)
  }

  predicate PhaseAwaitingAck(c: Side, s: Side, ic: seq<Packet>, is_: seq<Packet>) {
    && c.conn == FinWait1 && (s.conn == CloseWait || s.conn == LastAck) && ServerLeaving(c, s)
    && is_ == [] && ic != [] && IsAckOf(ic[0], c.next) && FinIfSent(s, ic[1..])
  }

  predicate PhaseAwaitingFin(c: Side, s: Side, ic: seq<Packet>, is_: seq<Packet>) {
    && c.conn == FinWait2 && (s.conn == CloseWait || s.conn == LastAck) && ServerLeaving(c, s)
    && is_ == [] && FinIfSent(s, ic)
  }

  predicate PhaseLastAck(c: Side, s: Side, ic: seq<Packet>, is_: seq<Packet>) {
    && c.conn == Closed && s.conn == LastAck && ServerLeaving(c, s)
    && ic == [] && |is_| == 1 && IsAckOf(is_[0], s.next)
  }

  predicate PhaseDone(c: Side, s: Side, ic: seq<Packet>, is_: seq<Packet>) {
    && c.conn == Closed && s.conn == Closed && ServerLeaving(c, s)
    && ic == [] && is_ == []
  }

  predicate Phase(c: Side, s: Side, ic: seq<Packet>, is_: seq<Packet>) {
    || PhaseOpen(c, s, ic, is_)
    || PhaseClosing(c, s, ic, is_)
    || PhaseFinInFlight(c, s, ic, is_)
    || PhaseAwaitingAck(c, s, ic, is_)
    || PhaseAwaitingFin(c, s, ic, is_)
    || PhaseLastAck(c, s, ic, is_)
    || PhaseDone(c, s, ic, is_)
  }

  function ToClient(v: Sys): seq<Packet> { Inbound(v.c.netQ, v.s2c) }
  function ToServer(v: Sys): seq<Packet> { Inbound(v.s.netQ, v.c2s) }

  /** The endpoint's own part of the invariant. */
  predicate Sound(e: Endpoint, isClient: bool) {
    e.isClient == isClient && InLoop(e) && EventsHold(e)
  }

  /** The invariant on its parts: both ends, and the packets on their way to each. */
  ghost predicate Parts(nonEmpty: bool, c: Endpoint, ca: App, s: Endpoint, sa: App, ic: seq<Packet>, is_: seq<Packet>) {
    && Sound(c, true) && Sound(s, false)
    && Link(nonEmpty, c, ca, s, sa, ic, is_)
    && Phase(SideOf(c, ca), SideOf(s, sa), ic, is_)
  }

  ghost predicate Core(nonEmpty: bool, v: Sys) {
    Parts(nonEmpty, v.c, v.ca, v.s, v.sa, ToClient(v), ToServer(v))
  }

  // ----- what a step does to the system ---------------------------------------------------------

  /** The system after one end changed its state, its application and its wire, and sent packets. */
  function Put(v: Sys, client: bool, o: Outcome): Sys {
    if client then Sys(o.end.e, v.s, o.end.a, v.sa, v.c2s + o.sent, o.end.wire)
    else Sys(v.c, o.end.e, v.ca, o.end.a, o.end.wire, v.s2c + o.sent)
  }

  lemma AfterIs(v: Sys, step: Step)
    requires CanStep(v, step)
    ensures After(v, step) == Put(v, step.client, Act(EndOf(v, step.client), step.action))
  {
    hide Act;
  }

  lemma SendKeepsInbound(netQ: seq<Packet>, wire: seq<Packet>, sent: seq<Packet>)
    ensures Inbound(netQ, wire + sent) == Inbound(netQ, wire) + sent
  {
  }

  lemma RecvKeepsInbound(netQ: seq<Packet>, wire: seq<Packet>)
    requires netQ != []
    ensures Inbound(netQ, wire)[0] == netQ[0] && Inbound(netQ, wire) != []
    ensures Inbound(netQ[1..], wire) == Inbound(netQ, wire)[1..]
  {
  }

  /** The invariant of the next state from its parts, seen from the end that moved. */
  lemma CorePut(nonEmpty: bool, v: Sys, client: bool, o: Outcome)
    requires var ix := Inbound(o.end.e.netQ, o.end.wire);
             if client then Parts(nonEmpty, o.end.e, o.end.a, v.s, v.sa, ix, ToServer(v) + o.sent)
             else Parts(nonEmpty, v.c, v.ca, o.end.e, o.end.a, ToClient(v) + o.sent, ix)
    ensures Core(nonEmpty, Put(v, client, o))
  {
    hide Parts;
    SendKeepsInbound(v.s.netQ, v.c2s, o.sent);
    SendKeepsInbound(v.c.netQ, v.s2c, o.sent);
  }

  /** The data invariant does not look at queues of packets, control location or close flags. */
  predicate SameView(x: Endpoint, x': Endpoint) {
    x' == x.(netQ := x'.netQ, pc := x'.pc, closeRequested := x'.closeRequested, done := x'.done)
  }

  lemma DirectionFrame(nonEmpty: bool, x: Endpoint, x': Endpoint, xa: App, y: Endpoint, y': Endpoint, ya: App, ix: seq<Packet>, iy: seq<Packet>)
    requires Direction(nonEmpty, x, xa, y, ya, ix, iy) && SameView(x, x') && SameView(y, y')
    ensures Direction(nonEmpty, x', xa, y', ya, ix, iy)
  {
    hide Numbered;
    hide Payload;
    hide AckChain;
  }

  lemma LinkFrame(nonEmpty: bool, x: Endpoint, x': Endpoint, xa: App, y: Endpoint, ya: App, ix: seq<Packet>, iy: seq<Packet>)
    requires Link(nonEmpty, x, xa, y, ya, ix, iy) && SameView(x, x')
    ensures Link(nonEmpty, x', xa, y, ya, ix, iy)
  {
    assert SameView(y, y);
    hide SameView;
    hide Direction;
    DirectionFrame(nonEmpty, x, x', xa, y, y, ya, ix, iy);
    DirectionFrame(nonEmpty, y, y, ya, x, x', xa, iy, ix);
  }

  lemma LinkSwap(nonEmpty: bool, x: Endpoint, xa: App, y: Endpoint, ya: App, ix: seq<Packet>, iy: seq<Packet>)
    requires Link(nonEmpty, x, xa, y, ya, ix, iy)
    ensures Link(nonEmpty, y, ya, x, xa, iy, ix)
  {
    hide Direction;
  }

  /** Link read from the end that moves. */
  ghost predicate LinkFrom(nonEmpty: bool, client: bool, v: Sys, x: Endpoint, xa: App, ix: seq<Packet>, iy: seq<Packet>) {
    if client then Link(nonEmpty, x, xa, v.s, v.sa, ix, iy) else Link(nonEmpty, x, xa, v.c, v.ca, ix, iy)
  }

  ghost predicate PhaseFrom(client: bool, v: Sys, x: Side, ix: seq<Packet>, iy: seq<Packet>) {
    if client then Phase(x, SideOf(v.s, v.sa), ix, iy) else Phase(SideOf(v.c, v.ca), x, iy, ix)
  }

  function Towards(v: Sys, client: bool): seq<Packet> {
    if client then ToClient(v) else ToServer(v)
  }

  lemma CoreFrom(nonEmpty: bool, v: Sys, client: bool)
    requires Core(nonEmpty, v)
    ensures var x := EndOf(v, client);
            && Sound(x.e, client)
            && LinkFrom(nonEmpty, client, v, x.e, x.a, Towards(v, client), Towards(v, !client))
            && PhaseFrom(client, v, SideOf(x.e, x.a), Towards(v, client), Towards(v, !client))
  {
    hide Link;
    hide Phase;
    hide Sound;
    if !client { LinkSwap(nonEmpty, v.c, v.ca, v.s, v.sa, ToClient(v), ToServer(v)); }
  }

  /** Put together what a step at one end has to re-establish. */
  lemma CoreAfter(nonEmpty: bool, v: Sys, client: bool, o: Outcome)
    requires Core(nonEmpty, v) && Sound(o.end.e, client)
    requires var ix := Inbound(o.end.e.netQ, o.end.wire);
             && LinkFrom(nonEmpty, client, v, o.end.e, o.end.a, ix, Towards(v, !client) + o.sent)
             && PhaseFrom(client, v, SideOf(o.end.e, o.end.a), ix, Towards(v, !client) + o.sent)
    ensures Core(nonEmpty, Put(v, client, o))
  {
    hide Link;
    hide Phase;
    hide Sound;
    var ix := Inbound(o.end.e.netQ, o.end.wire);
    if !client { LinkSwap(nonEmpty, o.end.e, o.end.a, v.c, v.ca, ix, ToClient(v) + o.sent); }
    CorePut(nonEmpty, v, client, o);
  }

  // ----- application and network steps --------------------------------------------------------

  lemma DeliverEffect(x: End)
    requires x.e.Running() && x.wire != [] && EventsHold(x.e) && InLoop(x.e)
    ensures var o := Act(x, DoDeliver);
            && o.sent == [] && o.end.a == x.a
            && Inbound(o.end.e.netQ, o.end.wire) == Inbound(x.e.netQ, x.wire)
            && SameView(x.e, o.end.e)
            && SideOf(o.end.e, o.end.a) == SideOf(x.e, x.a)
            && EventsHold(o.end.e) && InLoop(o.end.e)
  {
    assert x.wire == [x.wire[0]] + x.wire[1..];
  }

  lemma DeliverKeepsCore(nonEmpty: bool, v: Sys, client: bool)
    requires Core(nonEmpty, v) && CanStep(v, Step(client, DoDeliver))
    ensures Core(nonEmpty, After(v, Step(client, DoDeliver)))
  {
    var x := EndOf(v, client);
    var o := Act(x, DoDeliver);
    AfterIs(v, Step(client, DoDeliver));
    CoreFrom(nonEmpty, v, client);
    DeliverEffect(x);
    FrameKeepsCore(nonEmpty, v, client, o);
  }

  /** A step that sends nothing, takes nothing and keeps the close flags' meaning. */
  lemma FrameKeepsCore(nonEmpty: bool, v: Sys, client: bool, o: Outcome)
    requires Core(nonEmpty, v)
    requires var x := EndOf(v, client);
             && o.sent == [] && o.end.a == x.a
             && Inbound(o.end.e.netQ, o.end.wire) == Inbound(x.e.netQ, x.wire)
             && SameView(x.e, o.end.e)
             && SideOf(o.end.e, o.end.a) == SideOf(x.e, x.a)
             && EventsHold(o.end.e) && InLoop(o.end.e)
    ensures Core(nonEmpty, Put(v, client, o))
  {
    var x := EndOf(v, client);
    CoreFrom(nonEmpty, v, client);
    assert Sound(o.end.e, client);
    assert Towards(v, !client) + o.sent == Towards(v, !client);
    hide Core;
    hide Link;
    hide Phase;
    hide SameView;
    hide SideOf;
    if client {
      LinkFrame(nonEmpty, x.e, o.end.e, x.a, v.s, v.sa, ToClient(v), ToServer(v));
    } else {
      LinkFrame(nonEmpty, x.e, o.end.e, x.a, v.c, v.ca, ToServer(v), ToClient(v));
    }
    CoreAfter(nonEmpty, v, client, o);
  }

  /** A step whose packets and close flags do not change teardown, once its Link is known. */
  lemma QuietKeepsCore(nonEmpty: bool, v: Sys, client: bool, o: Outcome)
    requires Core(nonEmpty, v) && Sound(o.end.e, client) && o.sent == []
    requires var x := EndOf(v, client);
             && o.end.wire == x.wire && o.end.e.netQ == x.e.netQ
             && LinkFrom(nonEmpty, client, v, o.end.e, o.end.a, Towards(v, client), Towards(v, !client))
             && PhaseFrom(client, v, SideOf(o.end.e, o.end.a), Towards(v, client), Towards(v, !client))
    ensures Core(nonEmpty, Put(v, client, o))
  {
    assert Towards(v, !client) + o.sent == Towards(v, !client);
    hide Core;
    hide LinkFrom;
    hide PhaseFrom;
    hide Sound;
    hide SideOf;
    CoreAfter(nonEmpty, v, client, o);
  }

  lemma SoundOnWrite(e: Endpoint, data: seq<byte>, isClient: bool)
    requires Sound(e, isClient) && !Pending(e)
    ensures Sound(e.(appRecvQ := e.appRecvQ + [data]), isClient)
  {
  }

  lemma SoundOnClose(e: Endpoint, isClient: bool)
    requires Sound(e, isClient) && !Pending(e)
    ensures Sound(e.(closeRequested := true), isClient)
  {
  }

  lemma WriteKeepsCore(nonEmpty: bool, v: Sys, client: bool, data: seq<byte>)
    requires Core(nonEmpty, v) && CanStep(v, Step(client, DoWrite(data)))
    requires Disciplined(nonEmpty, v, Step(client, DoWrite(data)))
    ensures Core(nonEmpty, After(v, Step(client, DoWrite(data))))
  {
    hide Core, Link, Phase, Sound, After;
    var x := EndOf(v, client);
    var o := Act(x, DoWrite(data));
    AfterIs(v, Step(client, DoWrite(data)));
    CoreFrom(nonEmpty, v, client);
    PhaseOpenIfNotClosed(nonEmpty, v);
    SoundOnWrite(x.e, data, client);
    assert SideOf(o.end.e, o.end.a) == SideOf(x.e, x.a).(drained := false);
    hide SideOf;
    if client {
      WriteKeepsLink(nonEmpty, x.e, x.a, v.s, v.sa, ToClient(v), ToServer(v), data);
      assert PhaseFrom(true, v, SideOf(o.end.e, o.end.a), ToClient(v), ToServer(v));
    } else {
      WriteKeepsLink(nonEmpty, x.e, x.a, v.c, v.ca, ToServer(v), ToClient(v), data);
    }
    QuietKeepsCore(nonEmpty, v, client, o);
  }

  /** Until the client calls myclose both ends are established, no close is pending and a write changes no phase. */
  lemma PhaseOpenIfNotClosed(nonEmpty: bool, v: Sys)
    requires Core(nonEmpty, v) && !v.ca.closed
    ensures PhaseOpen(SideOf(v.c, v.ca), SideOf(v.s, v.sa), ToClient(v), ToServer(v))
    ensures Phase(SideOf(v.c, v.ca).(drained := false), SideOf(v.s, v.sa), ToClient(v), ToServer(v))
    ensures Phase(SideOf(v.c, v.ca), SideOf(v.s, v.sa).(drained := false), ToClient(v), ToServer(v))
    ensures !Pending(v.c) && !Pending(v.s)
  {
    hide Link;
  }

  lemma ReadKeepsCore(nonEmpty: bool, v: Sys, client: bool, max: nat)
    requires Core(nonEmpty, v) && CanStep(v, Step(client, DoRead(max))) && max > 0
    ensures Core(nonEmpty, After(v, Step(client, DoRead(max))))
  {
    var x := EndOf(v, client);
    var o := Act(x, DoRead(max));
    AfterIs(v, Step(client, DoRead(max)));
    CoreFrom(nonEmpty, v, client);
    ReadStepFrame(x, max, client);
    hide Core;
    hide Link;
    hide Phase;
    hide Sound;
    hide SideOf;
    hide ReadStep;
    if client {
      ReadKeepsLink(nonEmpty, x.e, x.a, v.s, v.sa, ToClient(v), ToServer(v), max);
    } else {
      ReadKeepsLink(nonEmpty, x.e, x.a, v.c, v.ca, ToServer(v), ToClient(v), max);
    }
    QuietKeepsCore(nonEmpty, v, client, o);
  }

  /** myread touches neither the packets nor anything teardown looks at. */
  lemma ReadStepFrame(x: End, max: nat, client: bool)
    requires (x.a.eof || x.e.appSendQ != []) && Sound(x.e, client)
    ensures var y, z := ReadStep(x, max), ReadStep(End(x.e, x.a, []), max);
            && y.e == z.e && y.a == z.a && y.wire == x.wire && y.e.netQ == x.e.netQ
            && Sound(y.e, client) && SideOf(y.e, y.a) == SideOf(x.e, x.a)
  {
  }

  lemma EofMarkedOf(nonEmpty: bool, v: Sys)
    requires Core(nonEmpty, v)
    ensures EofMarked(v.c.appSendQ, FinReceived(v.c), v.ca.eof)
    ensures EofMarked(v.s.appSendQ, FinReceived(v.s), v.sa.eof)
  {
    hide Phase;
  }

  lemma SomethingInFlight(nonEmpty: bool, ch: seq<Packet>)
    ensures AllShaped(nonEmpty, ch) && NoData(ch) && NoFin(ch) && ch != [] ==> exists p <- ch :: p.flags == TH_ACK
  {
    if ch != [] {
      assert ch[0] in ch;
    }
  }

  lemma FullHasBytes(q: Blocks)
    ensures Full(q) && q != [] ==> |Flat(q)| > 0
  {
    if q != [] {
      assert Flat(q) == q[0] + Flat(q[1..]);
    }
  }

  /** With non-empty writes, "everything acknowledged and received" already means that nothing is in
      flight towards the client, that no segment of its own is on the way, and that the server has
      nothing left to send. */
  lemma AcknowledgedIsQuiet(c: Endpoint, ca: App, s: Endpoint, sa: App, ic: seq<Packet>, is_: seq<Packet>)
    requires Link(true, c, ca, s, sa, ic, is_)
    requires PhaseOpen(SideOf(c, ca), SideOf(s, sa), ic, is_)
    requires c.appRecvQ == [] && c.sendBase == c.next && Received(c, ca) == sa.written
    ensures ic == [] && NoData(is_) && s.appRecvQ == []
  {
    AckChainBounds(true, ic, c.sendBase, s.recvBase);
    assert |Payload(is_)| == 0;
    NoPayloadNoData(is_);
    assert |Payload(ic)| == 0 && |Flat(s.appRecvQ)| == 0;
    NoPayloadNoData(ic);
    SomethingInFlight(true, ic);
    FullHasBytes(s.appRecvQ);
  }

  lemma CloseKeepsLink(nonEmpty: bool, x: Endpoint, xa: App, y: Endpoint, ya: App, ix: seq<Packet>, iy: seq<Packet>)
    requires Link(nonEmpty, x, xa, y, ya, ix, iy)
    ensures Link(nonEmpty, x.(closeRequested := true), xa.(closed := true), y, ya, ix, iy)
  {
    hide Numbered;
    hide Payload;
    hide AckChain;
  }

  lemma ClientClosePhase(nonEmpty: bool, v: Sys)
    requires Core(nonEmpty, v) && !v.ca.closed && ClientMayClose(nonEmpty, v)
    ensures PhaseClosing(SideOf(v.c, v.ca).(closed := true, pending := true), SideOf(v.s, v.sa), ToClient(v), ToServer(v))
  {
    PhaseOpenIfNotClosed(nonEmpty, v);
    assert InLoop(v.c) && InLoop(v.s);
    assert Strip(v) == v;
    if nonEmpty { AcknowledgedIsQuiet(v.c, v.ca, v.s, v.sa, ToClient(v), ToServer(v)); }
    hide Link;
  }

  lemma ServerClosePhase(nonEmpty: bool, v: Sys)
    requires Core(nonEmpty, v) && !v.sa.closed && v.sa.eof
    ensures Phase(SideOf(v.c, v.ca), SideOf(v.s, v.sa).(closed := true, pending := true), ToClient(v), ToServer(v))
    ensures !Pending(v.s)
  {
    EofMarkedOf(nonEmpty, v);
    assert FinReceived(v.s);
    hide Link;
  }

  lemma CloseKeepsCore(nonEmpty: bool, v: Sys, client: bool)
    requires Core(nonEmpty, v) && CanStep(v, Step(client, DoClose))
    requires Disciplined(nonEmpty, v, Step(client, DoClose))
    ensures Core(nonEmpty, After(v, Step(client, DoClose)))
  {
    hide Core, Link, Sound, After;
    var x := EndOf(v, client);
    var o := Act(x, DoClose);
    AfterIs(v, Step(client, DoClose));
    CoreFrom(nonEmpty, v, client);
    if client { ClientClosePhase(nonEmpty, v); PhaseOpenIfNotClosed(nonEmpty, v); } else { ServerClosePhase(nonEmpty, v); }
    SoundOnClose(x.e, client);
    assert SideOf(o.end.e, o.end.a) == SideOf(x.e, x.a).(closed := true, pending := true);
    assert PhaseFrom(client, v, SideOf(o.end.e, o.end.a), Towards(v, client), Towards(v, !client));
    hide PhaseFrom, SideOf;
    if client {
      CloseKeepsLink(nonEmpty, x.e, x.a, v.s, v.sa, ToClient(v), ToServer(v));
    } else {
      CloseKeepsLink(nonEmpty, x.e, x.a, v.c, v.ca, ToServer(v), ToClient(v));
    }
    QuietKeepsCore(nonEmpty, v, client, o);
  }
}
