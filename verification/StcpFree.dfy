/**
 * Runs in which the applications close whenever they like: the handshake still works as it should, and
 * bytes are lost exactly where FIN_WAIT_1 or LAST_ACK takes a data packet.
 */
module StcpFree {
  import opened Bytes
  import opened PacketQueueSpec
  import opened StcpTypes
  import opened StcpSteps
  import opened StcpSystem
  import opened StcpChannel
  import opened StcpLink
  import opened StcpInvariant
  import opened StcpStages
  import opened StcpHandshake

  // ----- the handshake does not depend on the discipline ---------------------------------------------

  /** The packet that FIN_WAIT_1 or LAST_ACK takes without looking at more than its flags. */
  predicate TakesBlindly(e: Endpoint) {
    && StageEnabled(e) && AwaitsLastAck(e)
    && ((e.pc.NetStage? && e.pc.ev.net) || (e.pc.CloseStage? && e.pc.ev.close))
  }

  /** The bytes an action throws away. */
  function DropOf(e: Endpoint, action: Action): seq<byte> {
    if action == DoStage && TakesBlindly(e) then e.netQ[0].payload else []
  }

  /** The step shows nowhere once the handshake packets are forgotten. */
  predicate Invisible(v: Sys, step: Step)
    requires CanStep(v, step)
  {
    Strip(After(v, step)) == Strip(v) && (step.action.DoDeliver? || step.action.DoShake? || step.action.DoBoot?)
  }

  /** The step is one of the system without the handshake packets. */
  predicate Mirrored(v: Sys, step: Step)
    requires CanStep(v, step)
  {
    var u := Strip(v);
    && CanStep(u, step) && Strip(After(v, step)) == After(u, step)
    && (!step.action.DoDeliver? ==> EndOf(u, step.client) == EndOf(v, step.client))
  }

  lemma StepCommutes(v: Sys, step: Step)
    requires Handshake(v) && CanStep(v, step)
    ensures Handshake(After(v, step)) && (Invisible(v, step) || Mirrored(v, step))
  {
    hide After;
    if InLoop(v.c) && InLoop(v.s) {
      LoopCommutes(v, step);
    } else if Late(v.c, v.s, ToServer(v)) && v.sa == NoApp {
      if step.client {
        AheadCommutes(v, step);
      } else if step.action == DoDeliver {
        LateDeliverCommutes(v);
      } else {
        LateShakeCommutes(v);
      }
    } else {
      EarlyCommutes(v, step);
    }
  }

  lemma LoopCommutes(v: Sys, step: Step)
    requires InLoop(v.c) && InLoop(v.s) && CanStep(v, step)
    ensures Handshake(After(v, step)) && Mirrored(v, step)
  {
    ActStaysInLoop(EndOf(v, step.client), step.action);
    hide Act, Establish;
  }

  lemma AheadCommutes(v: Sys, step: Step)
    requires Late(v.c, v.s, ToServer(v)) && v.sa == NoApp && step.client && CanStep(v, step)
    ensures Handshake(After(v, step)) && Mirrored(v, step)
  {
    var u := Strip(v);
    StripStrip(v, step);
    AfterIs(v, step);
    AfterIs(u, step);
    ActStaysInLoop(EndOf(v, true), step.action);
    hide After, Act;
    StripPut(v, Act(EndOf(v, true), step.action));
    hide Strip, Late;
  }

  lemma LateDeliverCommutes(v: Sys)
    requires Late(v.c, v.s, ToServer(v)) && v.sa == NoApp && v.c2s != []
    ensures var step := Step(false, DoDeliver);
            Handshake(After(v, step)) && (Invisible(v, step) || Mirrored(v, step))
  {
    StripDeliver(v);
    DeliverIs(v);
    hide After, Late;
    var u := Strip(v);
    hide Strip;
    if v.s.netQ != [] {
      DeliverIs(u);
    }
  }

  lemma LateShakeCommutes(v: Sys)
    requires Late(v.c, v.s, ToServer(v)) && v.sa == NoApp && CanStep(v, Step(false, DoShake))
    ensures Handshake(After(v, Step(false, DoShake))) && Invisible(v, Step(false, DoShake))
  {
    AfterIs(v, Step(false, DoShake));
    hide After, Zeros;
    var f := ShakeStep(v.s);
    assert f == Effect(Establish(v.s.(netQ := v.s.netQ[1..])), []);
    assert v.s2c + [] == v.s2c;
    StripTaken(v);
    hide Strip, ShakeStep, Establish;
  }

  lemma EarlyCommutes(v: Sys, step: Step)
    requires Early(v.c, v.s, ToClient(v), ToServer(v)) && v.ca == NoApp && v.sa == NoApp && CanStep(v, step)
    ensures Handshake(After(v, step)) && Invisible(v, step)
  {
    EarlyNotInLoop(v.c, v.s, ToClient(v), ToServer(v));
    EarlyStrip(v);
    assert step.action == DoDeliver || step.action == DoBoot || step.action == DoShake;
    hide Early, After, Strip;
    if step.action == DoDeliver {
      EarlyDeliver(v, step.client);
      EarlyStrip(After(v, step));
    } else if step.action == DoBoot {
      EarlyBoot(v, step.client);
      EarlyStrip(After(v, step));
    } else if step.client {
      SynAckTaken(v);
    } else {
      ServerTakesSyn(v);
      EarlyStrip(After(v, step));
    }
  }

  lemma SynAckTaken(v: Sys)
    requires Early(v.c, v.s, ToClient(v), ToServer(v)) && v.ca == NoApp && v.sa == NoApp
    requires CanStep(v, Step(true, DoShake))
    ensures var w := After(v, Step(true, DoShake)); Handshake(w) && Strip(w) == BothEstablished()
  {
    RecvKeepsInbound(v.c.netQ, v.s2c);
    assert SynAckInFlight(v.c, v.s, ToClient(v), ToServer(v));
    var f := ShakeStep(v.c);
    assert f.sent == [LastOfThree] && f.e == Establish(Fresh(true));
    AfterIs(v, Step(true, DoShake));
    hide After;
    var w := Put(v, true, Outcome(End(f.e, v.ca, v.s2c), f.sent));
    hide Zeros;
    assert Late(w.c, w.s, ToServer(w));
    assert Strip(w) == BothEstablished();
  }

  /** The handshake packets carry no bytes. */
  lemma StripBytes(v: Sys)
    requires Handshake(v)
    ensures var u := Strip(v);
            && Payload(ToServer(u)) == Payload(ToServer(v)) && Payload(ToClient(u)) == Payload(ToClient(v))
            && u.c.appRecvQ == v.c.appRecvQ && u.c.appSendQ == v.c.appSendQ
            && u.s.appRecvQ == v.s.appRecvQ && u.s.appSendQ == v.s.appSendQ
            && u.ca == v.ca && u.sa == v.sa
  {
    hide Zeros;
    if InLoop(v.c) && InLoop(v.s) {
    } else if Late(v.c, v.s, ToServer(v)) && v.sa == NoApp {
      assert ToServer(Strip(v)) == ToServer(v)[1..];
    } else {
      EarlyStrip(v);
      assert Payload([Syn]) == [] && Payload([SynAck]) == [] by {
        assert [Syn][1..] == [] && [SynAck][1..] == [];
      }
      hide Strip;
    }
  }

  // ----- the bytes of one end through one action ------------------------------------------------------

  /** What stays true of the packets in flight however the applications behave. */
  predicate Plain(u: Sys) {
    && InLoop(u.c) && InLoop(u.s) && u.c.isClient && !u.s.isClient
    && AllShaped(false, ToClient(u)) && AllShaped(false, ToServer(u))
  }

  /** Bytes at the receiving end: with the application, in its queue, or in flight towards it. */
  function Arriving(x: End): seq<byte> {
    Received(x.e, x.a) + Payload(Inbound(x.e.netQ, x.wire))
  }

  /** The first packet leaves the channel and its bytes reach the application's queue. */
  lemma TakenArrives(e: Endpoint, f: Endpoint, ix: seq<Packet>, a: App)
    requires ix != []
    requires f.appSendQ == e.appSendQ + [ix[0].payload] || (ix[0].payload == [] && f.appSendQ == e.appSendQ)
    ensures Received(f, a) + Payload(ix[1..]) == Received(e, a) + Payload(ix)
  {
    FlatPush(e.appSendQ, ix[0].payload);
    assert Payload(ix) == ix[0].payload + Payload(ix[1..]);
  }

  lemma RecvPacketQueues(e: Endpoint)
    requires e.netQ != [] && WellShaped(false, e.netQ[0])
    ensures var f := RecvPacket(e).e; var p := e.netQ[0];
            && f.netQ == e.netQ[1..] && f.isClient == e.isClient && f.overread == e.overread
            && (f.appSendQ == e.appSendQ + [p.payload] || (p.payload == [] && f.appSendQ == e.appSendQ))
    ensures AllShaped(false, RecvPacket(e).sent) && RecvPacket(e).e.appRecvQ == e.appRecvQ && Payload(RecvPacket(e).sent) == []
  {
    var x, p := e.(netQ := e.netQ[1..]), e.netQ[0];
    RecvAckFrame(x, p);
    SegmentQueues(x, p);
    hide RecvAck, RecvFin, RecvData;
    assert Payload([]) == [];
  }

  lemma SegmentQueues(x: Endpoint, p: Packet)
    requires |p.payload| <= MSS
    ensures var f := RecvFin(x, p);
            && f.e.netQ == x.netQ && f.e.isClient == x.isClient && f.e.appRecvQ == x.appRecvQ && f.e.overread == x.overread
            && f.e.appSendQ == x.appSendQ + [[]] && AllShaped(false, f.sent) && Payload(f.sent) == []
    ensures var f := RecvData(x, p);
            && f.e.netQ == x.netQ && f.e.isClient == x.isClient && f.e.appRecvQ == x.appRecvQ && f.e.overread == x.overread
            && (f.e.appSendQ == x.appSendQ + [p.payload] || (p.payload == [] && f.e.appSendQ == x.appSendQ))
            && AllShaped(false, f.sent) && Payload(f.sent) == []
  {
    hide Wrap32, Wrap64;
    assert RecvFin(x, p).sent[1..] == [] && RecvData(x, p).sent[1..] == [];
  }

  /** A stage either takes a packet off the queue or leaves both queues of the receiving side alone. */
  lemma StageQueues(e: Endpoint)
    requires InLoop(e) && StageEnabled(e) && (e.netQ != [] ==> WellShaped(false, e.netQ[0]))
    ensures var f := StageStep(e).e;
            && InLoop(f) && f.isClient == e.isClient
            && (if TakesBlindly(e) then f.netQ == e.netQ[1..] && f.appSendQ == e.appSendQ
                else if e.pc.NetStage? && e.pc.ev.net && !JumpsToClose(e) then
                  && f.netQ == e.netQ[1..]
                  && (f.appSendQ == e.appSendQ + [e.netQ[0].payload] || (e.netQ[0].payload == [] && f.appSendQ == e.appSendQ))
                else f.netQ == e.netQ && f.appSendQ == e.appSendQ)
            && f.overread == (e.overread || (TakesBlindly(e) && e.netQ[0].payload != []))
  {
    hide RecvPacket, SendData, WellShaped, CloseBlock, JumpsToClose, AwaitsLastAck;
    if e.pc.Wait? {
      assert StageStep(e).e == WaitStep(e) && !TakesBlindly(e);
    } else if e.pc.NetStage? && e.pc.ev.net && !JumpsToClose(e) {
      CloseBlockQueues(e);
      RecvPacketQueues(e);
    } else if e.pc.AppStage? && e.pc.ev.app {
      SendDataFrame(e);
    } else if e.pc.NetStage? || e.pc.CloseStage? {
      CloseBlockQueues(e);
    }
  }

  lemma CloseBlockQueues(e: Endpoint)
    ensures AwaitsLastAck(e) ==> JumpsToClose(e)
    ensures (AwaitsLastAck(e) ==> e.netQ != []) ==>
              var f := CloseBlock(e).e;
              && f.netQ == (if AwaitsLastAck(e) then e.netQ[1..] else e.netQ)
              && f.appSendQ == e.appSendQ && f.isClient == e.isClient
              && f.overread == (e.overread || (AwaitsLastAck(e) && e.netQ[0].payload != []))
  {
    hide Wrap32, Wrap64, Remaining;
  }

  lemma StageArrives(x: End)
    requires InLoop(x.e) && StageEnabled(x.e) && AllShaped(false, Inbound(x.e.netQ, x.wire))
    ensures var y, drop := x.(e := StageStep(x.e).e), DropOf(x.e, DoStage);
            && |Arriving(x)| == |Arriving(y)| + |drop|
            && (drop == [] ==> Arriving(y) == Arriving(x))
            && AllShaped(false, Inbound(y.e.netQ, y.wire))
            && InLoop(y.e) && y.e.isClient == x.e.isClient
            && y.e.overread == (x.e.overread || drop != [])
  {
    var e, f := x.e, StageStep(x.e).e;
    var ix := Inbound(e.netQ, x.wire);
    if e.netQ != [] {
      RecvKeepsInbound(e.netQ, x.wire);
      assert ix[0] in ix;
    }
    StageQueues(e);
    hide StageStep, StageEnabled;
    if TakesBlindly(e) {
      assert Payload(ix) == ix[0].payload + Payload(ix[1..]);
    } else if f.netQ != e.netQ {
      TakenArrives(e, f, ix, x.a);
    }
    hide TakesBlindly;
  }

  lemma ActArrives(x: End, action: Action)
    requires InLoop(x.e) && Enabled(x, action) && AllShaped(false, Inbound(x.e.netQ, x.wire))
    ensures var y, drop := Act(x, action).end, DropOf(x.e, action);
            && |Arriving(x)| == |Arriving(y)| + |drop|
            && (drop == [] ==> Arriving(y) == Arriving(x))
            && AllShaped(false, Inbound(y.e.netQ, y.wire))
            && InLoop(y.e) && y.e.isClient == x.e.isClient
            && y.e.overread == (x.e.overread || drop != [])
  {
    hide StageStep, TakesBlindly, Payload, AllShaped, Flat, TakePartial;
    match action
    case DoStage => StageArrives(x);
    case DoDeliver => assert Inbound(x.e.netQ + [x.wire[0]], x.wire[1..]) == Inbound(x.e.netQ, x.wire);
    case DoRead(max) =>
      if !x.a.eof {
        TakeSplits(x.e.appSendQ, max);
      }
    case _ =>
  }

  /** The bytes an action sends leave the front of the queue of what is to be sent. */
  lemma ActSends(x: End, action: Action, front: seq<byte>)
    requires InLoop(x.e) && Enabled(x, action) && AllShaped(false, Inbound(x.e.netQ, x.wire))
    ensures var o := Act(x, action);
            && AllShaped(false, o.sent)
            && |o.end.a.written| - |Flat(o.end.e.appRecvQ)| - |Payload(o.sent)| == |x.a.written| - |Flat(x.e.appRecvQ)|
            && (x.a.written == front + Flat(x.e.appRecvQ) ==>
                  o.end.a.written == front + Payload(o.sent) + Flat(o.end.e.appRecvQ))
  {
    hide StageStep, TakePartial, WellShaped, Flat;
    match action
    case DoStage =>
      if x.e.netQ != [] {
        HeadShaped(x.e.netQ, x.wire);
      }
      StageSends(x.e);
    case DoWrite(data) => FlatPush(x.e.appRecvQ, data);
    case _ =>
  }

  lemma HeadShaped(netQ: seq<Packet>, wire: seq<Packet>)
    requires netQ != [] && AllShaped(false, Inbound(netQ, wire))
    ensures WellShaped(false, netQ[0])
  {
    assert Inbound(netQ, wire)[0] == netQ[0];
  }

  lemma StageSends(e: Endpoint)
    requires InLoop(e) && StageEnabled(e) && (e.netQ != [] ==> WellShaped(false, e.netQ[0]))
    ensures var f := StageStep(e);
            AllShaped(false, f.sent) && Flat(e.appRecvQ) == Payload(f.sent) + Flat(f.e.appRecvQ)
  {
    hide SendData, RecvPacket, CloseBlock, JumpsToClose, AwaitsLastAck, Payload, Flat, WellShaped;
    NothingSent();
    if e.pc.AppStage? && e.pc.ev.app {
      SendDataBytes(e);
    } else if e.pc.NetStage? && e.pc.ev.net && !JumpsToClose(e) {
      RecvPacketQueues(e);
    } else if e.pc.NetStage? || e.pc.CloseStage? {
      CloseBlockBytes(e);
    }
  }

  lemma NothingSent()
    ensures Payload([]) == [] && AllShaped(false, [])
  {
  }

  lemma CloseBlockBytes(e: Endpoint)
    ensures AwaitsLastAck(e) ==> JumpsToClose(e)
    ensures (AwaitsLastAck(e) ==> e.netQ != []) ==>
              var f := CloseBlock(e);
              AllShaped(false, f.sent) && Payload(f.sent) == [] && f.e.appRecvQ == e.appRecvQ
  {
    hide Wrap32, Wrap64, Remaining;
    assert forall conn :: SendFin(e, conn).sent[1..] == [];
  }

  lemma SendDataBytes(e: Endpoint)
    requires e.appRecvQ != []
    ensures var f := SendData(e);
            AllShaped(false, f.sent) && Flat(e.appRecvQ) == Payload(f.sent) + Flat(f.e.appRecvQ)
  {
    if e.rem > 0 {
      var t := TakePartial(e.appRecvQ, Min(e.rem, MSS));
      TakeSplits(e.appRecvQ, Min(e.rem, MSS));
      var p := Packet(Wrap32(e.next), 0, TH_DATA, t.bytes);
      assert Payload([p]) == t.bytes by { PayloadPush([], p); assert [] + [p] == [p]; }
    }
    hide TakePartial, Wrap32, Wrap64, Splice, Flat;
  }

  // ----- the bytes of both directions through one step -----------------------------------------------

  function Peer(v: Sys, client: bool): End {
    EndOf(v, !client)
  }

  /** Nothing is missing at the end `client`: what its peer wrote is there, in flight, or not yet sent. */
  predicate ConservedTo(v: Sys, client: bool) {
    Peer(v, client).a.written == Arriving(EndOf(v, client)) + Flat(Peer(v, client).e.appRecvQ)
  }

  function Missing(v: Sys, client: bool): int {
    |Peer(v, client).a.written| - |Arriving(EndOf(v, client))| - |Flat(Peer(v, client).e.appRecvQ)|
  }

  /** The end `client` took a packet with payload into the buffer for a header: its process is gone. */
  predicate Overread(v: Sys, client: bool) {
    EndOf(v, client).e.overread
  }

  function DropAt(v: Sys, step: Step, client: bool): seq<byte> {
    if step.client == client then DropOf(EndOf(v, client).e, step.action) else []
  }

  lemma StepBytes(u: Sys, step: Step, client: bool)
    requires Plain(u) && CanStep(u, step)
    ensures var w, drop := After(u, step), DropAt(u, step, client);
            && Plain(w)
            && Missing(w, client) == Missing(u, client) + |drop|
            && (drop == [] && ConservedTo(u, client) ==> ConservedTo(w, client))
            && Overread(w, client) == (Overread(u, client) || drop != [])
  {
    AfterIs(u, step);
    var x, o := EndOf(u, step.client), Act(EndOf(u, step.client), step.action);
    ActArrives(x, step.action);
    var front := Arriving(EndOf(u, !step.client));
    ActSends(x, step.action, front);
    PutBytes(u, step.client, o);
    hide Act, After, Enabled, DropOf, Flat, AllShaped, Arriving;
  }

  /** What an outcome puts on the wire arrives behind what is already on its way. */
  lemma PutBytes(u: Sys, client: bool, o: Outcome)
    ensures var w := Put(u, client, o);
            && EndOf(w, client) == o.end
            && EndOf(w, !client).e == EndOf(u, !client).e && EndOf(w, !client).a == EndOf(u, !client).a
            && Arriving(EndOf(w, !client)) == Arriving(EndOf(u, !client)) + Payload(o.sent)
            && Towards(w, !client) == Towards(u, !client) + o.sent
            && Towards(w, client) == Inbound(o.end.e.netQ, o.end.wire)
  {
    var y := EndOf(u, !client);
    SendKeepsInbound(y.e.netQ, y.wire, o.sent);
    PayloadConcat(Inbound(y.e.netQ, y.wire), o.sent);
    hide Payload, Received;
  }

  // ----- whole runs ----------------------------------------------------------------------------------

  /** The bytes thrown away at one end along a run. */
  function Dropped(v: Sys, steps: seq<Step>, client: bool): nat
    decreases |steps|
  {
    if steps == [] || !CanStep(v, steps[0]) then 0
    else |DropAt(v, steps[0], client)| + Dropped(After(v, steps[0]), steps[1..], client)
  }

  /** At no point of the run does FIN_WAIT_1 or LAST_ACK at that end take a packet that carries data. */
  ghost predicate NoDataSwallowed(v: Sys, steps: seq<Step>, client: bool)
    decreases |steps|
  {
    steps == [] || !CanStep(v, steps[0]) ||
    (DropAt(v, steps[0], client) == [] && NoDataSwallowed(After(v, steps[0]), steps[1..], client))
  }

  lemma {:induction false} DroppedNothing(v: Sys, steps: seq<Step>, client: bool)
    ensures Dropped(v, steps, client) == 0 <==> NoDataSwallowed(v, steps, client)
    decreases |steps|
  {
    hide After, CanStep, DropAt;
    if steps != [] && CanStep(v, steps[0]) {
      DroppedNothing(After(v, steps[0]), steps[1..], client);
    }
  }

  lemma FreeStepBytes(v: Sys, step: Step, client: bool)
    requires Handshake(v) && Plain(Strip(v)) && CanStep(v, step)
    ensures var u, w, drop := Strip(v), Strip(After(v, step)), DropAt(v, step, client);
            && Handshake(After(v, step)) && Plain(w)
            && Missing(w, client) == Missing(u, client) + |drop|
            && (drop == [] && ConservedTo(u, client) ==> ConservedTo(w, client))
            && Overread(w, client) == (Overread(u, client) || drop != [])
  {
    StepCommutes(v, step);
    hide Handshake, Plain, Strip, After, CanStep, Missing, ConservedTo, Overread;
    if Mirrored(v, step) {
      StepBytes(Strip(v), step, client);
    }
  }

  lemma {:induction false} FreeRunBytes(v: Sys, steps: seq<Step>, w: Sys, client: bool)
    requires Handshake(v) && Plain(Strip(v)) && FreeRun(v, steps, w)
    ensures Handshake(w) && Plain(Strip(w))
    ensures Missing(Strip(w), client) == Missing(Strip(v), client) + Dropped(v, steps, client)
    ensures Dropped(v, steps, client) == 0 && ConservedTo(Strip(v), client) ==> ConservedTo(Strip(w), client)
    ensures Overread(Strip(w), client) <==> Overread(Strip(v), client) || Dropped(v, steps, client) > 0
    decreases |steps|
  {
    hide Handshake, Plain, Strip, After, CanStep, Missing, ConservedTo, DropAt, Overread;
    if steps != [] {
      FreeStepBytes(v, steps[0], client);
      FreeRunBytes(After(v, steps[0]), steps[1..], w, client);
    }
  }

  /** Forgetting the handshake packets changes no count of bytes. */
  lemma StripCounts(v: Sys, client: bool)
    requires Handshake(v)
    ensures Missing(Strip(v), client) == Missing(v, client)
    ensures ConservedTo(Strip(v), client) <==> ConservedTo(v, client)
    ensures Overread(Strip(v), client) <==> Overread(v, client)
  {
    StripBytes(v);
    StripFlags(v);
    hide Handshake, Strip, Payload, Flat;
  }

  lemma InitialBytes(client: bool)
    ensures Handshake(Init()) && Plain(Strip(Init())) && Missing(Init(), client) == 0 && ConservedTo(Init(), client)
    ensures !Overread(Init(), client)
  {
    hide Zeros;
    assert BeforeSyn(Init().c, Init().s, ToClient(Init()), ToServer(Init()));
    EarlyStrip(Init());
  }

  /**
   * However the applications behave: the stream towards an end is intact if and only if that end has not
   * read past its header buffer, which happens exactly where FIN_WAIT_1 or LAST_ACK takes a data packet;
   * the bytes missing are those of that packet.
   */
  lemma StreamSafetyExactly(steps: seq<Step>, w: Sys, client: bool)
    requires FreeRun(Init(), steps, w)
    ensures ConservedTo(w, client) <==> !EndOf(w, client).e.overread
    ensures EndOf(w, client).e.overread <==> !NoDataSwallowed(Init(), steps, client)
    ensures Missing(w, client) == Dropped(Init(), steps, client)
  {
    InitialBytes(client);
    StripCounts(Init(), client);
    FreeRunBytes(Init(), steps, w, client);
    StripCounts(w, client);
    DroppedNothing(Init(), steps, client);
    assert ConservedTo(w, client) ==> Missing(w, client) == 0;
    hide FreeRun, Handshake, Plain, Strip, Dropped, NoDataSwallowed, Init;
  }
}
