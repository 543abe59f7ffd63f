/** The branches of transport.c as functions on an endpoint, one per atomic step. */
module StcpSteps {
  import opened Bytes
  import opened PacketQueueSpec
  import opened StcpTypes

  /** The endpoint that calloc and the mysocket layer hand to transport_init. */
  function Fresh(isClient: bool): Endpoint {
    Endpoint(isClient, Closed, false, 0, 0, 0, 0, 0, 0, 0, [], [], [], [], false, Boot, false, false)
  }

  predicate InLoop(e: Endpoint) {
    e.pc != Boot && e.pc != Shake
  }

  // ----- handshake ---------------------------------------------------------------------------

  /** The assignments after the handshake loop, and the calloc that opens control_loop. */
  function Establish(e: Endpoint): Endpoint {
    e.(conn := Established, swnd := MSS, cwnd := MSS, recvWin := RECV_WINDOW_SIZE,
       sendBase := ISN, recvBase := ISN, next := ISN, rem := MSS - (ISN - ISN),
       buffer := Zeros(MSS), pc := Wait)
  }

  function BootStep(e: Endpoint): Effect {
    if e.isClient
    then Effect(e.(conn := SynSent, pc := Shake), [Packet(ISN, 0, TH_SYN, [])])
    else Effect(e.(conn := Listen, pc := Shake), [])
  }

  /** The reply reuses the received header, so it keeps the received flags. */
  function ShakeStep(e: Endpoint): Effect
    requires e.netQ != []
  {
    var p := e.netQ[0];
    var e1 := e.(netQ := e.netQ[1..]);
    if p.payload != [] then Effect(e1.(overread := true), [])
    else
      match e.conn
      case SynSent => Effect(Establish(e1), [Packet(p.ack, Wrap32(p.seqno + 1), p.flags, [])])
      case Listen => Effect(e1.(conn := SynRcvd), [Packet(ISN, Wrap32(p.seqno + 1), p.flags, [])])
      case SynRcvd => Effect(Establish(e1), [])
      case _ => Effect(e, [])
  }

  // ----- stcp_wait_for_event ---------------------------------------------------------------

  function Ready(e: Endpoint): Event {
    Event(e.appRecvQ != [], e.netQ != [], e.closeRequested && e.appRecvQ == [])
  }

  function WaitStep(e: Endpoint): Endpoint {
    var ev := Ready(e);
    e.(closeRequested := e.closeRequested && !ev.close, pc := AppStage(ev))
  }

  // ----- APP_DATA ----------------------------------------------------------------------------

  function Remaining(swnd: nat, next: nat, sendBase: nat): nat {
    Wrap64(swnd - (next - sendBase))
  }

  /** Overwrite `buffer` at `off`; the caller has checked the bounds. */
  function Splice(buffer: seq<byte>, off: nat, data: seq<byte>): (b: seq<byte>)
    requires off + |data| <= |buffer|
    ensures |b| == |buffer|
  {
    buffer[..off] + data + buffer[off + |data|..]
  }

  function SendData(e: Endpoint): Effect
    requires e.appRecvQ != []
  {
    if e.rem == 0 then Effect(e, [])
    else
      var t := TakePartial(e.appRecvQ, Min(e.rem, MSS));
      var off := e.next - e.sendBase;
      if off < 0 || off + |t.bytes| > |e.buffer| then Effect(e.(fault := true), [])
      else
        var next := Wrap64(e.next + |t.bytes|);
        Effect(e.(appRecvQ := t.rest, buffer := Splice(e.buffer, off, t.bytes),
                  next := next, rem := Remaining(e.swnd, next, e.sendBase)),
               [Packet(Wrap32(e.next), 0, TH_DATA, t.bytes)])
  }

  // ----- NETWORK_DATA ------------------------------------------------------------------------

  /** Slow start below 4*MSS, then MSS*MSS/CWND per acknowledgement. */
  function GrowCwnd(cwnd: nat): nat {
    if cwnd < 4 * MSS then cwnd + MSS else cwnd + MSS * MSS / cwnd
  }

  function RecvAck(e: Endpoint, p: Packet): Endpoint {
    var ackSize := Wrap64(p.ack - e.sendBase);
    var cwnd := GrowCwnd(e.cwnd);
    var swnd := Min(cwnd, e.recvWin);
    // new_buffer = calloc(SWND); memcpy(new_buffer, buffer + ACK_size, SWND_prev - ACK_size)
    if ackSize > e.swnd || e.swnd > |e.buffer| || e.swnd - ackSize > swnd then e.(fault := true)
    else
      e.(sendBase := p.ack, cwnd := cwnd, swnd := swnd,
         rem := Remaining(swnd, e.next, p.ack),
         buffer := e.buffer[ackSize..e.swnd] + Zeros(swnd - (e.swnd - ackSize)))
  }

  function RecvFin(e: Endpoint, p: Packet): Effect {
    var recvBase := Wrap64(e.recvBase + 1);
    Effect(e.(recvBase := recvBase,
              conn := if e.isClient then Closed else CloseWait,
              done := e.done || e.isClient,
              appSendQ := e.appSendQ + [[]]),
           [Packet(Wrap32(recvBase), Wrap32(p.seqno + 1), TH_ACK, [])])
  }

  function RecvData(e: Endpoint, p: Packet): Effect {
    if |p.payload| > MSS then Effect(e.(fault := true), [])
    else
      var recvBase := Wrap64(e.recvBase + |p.payload|);
      Effect(e.(recvBase := recvBase,
                appSendQ := if |p.payload| > 0 then e.appSendQ + [p.payload] else e.appSendQ),
             [Packet(Wrap32(recvBase), Wrap32(p.seqno + |p.payload|), TH_ACK, [])])
  }

  /** The body of the NETWORK_DATA branch when it does not jump to `close`. */
  function RecvPacket(e: Endpoint): Effect
    requires e.netQ != []
  {
    var p := e.netQ[0];
    var e1 := e.(netQ := e.netQ[1..]);
    if p.flags == TH_ACK then Effect(RecvAck(e1, p), [])
    else if p.flags == TH_FIN then RecvFin(e1, p)
    else RecvData(e1, p)
  }

  // ----- close -------------------------------------------------------------------------------

  /** The two states in which the NETWORK_DATA branch takes `goto close`. */
  predicate JumpsToClose(e: Endpoint) {
    e.conn == FinWait1 || e.conn == LastAck
  }

  predicate AwaitsLastAck(e: Endpoint) {
    if e.isClient then e.conn == FinWait1 else e.conn == LastAck
  }

  function SendFin(e: Endpoint, conn: CState): Effect {
    var next := Wrap64(e.next + 1);
    Effect(e.(next := next, rem := Remaining(e.swnd, next, e.sendBase), conn := conn),
           [Packet(Wrap32(e.next), 0, TH_FIN, [])])
  }

  /** FIN_WAIT_1 and LAST_ACK take one packet into a buffer for a header, and look only at its flags. */
  function Swallow(e: Endpoint): Endpoint
    requires e.netQ != []
  {
    var e1 := e.(netQ := e.netQ[1..]);
    if e.netQ[0].payload != [] then e1.(overread := true)
    else if e.netQ[0].flags != TH_ACK then e1
    else if e.isClient then e1.(conn := FinWait2)
    else e1.(conn := Closed, done := true)
  }

  /** The block at label `close`. */
  function CloseBlock(e: Endpoint): Effect
    requires AwaitsLastAck(e) ==> e.netQ != []
  {
    if AwaitsLastAck(e) then Effect(Swallow(e), [])
    else if e.isClient && e.conn == Established then SendFin(e, FinWait1)
    else if !e.isClient && e.conn == CloseWait then SendFin(e, LastAck)
    else Effect(e, [])
  }

  // ----- one round of control_loop, stage by stage -------------------------------------------

  /** Back to the loop test. */
  function EndRound(e: Endpoint): Endpoint {
    e.(pc := if e.done then Exit else Wait)
  }

  predicate StageEnabled(e: Endpoint) {
    match e.pc
    case Wait => Ready(e).Any()
    case AppStage(ev) => ev.app ==> e.appRecvQ != []
    case NetStage(ev) => ev.net ==> e.netQ != []
    case CloseStage(ev) => ev.close && AwaitsLastAck(e) ==> e.netQ != []
    case _ => false
  }

  function StageStep(e: Endpoint): Effect
    requires StageEnabled(e)
  {
    match e.pc
    case Wait => Effect(WaitStep(e), [])
    case AppStage(ev) =>
      var f := if ev.app then SendData(e) else Effect(e, []);
      Effect(f.e.(pc := NetStage(ev)), f.sent)
    case NetStage(ev) =>
      if !ev.net then Effect(e.(pc := CloseStage(ev)), [])
      else if JumpsToClose(e) then
        var f := CloseBlock(e); Effect(EndRound(f.e), f.sent)
      else
        var f := RecvPacket(e); Effect(f.e.(pc := CloseStage(ev)), f.sent)
    case CloseStage(ev) =>
      var f := if ev.close then CloseBlock(e) else Effect(e, []);
      Effect(EndRound(f.e), f.sent)
  }

  // ----- one whole round, with nothing happening in between ---------------------------------------

  /** What the loop relies on when it starts a round: myclose is called once, before the FIN is sent. */
  predicate RoundReady(e: Endpoint) {
    e.Running() && e.pc == Wait && Ready(e).Any() && (e.closeRequested ==> !JumpsToClose(e))
  }

  /** One more stage, unless the process is gone. */
  function Then(f: Effect): Effect
    requires StageEnabled(f.e)
  {
    if !f.e.Running() then f
    else
      var g := StageStep(f.e);
      Effect(g.e, f.sent + g.sent)
  }

  lemma RoundRuns(e: Endpoint)
    requires RoundReady(e)
    ensures StageEnabled(e)
    ensures var f1 := StageStep(e);
            && StageEnabled(f1.e)
            && StageEnabled(Then(f1).e)
            && (Then(Then(f1)).e.pc.CloseStage? ==> StageEnabled(Then(Then(f1)).e))
  {
    var f1 := StageStep(e);
    assert f1.e == WaitStep(e);
    AppStageKeeps(f1.e);
    NetStageKeeps(Then(f1).e);
    hide StageStep;
  }

  /** Sending leaves alone what the later stages of the round look at. */
  lemma AppStageKeeps(x: Endpoint)
    requires x.pc.AppStage? && StageEnabled(x)
    ensures var g := StageStep(x).e;
            g.pc == NetStage(x.pc.ev) && g.netQ == x.netQ && g.conn == x.conn && g.isClient == x.isClient
  {
    hide TakePartial, Wrap64, Splice;
  }

  /** Receiving never leads into a state in which the close block would wait for another packet. */
  lemma NetStageKeeps(x: Endpoint)
    requires x.pc.NetStage? && StageEnabled(x)
    ensures var g := StageStep(x).e;
            g.pc.CloseStage? ==> g.pc.ev == x.pc.ev && (!JumpsToClose(x) ==> !AwaitsLastAck(g))
  {
    if x.pc.ev.net && !JumpsToClose(x) {
      AckKeepsConn(x.(netQ := x.netQ[1..]), x.netQ[0]);
      DataKeepsConn(x.(netQ := x.netQ[1..]), x.netQ[0]);
    }
    hide RecvAck, RecvData, SendFin;
  }

  lemma AckKeepsConn(x: Endpoint, p: Packet)
    ensures RecvAck(x, p).conn == x.conn && RecvAck(x, p).isClient == x.isClient
  {
  }

  lemma DataKeepsConn(x: Endpoint, p: Packet)
    ensures RecvData(x, p).e.conn == x.conn && RecvData(x, p).e.isClient == x.isClient
  {
  }

  /** The stages of one pass through the loop body. */
  function Round(e: Endpoint): Effect
    requires RoundReady(e)
  {
    RoundRuns(e);
    var f := Then(Then(StageStep(e)));
    if f.e.pc.CloseStage? then Then(f) else f
  }
}
