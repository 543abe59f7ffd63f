/** Two endpoints, their applications and the two FIFO wires between them, as a transition system. */
module StcpSystem {
  import opened Bytes
  import opened PacketQueueSpec
  import opened StcpTypes
  import opened StcpSteps

  /** What the application at one end has done: bytes given to mywrite, bytes returned by myread,
      whether myread has returned 0, whether myclose was called. */
  datatype App = App(written: seq<byte>, read: seq<byte>, eof: bool, closed: bool)

  /** Client, server, their applications, and the packets still on each wire. */
  datatype Sys = Sys(c: Endpoint, s: Endpoint, ca: App, sa: App, c2s: seq<Packet>, s2c: seq<Packet>)

  datatype Action =
    | DoBoot              // transport_init up to its loop
    | DoShake             // one round of the handshake loop
    | DoDeliver           // the receive thread moves a packet from the wire to network_recv_queue
    | DoStage             // one stage of control_loop
    | DoWrite(data: seq<byte>)
    | DoRead(max: nat)
    | DoClose

  /** `client` says at which end the action happens. */
  datatype Step = Step(client: bool, action: Action)

  /** One end of the system: its endpoint, its application and the wire towards it. */
  datatype End = End(e: Endpoint, a: App, wire: seq<Packet>)

  datatype Outcome = Outcome(end: End, sent: seq<Packet>)

  /** Nothing happens any more at an end whose process is gone. */
  predicate Enabled(x: End, action: Action) {
    x.e.Running() &&
    match action
    case DoBoot => x.e.pc == Boot
    case DoShake => x.e.pc == Shake && x.e.netQ != []
    case DoDeliver => x.wire != []
    case DoStage => StageEnabled(x.e)
    case DoWrite(data) => InLoop(x.e) && !x.a.closed
    case DoRead(max) => InLoop(x.e) && !x.a.closed && (x.a.eof || x.e.appSendQ != [])
    case DoClose => InLoop(x.e) && !x.a.closed
  }

  /** myread: once it has returned 0 it keeps returning 0. */
  function ReadStep(x: End, max: nat): End
    requires x.a.eof || x.e.appSendQ != []
  {
    if x.a.eof then x
    else
      var t := TakePartial(x.e.appSendQ, max);
      x.(e := x.e.(appSendQ := t.rest),
         a := x.a.(read := x.a.read + t.bytes, eof := t.bytes == []))
  }

  function Act(x: End, action: Action): Outcome
    requires Enabled(x, action)
  {
    match action
    case DoBoot => var f := BootStep(x.e); Outcome(x.(e := f.e), f.sent)
    case DoShake => var f := ShakeStep(x.e); Outcome(x.(e := f.e), f.sent)
    case DoDeliver =>
      Outcome(x.(e := x.e.(netQ := x.e.netQ + [x.wire[0]]), wire := x.wire[1..]), [])
    case DoStage => var f := StageStep(x.e); Outcome(x.(e := f.e), f.sent)
    case DoWrite(data) =>
      Outcome(x.(e := x.e.(appRecvQ := x.e.appRecvQ + [data]), a := x.a.(written := x.a.written + data)), [])
    case DoRead(max) => Outcome(ReadStep(x, max), [])
    case DoClose =>
      Outcome(x.(e := x.e.(closeRequested := true), a := x.a.(closed := true)), [])
  }

  function EndOf(sys: Sys, client: bool): End {
    if client then End(sys.c, sys.ca, sys.s2c) else End(sys.s, sys.sa, sys.c2s)
  }

  predicate CanStep(sys: Sys, step: Step) {
    Enabled(EndOf(sys, step.client), step.action)
  }

  function After(sys: Sys, step: Step): Sys
    requires CanStep(sys, step)
  {
    var o := Act(EndOf(sys, step.client), step.action);
    if step.client
    then sys.(c := o.end.e, ca := o.end.a, s2c := o.end.wire, c2s := sys.c2s + o.sent)
    else sys.(s := o.end.e, sa := o.end.a, c2s := o.end.wire, s2c := sys.s2c + o.sent)
  }

  const NoApp := App([], [], false, false)

  function Init(): Sys {
    Sys(Fresh(true), Fresh(false), NoApp, NoApp, [], [])
  }

  // ----- what the code relies on -----------------------------------------------------------------

  /** Packets on their way to an endpoint, in arrival order. */
  function Inbound(netQ: seq<Packet>, wire: seq<Packet>): seq<Packet> {
    netQ + wire
  }

  /** Anything that is neither an ACK nor a FIN goes to the data branch. */
  predicate IsData(p: Packet) {
    p.flags != TH_ACK && p.flags != TH_FIN
  }

  /** Bytes that reached the application's side of an endpoint, read or not. */
  function Received(e: Endpoint, a: App): seq<byte> {
    a.read + Flat(e.appSendQ)
  }

  /** The third handshake packet is not part of the data stream; until it arrives the server is
      seen as if it had just been established. */
  function Strip(sys: Sys): Sys {
    var c := if InLoop(sys.c) then sys.c else Establish(sys.c.(netQ := []));
    var s2c := if InLoop(sys.c) then sys.s2c else [];
    if InLoop(sys.s) then sys.(c := c, s2c := s2c)
    else if !InLoop(sys.c) then
      Sys(c, Establish(sys.s.(netQ := [])), sys.ca, sys.sa, [], s2c)
    else if sys.s.netQ != [] then
      Sys(c, Establish(sys.s.(netQ := sys.s.netQ[1..])), sys.ca, sys.sa, sys.c2s, s2c)
    else
      Sys(c, Establish(sys.s), sys.ca, sys.sa, if sys.c2s == [] then [] else sys.c2s[1..], s2c)
  }

  predicate NoData(ch: seq<Packet>) {
    forall p <- ch :: !IsData(p)
  }

  /** When the client application may call myclose: all it wrote is acknowledged and all the server
      wrote has arrived. With empty writes allowed, their segments must have been answered too. */
  predicate ClientMayClose(nonEmpty: bool, sys: Sys) {
    && sys.c.appRecvQ == []
    && sys.c.sendBase == sys.c.next
    && Received(sys.c, sys.ca) == sys.sa.written
    && (nonEmpty || (
          var v := Strip(sys);
          && Inbound(v.c.netQ, v.s2c) == []
          && NoData(Inbound(v.s.netQ, v.c2s))
          && v.s.appRecvQ == []))
  }

  /** How the applications must behave. `nonEmpty`: every mywrite carries at least one byte. */
  predicate Disciplined(nonEmpty: bool, sys: Sys, step: Step) {
    match step.action
    case DoWrite(data) =>
      && (nonEmpty ==> data != [])
      && |EndOf(sys, step.client).a.written| + |data| < W32 - 2
      && !sys.ca.closed
    case DoRead(max) => max > 0
    case DoClose =>
      if step.client then ClientMayClose(nonEmpty, sys) else sys.sa.eof
    case _ => true
  }

  /** Executions: each step is enabled and respects the discipline. */
  ghost predicate Run(nonEmpty: bool, start: Sys, steps: seq<Step>, end: Sys)
    decreases |steps|
  {
    if steps == [] then start == end
    else
      && CanStep(start, steps[0])
      && Disciplined(nonEmpty, start, steps[0])
      && Run(nonEmpty, After(start, steps[0]), steps[1..], end)
  }

  /** Any run without discipline: just enabled steps. */
  ghost predicate FreeRun(start: Sys, steps: seq<Step>, end: Sys)
    decreases |steps|
  {
    if steps == [] then start == end
    else CanStep(start, steps[0]) && FreeRun(After(start, steps[0]), steps[1..], end)
  }
}
