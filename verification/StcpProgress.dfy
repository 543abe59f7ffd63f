/** Nothing gets stuck: as long as nobody has closed, all that was written can still reach the other end. */
module StcpProgress {
  import opened Bytes
  import opened PacketQueueSpec
  import opened StcpTypes
  import opened StcpSteps
  import opened StcpSystem
  import opened StcpChannel
  import opened StcpLink
  import opened StcpInvariant
  import opened StcpStages
  import opened StcpHandshake
  import opened StcpTheorems
  import opened StcpOrderly

  // ----- through the handshake ------------------------------------------------------------------------

  /** How far an end is from control_loop. */
  function ShakeRank(e: Endpoint): nat {
    match e.pc
    case Boot => 7
    case Shake => (if e.conn == Listen then 4 else 2) + (if e.netQ == [] then 1 else 0)
    case _ => 0
  }

  /** The steps of the transport threads and the receive threads; no application acts. */
  predicate Internal(action: Action) {
    action.DoBoot? || action.DoShake? || action.DoDeliver? || action.DoStage?
  }

  /** Before the client is established. */
  lemma EarlyMoves(v: Sys) returns (step: Step)
    requires Early(v.c, v.s, ToClient(v), ToServer(v)) && v.c.pc != Boot && v.s.pc != Boot
    ensures CanStep(v, step) && Internal(step.action)
    ensures var w := After(v, step); ShakeRank(w.c) + ShakeRank(w.s) < ShakeRank(v.c) + ShakeRank(v.s)
    ensures After(v, step).ca == v.ca && After(v, step).sa == v.sa
  {
    EarlyNotInLoop(v.c, v.s, ToClient(v), ToServer(v));
    EarlyShakes(v);
    ShakingMoves(v, v.s.conn != Listen);
    var client := v.s.conn != Listen;
    step := Step(client, if EndOf(v, client).e.netQ == [] then DoDeliver else DoShake);
    hide After, ShakeRank, CanStep;
  }

  lemma EarlyShakes(v: Sys)
    requires Early(v.c, v.s, ToClient(v), ToServer(v)) && v.c.pc != Boot && v.s.pc != Boot
    ensures var x := EndOf(v, v.s.conn != Listen);
            && x.e.Running() && x.e.pc == Shake && (x.e.conn == SynSent || x.e.conn == Listen)
            && Inbound(x.e.netQ, x.wire) != [] && (x.e.netQ != [] ==> x.e.netQ[0].payload == [])
  {
    var x := EndOf(v, v.s.conn != Listen);
    assert x.e.netQ != [] ==> Inbound(x.e.netQ, x.wire)[0] == x.e.netQ[0];
  }

  /** An end that waits in the handshake loop with a packet on its way takes it, or has it delivered. */
  lemma ShakingMoves(v: Sys, client: bool)
    ensures var x := EndOf(v, client); var step := Step(client, if x.e.netQ == [] then DoDeliver else DoShake);
            x.e.Running() && x.e.pc == Shake && (x.e.conn == SynSent || x.e.conn == Listen || x.e.conn == SynRcvd) && Inbound(x.e.netQ, x.wire) != []
            && (x.e.netQ != [] ==> x.e.netQ[0].payload == []) ==>
              && CanStep(v, step)
              && After(v, step).ca == v.ca && After(v, step).sa == v.sa
              && var w := After(v, step); ShakeRank(w.c) + ShakeRank(w.s) < ShakeRank(v.c) + ShakeRank(v.s)
  {
    hide Zeros, Wrap32;
  }

  /** Some step of the handshake brings it closer to its end. */
  lemma HandshakeMoves(v: Sys) returns (step: Step)
    requires Handshake(v) && !(InLoop(v.c) && InLoop(v.s))
    ensures CanStep(v, step) && Internal(step.action)
    ensures var w := After(v, step); ShakeRank(w.c) + ShakeRank(w.s) < ShakeRank(v.c) + ShakeRank(v.s)
    ensures After(v, step).ca == v.ca && After(v, step).sa == v.sa
  {
    hide Zeros, ShakeRank, After, CanStep;
    if v.c.pc == Boot || v.s.pc == Boot {
      step := Step(v.c.pc == Boot, DoBoot);
      BootMoves(v, step.client);
    } else if Early(v.c, v.s, ToClient(v), ToServer(v)) {
      step := EarlyMoves(v);
    } else {
      step := if v.s.netQ == [] then Step(false, DoDeliver) else Step(false, DoShake);
      LateShakes(v);
      ShakingMoves(v, false);
    }
  }

  lemma BootMoves(v: Sys, client: bool)
    requires EndOf(v, client).e.pc == Boot && EndOf(v, client).e.Running()
    ensures var step := Step(client, DoBoot);
            && CanStep(v, step) && After(v, step).ca == v.ca && After(v, step).sa == v.sa
            && var w := After(v, step); ShakeRank(w.c) + ShakeRank(w.s) < ShakeRank(v.c) + ShakeRank(v.s)
  {
  }

  lemma LateShakes(v: Sys)
    requires Late(v.c, v.s, ToServer(v))
    ensures v.s.Running() && v.s.pc == Shake && v.s.conn == SynRcvd
    ensures Inbound(v.s.netQ, v.c2s) != [] && (v.s.netQ != [] ==> v.s.netQ[0].payload == [])
  {
    assert v.s.netQ != [] ==> Inbound(v.s.netQ, v.c2s)[0] == v.s.netQ[0];
  }

  lemma InternalDisciplined(nonEmpty: bool, v: Sys, step: Step)
    requires Internal(step.action)
    ensures Disciplined(nonEmpty, v, step)
  {
  }

  /** What a continuation leaves to the applications. */
  predicate AppsUntouched(v: Sys, w: Sys) {
    w.ca.written == v.ca.written && w.sa.written == v.sa.written && w.ca.closed == v.ca.closed && w.sa.closed == v.sa.closed
  }

  lemma RunCons(nonEmpty: bool, v: Sys, step: Step, rest: seq<Step>, w: Sys)
    requires CanStep(v, step) && Internal(step.action) && Run(nonEmpty, After(v, step), rest, w)
    ensures Run(nonEmpty, v, [step] + rest, w)
  {
    InternalDisciplined(nonEmpty, v, step);
    assert ([step] + rest)[1..] == rest;
    hide CanStep, After, Disciplined;
  }

  lemma {:induction false} FinishHandshake(nonEmpty: bool, v: Sys) returns (steps: seq<Step>, w: Sys)
    requires Inv(nonEmpty, v)
    ensures Run(nonEmpty, v, steps, w) && Inv(nonEmpty, w) && InLoop(w.c) && InLoop(w.s) && AppsUntouched(v, w)
    decreases ShakeRank(v.c) + ShakeRank(v.s)
  {
    if InLoop(v.c) && InLoop(v.s) {
      steps, w := [], v;
    } else {
      hide ShakeRank, CanStep, After, Core, Strip, Disciplined, Run, Handshake;
      var step := HandshakeMoves(v);
      InternalDisciplined(nonEmpty, v, step);
      StepKeepsInv(nonEmpty, v, step);
      hide Inv;
      var rest: seq<Step>;
      rest, w := FinishHandshake(nonEmpty, After(v, step));
      RunCons(nonEmpty, v, step, rest, w);
      steps := [step] + rest;
    }
  }

  // ----- what is left to do ---------------------------------------------------------------------------

  /** A segment costs its taking and its answer's; on the wire each has its delivery to come as well. */
  function Cost(p: Packet): nat {
    if p.flags == TH_ACK then 1 else 4
  }

  function CostOf(ch: seq<Packet>, each: nat): nat {
    if ch == [] then 0 else Cost(ch[0]) + each + CostOf(ch[1..], each)
  }

  lemma {:induction false} CostPush(ch: seq<Packet>, p: Packet, each: nat)
    ensures CostOf(ch + [p], each) == CostOf(ch, each) + Cost(p) + each
  {
    if ch == [] {
      assert CostOf([p][1..], each) == 0;
    } else {
      assert (ch + [p])[0] == ch[0] && (ch + [p])[1..] == ch[1..] + [p];
      CostPush(ch[1..], p, each);
    }
  }

  /** Bytes and blocks that wait to be sent. */
  function Unsent(e: Endpoint): nat {
    |Flat(e.appRecvQ)| + |e.appRecvQ|
  }

  function Load(x: End): nat {
    8 * Unsent(x.e) + CostOf(x.e.netQ, 0) + CostOf(x.wire, 1)
  }

  /** A round that has something to do ranks below the loop test, one that has not above it. */
  function RoundRank(e: Endpoint): nat {
    match e.pc
    case Wait => 4
    case AppStage(ev) => if ev.net || (ev.app && e.rem > 0) then 3 else 8
    case NetStage(ev) => if ev.net then 2 else 7
    case _ => 6
  }

  function Work(u: Sys): nat {
    10 * (Load(EndOf(u, true)) + Load(EndOf(u, false))) + RoundRank(u.c) + RoundRank(u.s)
  }

  /** The end can do something useful: it is inside a round, or a round would send or take a packet. */
  predicate Useful(x: End) {
    x.e.pc != Wait || x.e.netQ != [] || (x.e.appRecvQ != [] && x.e.rem > 0)
  }

  /** A stage of a useful end, while nobody has closed. */
  lemma StageWorks(x: End, a: App)
    requires StageEnabled(x.e) && EventsHold(x.e) && InLoop(x.e) && !Pending(x.e) && x.e.conn == Established && x.e.pc != Exit
    requires Useful(x) && Windowed(x.e)
    requires x.e.netQ != [] ==> WellShaped(false, x.e.netQ[0]) && x.e.netQ[0].flags != TH_FIN
    ensures var f := StageStep(x.e); var y := x.(e := f.e);
            10 * (Load(y) + CostOf(f.sent, 1)) + RoundRank(f.e) < 10 * Load(x) + RoundRank(x.e)
  {
    var e := x.e;
    match e.pc
    case Wait =>
      assert StageStep(e) == Effect(WaitStep(e), []);
      hide Windowed;
    case AppStage(ev) =>
      if ev.app {
        SendWorks(e);
      }
      hide SendData, CostOf, Windowed;
      assert CostOf([], 1) == 0 by { NoCost(); }
    case NetStage(ev) =>
      if ev.net {
        TakeWorks(e);
      }
      hide RecvPacket, CostOf, Windowed;
      assert CostOf([], 1) == 0 by { NoCost(); }
    case CloseStage(ev) =>
      hide Windowed;
    case _ =>
  }

  lemma NoCost()
    ensures CostOf([], 1) == 0 && CostOf([], 0) == 0
  {
  }

  lemma SendWorks(e: Endpoint)
    requires e.appRecvQ != [] && Windowed(e)
    ensures var f := SendData(e);
            && f.e == e.(appRecvQ := f.e.appRecvQ, next := f.e.next, rem := f.e.rem, buffer := f.e.buffer)
            && (if e.rem == 0 then f == Effect(e, [])
                else 8 * Unsent(f.e) + CostOf(f.sent, 1) < 8 * Unsent(e))
  {
    SendDataKeepsWindow(e);
    if e.rem > 0 {
      var t := TakePartial(e.appRecvQ, Min(e.rem, MSS));
      TakeSplits(e.appRecvQ, Min(e.rem, MSS));
      assert |t.rest| == |e.appRecvQ| - 1 || (|t.rest| == |e.appRecvQ| && |t.bytes| > 0);
      CostPush([], SendData(e).sent[0], 1);
      assert [] + SendData(e).sent == SendData(e).sent;
    }
    hide SendData, Flat, CostOf, Windowed;
  }

  lemma TakeWorks(e: Endpoint)
    requires e.netQ != [] && WellShaped(false, e.netQ[0]) && e.netQ[0].flags != TH_FIN
    ensures var f := RecvPacket(e);
            && f.e.netQ == e.netQ[1..] && f.e.appRecvQ == e.appRecvQ && f.e.conn == e.conn && f.e.pc == e.pc && f.e.done == e.done
            && CostOf(f.e.netQ, 0) + CostOf(f.sent, 1) < CostOf(e.netQ, 0)
  {
    var f := RecvPacket(e);
    RecvAckFrame(e.(netQ := e.netQ[1..]), e.netQ[0]);
    NoCost();
    if e.netQ[0].flags != TH_ACK {
      CostPush([], f.sent[0], 1);
      assert [] + f.sent == f.sent;
    }
    hide RecvAck;
  }

  // ----- draining -------------------------------------------------------------------------------------

  /** Every byte has reached its reader's end. */
  predicate AllArrived(w: Sys) {
    Received(w.s, w.sa) == w.ca.written && Received(w.c, w.ca) == w.sa.written
  }

  ghost predicate Open(nonEmpty: bool, u: Sys) {
    Core(nonEmpty, u) && !u.ca.closed && !u.sa.closed
  }

  /** What the invariant says of an end while nobody has closed. */
  lemma OpenEnd(nonEmpty: bool, u: Sys, client: bool)
    requires Open(nonEmpty, u)
    ensures var x := EndOf(u, client);
            && EventsHold(x.e) && InLoop(x.e) && !Pending(x.e) && x.e.conn == Established && x.e.pc != Exit && Windowed(x.e)
            && (x.e.netQ != [] ==> WellShaped(false, x.e.netQ[0]) && x.e.netQ[0].flags != TH_FIN)
  {
    WindowedOf(nonEmpty, u);
    PhaseOpenIfNotClosed(nonEmpty, u);
    ShapedOf(nonEmpty, u);
    var x := EndOf(u, client);
    if x.e.netQ != [] {
      RecvKeepsInboundAt(u, client);
      assert Towards(u, client)[0] in Towards(u, client);
    }
    hide Link, Phase, Windowed;
  }

  /** If neither end is useful and nothing is on the wires, all has arrived. */
  lemma IdleIsDone(nonEmpty: bool, u: Sys)
    requires Open(nonEmpty, u) && !Useful(EndOf(u, true)) && !Useful(EndOf(u, false)) && u.c2s == [] && u.s2c == []
    ensures AllArrived(u)
  {
    PhaseOpenIfNotClosed(nonEmpty, u);
    OpenEnd(nonEmpty, u, true);
    OpenEnd(nonEmpty, u, false);
    assert ToClient(u) == [] && ToServer(u) == [];
    NotFull(nonEmpty, u);
    hide Phase, Direction;
    assert Conserved(u) by { CoreConserves(nonEmpty, u); }
  }

  lemma CoreConserves(nonEmpty: bool, u: Sys)
    requires Core(nonEmpty, u)
    ensures Conserved(u)
  {
    hide Phase, Windowed, Numbered, AllShaped, EofMarked, Buffered, Acks;
  }

  lemma NotFull(nonEmpty: bool, u: Sys)
    requires Open(nonEmpty, u) && ToClient(u) == [] && ToServer(u) == []
    ensures u.c.rem > 0 && u.s.rem > 0
  {
    PhaseAcks(SideOf(u.c, u.ca), SideOf(u.s, u.sa), ToClient(u), ToServer(u));
    PhaseOpenIfNotClosed(nonEmpty, u);
    hide Phase, Direction, Numbered;
    FullMeansInFlight(nonEmpty, u.c, u.ca, u.s, u.sa, ToClient(u), ToServer(u));
    FullMeansInFlight(nonEmpty, u.s, u.sa, u.c, u.ca, ToServer(u), ToClient(u));
  }

  lemma StageEnabledFor(x: End)
    requires EventsHold(x.e) && InLoop(x.e) && !Pending(x.e) && x.e.conn == Established && x.e.pc != Exit && Useful(x)
    ensures StageEnabled(x.e)
  {
  }

  lemma SentCosts(wire: seq<Packet>, sent: seq<Packet>)
    requires |sent| <= 1
    ensures CostOf(wire + sent, 1) == CostOf(wire, 1) + CostOf(sent, 1)
  {
    NoCost();
    if sent == [] {
      assert wire + sent == wire;
    } else {
      CostPush(wire, sent[0], 1);
      CostPush([], sent[0], 1);
      assert [] + [sent[0]] == [sent[0]] == sent;
    }
    hide CostOf;
  }

  lemma DrainStage(nonEmpty: bool, u: Sys, client: bool)
    requires Open(nonEmpty, u) && Useful(EndOf(u, client))
    ensures var step := Stage(client); CanStep(u, step) && Work(After(u, step)) < Work(u)
    ensures After(u, Stage(client)).ca == u.ca && After(u, Stage(client)).sa == u.sa
  {
    var x := EndOf(u, client);
    OpenEnd(nonEmpty, u, client);
    StageEnabledFor(x);
    StageWorks(x, x.a);
    StageIs(u, client);
    AtMostOne(x.e);
    hide Open, StageStep, Useful, RoundRank, StageEnabled, Windowed, EventsHold, Unsent;
    SentCosts(EndOf(u, !client).wire, StageStep(x.e).sent);
    hide CostOf;
  }

  lemma AtMostOne(e: Endpoint)
    requires StageEnabled(e)
    ensures |StageStep(e).sent| <= 1
  {
    hide Wrap32, Wrap64, TakePartial, Splice, RecvAck;
  }

  lemma DrainDeliver(u: Sys, client: bool)
    requires EndOf(u, client).wire != [] && EndOf(u, client).e.Running()
    ensures var step := Step(client, DoDeliver); CanStep(u, step) && Work(After(u, step)) < Work(u)
    ensures After(u, Step(client, DoDeliver)).ca == u.ca && After(u, Step(client, DoDeliver)).sa == u.sa
  {
    var x := EndOf(u, client);
    AfterIs(u, Step(client, DoDeliver));
    CostPush(x.e.netQ, x.wire[0], 0);
    assert u.c2s + [] == u.c2s && u.s2c + [] == u.s2c;
    hide After, Unsent;
  }

  lemma {:induction false} Drain(nonEmpty: bool, u: Sys) returns (steps: seq<Step>, w: Sys)
    requires Open(nonEmpty, u)
    ensures Run(nonEmpty, u, steps, w) && AllArrived(w) && AppsUntouched(u, w)
    decreases Work(u)
  {
    var step: Step;
    if EndOf(u, true).wire != [] {
      step := Step(true, DoDeliver);
      DrainDeliver(u, true);
    } else if EndOf(u, false).wire != [] {
      step := Step(false, DoDeliver);
      DrainDeliver(u, false);
    } else if Useful(EndOf(u, true)) {
      step := Stage(true);
      DrainStage(nonEmpty, u, true);
    } else if Useful(EndOf(u, false)) {
      step := Stage(false);
      DrainStage(nonEmpty, u, false);
    } else {
      IdleIsDone(nonEmpty, u);
      return [], u;
    }
    hide Core, CanStep, After, Work, Run, Useful, AllArrived, Disciplined;
    InternalDisciplined(nonEmpty, u, step);
    StepKeepsCore(nonEmpty, u, step);
    var rest: seq<Step>;
    rest, w := Drain(nonEmpty, After(u, step));
    RunCons(nonEmpty, u, step, rest, w);
    steps := [step] + rest;
  }

  /**
   * From every state of a disciplined run in which nobody has closed there is a continuation, without
   * any further act of the applications, after which each end has all that its peer wrote.
   */
  lemma EverythingCanArrive(nonEmpty: bool, before: seq<Step>, v: Sys) returns (steps: seq<Step>, w: Sys)
    requires Reached(nonEmpty, before, v) && !v.ca.closed && !v.sa.closed
    ensures Run(nonEmpty, v, steps, w) && AllArrived(w) && AppsUntouched(v, w)
  {
    ReachedInv(nonEmpty, before, v);
    hide Run, Core, AllArrived, Handshake, Reached;
    var first, u := FinishHandshake(nonEmpty, v);
    assert Strip(u) == u;
    var rest: seq<Step>;
    rest, w := Drain(nonEmpty, u);
    RunConcat(nonEmpty, v, first, u, rest, w);
    steps := first + rest;
  }
}
