/** The three-way handshake, and the invariant of whole runs from the initial state. */
module StcpHandshake {
  import opened Bytes
  import opened StcpTypes
  import opened StcpSteps
  import opened StcpSystem
  import opened StcpLink
  import opened StcpInvariant
  import opened StcpStages

  const Syn := Packet(1, 0, 0x02, [])
  const SynAck := Packet(1, 2, 0x02, [])
  const LastOfThree := Packet(2, 2, 0x02, [])

  predicate Booting(e: Endpoint, isClient: bool) {
    e == Fresh(isClient).(netQ := e.netQ)
  }

  predicate Shaking(e: Endpoint, isClient: bool, conn: CState) {
    e == Fresh(isClient).(conn := conn, pc := Shake, netQ := e.netQ)
  }

  predicate ServerWaits(s: Endpoint) {
    Booting(s, false) || Shaking(s, false, Listen)
  }

  predicate BeforeSyn(c: Endpoint, s: Endpoint, ic: seq<Packet>, is_: seq<Packet>) {
    Booting(c, true) && ServerWaits(s) && ic == [] && is_ == []
  }

  predicate SynInFlight(c: Endpoint, s: Endpoint, ic: seq<Packet>, is_: seq<Packet>) {
    Shaking(c, true, SynSent) && ServerWaits(s) && ic == [] && is_ == [Syn]
  }

  predicate SynAckInFlight(c: Endpoint, s: Endpoint, ic: seq<Packet>, is_: seq<Packet>) {
    Shaking(c, true, SynSent) && Shaking(s, false, SynRcvd) && ic == [SynAck] && is_ == []
  }

  predicate Early(c: Endpoint, s: Endpoint, ic: seq<Packet>, is_: seq<Packet>) {
    BeforeSyn(c, s, ic, is_) || SynInFlight(c, s, ic, is_) || SynAckInFlight(c, s, ic, is_)
  }

  /** The client is established; the server still has to take the third packet. */
  predicate Late(c: Endpoint, s: Endpoint, is_: seq<Packet>) {
    InLoop(c) && Shaking(s, false, SynRcvd) && is_ != [] && is_[0] == LastOfThree
  }

  /** Which handshake packets are in flight. */
  predicate Handshake(v: Sys) {
    || (InLoop(v.c) && InLoop(v.s))
    || (Late(v.c, v.s, ToServer(v)) && v.sa == NoApp)
    || (Early(v.c, v.s, ToClient(v), ToServer(v)) && v.ca == NoApp && v.sa == NoApp)
  }

  /** The invariant of every disciplined run. */
  ghost predicate Inv(nonEmpty: bool, v: Sys) {
    Handshake(v) && Core(nonEmpty, Strip(v))
  }

  function BothEstablished(): Sys {
    Sys(Establish(Fresh(true)), Establish(Fresh(false)), NoApp, NoApp, [], [])
  }

  lemma FreshDirection(nonEmpty: bool, client: bool)
    ensures Direction(nonEmpty, Establish(Fresh(client)), NoApp, Establish(Fresh(!client)), NoApp, [], [])
  {
    var x, y := Establish(Fresh(client)), Establish(Fresh(!client));
    assert |x.buffer| == MSS;
    assert x.buffer[..0] == [];
    hide Zeros;
    assert Windowed(x);
    assert Stream(nonEmpty, x, NoApp, y, NoApp, []);
  }

  lemma FreshSides()
    ensures var c, s := Establish(Fresh(true)), Establish(Fresh(false));
            && Sound(c, true) && Sound(s, false) && c.netQ == [] && s.netQ == []
            && PhaseOpen(SideOf(c, NoApp), SideOf(s, NoApp), [], [])
  {
    hide Zeros;
  }

  lemma FreshCore(nonEmpty: bool)
    ensures Core(nonEmpty, BothEstablished())
  {
    FreshDirection(nonEmpty, true);
    FreshDirection(nonEmpty, false);
    FreshSides();
    hide Direction;
    hide Establish;
    hide Sound;
    hide SideOf;
    hide PhaseOpen;
    var v := BothEstablished();
    assert ToClient(v) == [] && ToServer(v) == [];
  }

  lemma InitInv(nonEmpty: bool)
    ensures Inv(nonEmpty, Init())
  {
    FreshCore(nonEmpty);
    hide Core;
    assert BeforeSyn(Init().c, Init().s, ToClient(Init()), ToServer(Init()));
    EarlyStrip(Init());
  }

  lemma EarlyNotInLoop(c: Endpoint, s: Endpoint, ic: seq<Packet>, is_: seq<Packet>)
    requires Early(c, s, ic, is_)
    ensures !InLoop(c) && !InLoop(s)
  {
  }

  /** Before the client is established the data invariant is that of two fresh connections. */
  lemma EarlyStrip(v: Sys)
    requires Early(v.c, v.s, ToClient(v), ToServer(v)) && v.ca == NoApp && v.sa == NoApp
    ensures Strip(v) == BothEstablished()
  {
    EarlyNotInLoop(v.c, v.s, ToClient(v), ToServer(v));
    hide Zeros;
  }

  lemma EarlyInv(nonEmpty: bool, v: Sys)
    requires Early(v.c, v.s, ToClient(v), ToServer(v)) && v.ca == NoApp && v.sa == NoApp
    ensures Inv(nonEmpty, v)
  {
    FreshCore(nonEmpty);
    EarlyStrip(v);
  }

  /** A packet that moves from the wire to the receive queue stays where it is in the order. */
  lemma EarlyDeliver(v: Sys, client: bool)
    requires Early(v.c, v.s, ToClient(v), ToServer(v)) && CanStep(v, Step(client, DoDeliver))
    ensures var w := After(v, Step(client, DoDeliver));
            Early(w.c, w.s, ToClient(w), ToServer(w)) && w.ca == v.ca && w.sa == v.sa
  {
    var x := EndOf(v, client);
    assert x.wire == [x.wire[0]] + x.wire[1..];
    AfterIs(v, Step(client, DoDeliver));
    hide After;
    var w := Put(v, client, Act(x, DoDeliver));
    assert ToClient(w) == ToClient(v) && ToServer(w) == ToServer(v);
    assert w.c == v.c.(netQ := w.c.netQ) && w.s == v.s.(netQ := w.s.netQ);
    hide Act;
    hide Put;
  }

  lemma EarlyBoot(v: Sys, client: bool)
    requires Early(v.c, v.s, ToClient(v), ToServer(v)) && CanStep(v, Step(client, DoBoot))
    ensures var w := After(v, Step(client, DoBoot));
            Early(w.c, w.s, ToClient(w), ToServer(w)) && w.ca == v.ca && w.sa == v.sa
  {
    hide After, Inbound;
    var x := EndOf(v, client);
    var f := BootStep(x.e);
    AfterIs(v, Step(client, DoBoot));
    var w := Put(v, client, Outcome(x.(e := f.e), f.sent));
    SendKeepsInbound(v.s.netQ, v.c2s, f.sent);
    SendKeepsInbound(v.c.netQ, v.s2c, f.sent);
    if client {
      assert BeforeSyn(v.c, v.s, ToClient(v), ToServer(v)) && f.sent == [Syn];
      assert SynInFlight(w.c, w.s, ToClient(w), ToServer(w));
    }
  }

  lemma ServerTakesSyn(v: Sys)
    requires Early(v.c, v.s, ToClient(v), ToServer(v)) && CanStep(v, Step(false, DoShake))
    ensures var w := After(v, Step(false, DoShake));
            Early(w.c, w.s, ToClient(w), ToServer(w)) && w.ca == v.ca && w.sa == v.sa
  {
    RecvKeepsInbound(v.s.netQ, v.c2s);
    assert SynInFlight(v.c, v.s, ToClient(v), ToServer(v)) && Shaking(v.s, false, Listen);
    var f := ShakeStep(v.s);
    assert f.sent == [SynAck];
    AfterIs(v, Step(false, DoShake));
    hide After;
    SendKeepsInbound(v.c.netQ, v.s2c, f.sent);
    var w := Put(v, false, Outcome(End(f.e, v.sa, v.c2s), f.sent));
    assert SynAckInFlight(w.c, w.s, ToClient(w), ToServer(w));
  }

  /** The client's step to ESTABLISHED: what it leaves in flight is the third packet alone. */
  lemma ClientTakesSynAck(nonEmpty: bool, v: Sys)
    requires Early(v.c, v.s, ToClient(v), ToServer(v)) && v.ca == NoApp && v.sa == NoApp
    requires CanStep(v, Step(true, DoShake))
    ensures Inv(nonEmpty, After(v, Step(true, DoShake)))
  {
    RecvKeepsInbound(v.c.netQ, v.s2c);
    assert SynAckInFlight(v.c, v.s, ToClient(v), ToServer(v));
    var f := ShakeStep(v.c);
    assert f.sent == [LastOfThree] && f.e == Establish(Fresh(true));
    AfterIs(v, Step(true, DoShake));
    hide After;
    var w := Put(v, true, Outcome(End(f.e, v.ca, v.s2c), f.sent));
    hide Zeros;
    assert Late(w.c, w.s, ToServer(w));
    assert Strip(w) == BothEstablished();
    FreshCore(nonEmpty);
    hide Core;
  }

  lemma EarlyKeepsInv(nonEmpty: bool, v: Sys, step: Step)
    requires Early(v.c, v.s, ToClient(v), ToServer(v)) && v.ca == NoApp && v.sa == NoApp
    requires CanStep(v, step)
    ensures Inv(nonEmpty, After(v, step))
  {
    EarlyNotInLoop(v.c, v.s, ToClient(v), ToServer(v));
    assert step.action == DoDeliver || step.action == DoBoot || step.action == DoShake;
    hide Early;
    hide After;
    if step.action == DoDeliver {
      EarlyDeliver(v, step.client);
      EarlyInv(nonEmpty, After(v, step));
    } else if step.action == DoBoot {
      EarlyBoot(v, step.client);
      EarlyInv(nonEmpty, After(v, step));
    } else if step.client {
      ClientTakesSynAck(nonEmpty, v);
    } else {
      ServerTakesSyn(v);
      EarlyInv(nonEmpty, After(v, step));
    }
  }

  /** Moving a packet to the server's queue is invisible, or it is the same move without the third packet. */
  lemma StripDeliver(v: Sys)
    requires Late(v.c, v.s, ToServer(v)) && v.c2s != []
    ensures var w := v.(s := v.s.(netQ := v.s.netQ + [v.c2s[0]]), c2s := v.c2s[1..]); var u := Strip(v);
            && Late(w.c, w.s, ToServer(w))
            && if v.s.netQ == [] then Strip(w) == u
               else u.c2s == v.c2s && Strip(w) == u.(s := u.s.(netQ := u.s.netQ + [u.c2s[0]]), c2s := u.c2s[1..])
  {
    hide Zeros;
    assert v.c2s == [v.c2s[0]] + v.c2s[1..];
    var w := v.(s := v.s.(netQ := v.s.netQ + [v.c2s[0]]), c2s := v.c2s[1..]);
    assert ToServer(w) == ToServer(v);
    if v.s.netQ == [] {
      assert w.s.netQ[1..] == [];
    } else {
      assert w.s.netQ[1..] == v.s.netQ[1..] + [v.c2s[0]];
    }
  }

  lemma DeliverIs(v: Sys)
    requires v.s.Running() && v.c2s != []
    ensures After(v, Step(false, DoDeliver)) == v.(s := v.s.(netQ := v.s.netQ + [v.c2s[0]]), c2s := v.c2s[1..])
  {
    assert v.s2c + [] == v.s2c;
  }

  lemma LateCanDeliver(v: Sys)
    ensures CanStep(v, Step(false, DoDeliver)) <==> v.s.Running() && v.c2s != []
  {
  }

  lemma LateDeliver(nonEmpty: bool, v: Sys)
    requires Late(v.c, v.s, ToServer(v)) && v.sa == NoApp && Core(nonEmpty, Strip(v))
    requires CanStep(v, Step(false, DoDeliver))
    ensures Inv(nonEmpty, After(v, Step(false, DoDeliver)))
  {
    hide After, Core, Late, Strip;
    LateCanDeliver(v);
    StripDeliver(v);
    DeliverIs(v);
    var u := Strip(v);
    if v.s.netQ != [] {
      StripFlags(v);
      DeliverIs(u);
      DeliverKeepsCore(nonEmpty, u, false);
    }
  }

  lemma StripFlags(v: Sys)
    ensures Strip(v).s.fault == v.s.fault && Strip(v).s.overread == v.s.overread
    ensures Strip(v).c.fault == v.c.fault && Strip(v).c.overread == v.c.overread && Strip(v).c.done == v.c.done
  {
    hide Zeros;
  }

  lemma ServerTakesLast(nonEmpty: bool, v: Sys)
    requires Late(v.c, v.s, ToServer(v)) && v.sa == NoApp && Core(nonEmpty, Strip(v))
    requires CanStep(v, Step(false, DoShake))
    ensures Inv(nonEmpty, After(v, Step(false, DoShake)))
  {
    hide After, Core, Zeros, Strip;
    AfterIs(v, Step(false, DoShake));
    var f := ShakeStep(v.s);
    assert f == Effect(Establish(v.s.(netQ := v.s.netQ[1..])), []);
    assert v.s2c + [] == v.s2c;
    StripTaken(v);
    hide ShakeStep, Establish;
  }

  lemma StripTaken(v: Sys)
    requires Late(v.c, v.s, ToServer(v)) && v.s.netQ != []
    ensures Strip(v) == v.(s := Establish(v.s.(netQ := v.s.netQ[1..])))
    ensures Strip(Strip(v)) == Strip(v)
  {
    hide Zeros;
  }

  lemma ActStaysInLoop(x: End, action: Action)
    requires InLoop(x.e) && Enabled(x, action)
    ensures InLoop(Act(x, action).end.e)
  {
  }

  /** Forgetting the third packet commutes with a step of the client. */
  lemma StripPut(v: Sys, o: Outcome)
    requires Late(v.c, v.s, ToServer(v)) && InLoop(o.end.e)
    ensures Strip(Put(v, true, o)) == Put(Strip(v), true, o)
    ensures Late(Put(v, true, o).c, Put(v, true, o).s, ToServer(Put(v, true, o)))
  {
    hide Establish;
    SendKeepsInbound(v.s.netQ, v.c2s, o.sent);
    assert !InLoop(v.s);
    if v.s.netQ == [] { assert (v.c2s + o.sent)[1..] == v.c2s[1..] + o.sent; }
  }

  lemma StripStrip(v: Sys, step: Step)
    requires Late(v.c, v.s, ToServer(v)) && step.client
    ensures Strip(Strip(v)) == Strip(v)
    ensures EndOf(Strip(v), true) == EndOf(v, true)
    ensures Strip(v).sa == v.sa && Strip(v).ca == v.ca
  {
  }

  lemma DisciplineStrip(nonEmpty: bool, v: Sys, step: Step)
    requires Late(v.c, v.s, ToServer(v)) && step.client && CanStep(v, step) && Disciplined(nonEmpty, v, step)
    ensures CanStep(Strip(v), step) && Disciplined(nonEmpty, Strip(v), step)
  {
    StripStrip(v, step);
    hide Strip;
    hide Enabled;
    hide Late;
  }

  /** A step of the established client while the server is still in the handshake. */
  lemma ClientRunsAhead(nonEmpty: bool, v: Sys, step: Step)
    requires Late(v.c, v.s, ToServer(v)) && v.sa == NoApp && Core(nonEmpty, Strip(v))
    requires step.client && CanStep(v, step) && Disciplined(nonEmpty, v, step)
    ensures Inv(nonEmpty, After(v, step))
  {
    var u := Strip(v);
    StripStrip(v, step);
    DisciplineStrip(nonEmpty, v, step);
    hide Disciplined;
    hide Core;
    StepKeepsCore(nonEmpty, u, step);
    AfterIs(v, step);
    AfterIs(u, step);
    ActStaysInLoop(EndOf(v, true), step.action);
    hide After;
    hide Act;
    StripPut(v, Act(EndOf(v, true), step.action));
    hide Strip;
    hide Late;
  }

  lemma BothInLoop(nonEmpty: bool, w: Sys)
    requires Core(nonEmpty, w)
    ensures Inv(nonEmpty, w)
  {
    hide Link;
    hide Phase;
    assert InLoop(w.c) && InLoop(w.s);
    assert Strip(w) == w;
  }

  lemma StepKeepsInv(nonEmpty: bool, v: Sys, step: Step)
    requires Inv(nonEmpty, v) && CanStep(v, step) && Disciplined(nonEmpty, v, step)
    ensures Inv(nonEmpty, After(v, step))
  {
    hide After;
    hide Core;
    if InLoop(v.c) && InLoop(v.s) {
      assert Strip(v) == v;
      StepKeepsCore(nonEmpty, v, step);
      BothInLoop(nonEmpty, After(v, step));
    } else if Late(v.c, v.s, ToServer(v)) && v.sa == NoApp {
      if step.client {
        ClientRunsAhead(nonEmpty, v, step);
      } else if step.action == DoDeliver {
        LateDeliver(nonEmpty, v);
      } else {
        assert step == Step(false, DoShake);
        ServerTakesLast(nonEmpty, v);
      }
    } else {
      EarlyKeepsInv(nonEmpty, v, step);
    }
  }

  /** Every state of every disciplined run satisfies the invariant. */
  lemma {:induction false} RunKeepsInv(nonEmpty: bool, v: Sys, steps: seq<Step>, w: Sys)
    requires Inv(nonEmpty, v) && Run(nonEmpty, v, steps, w)
    ensures Inv(nonEmpty, w)
    decreases |steps|
  {
    hide Inv;
    if steps != [] {
      StepKeepsInv(nonEmpty, v, steps[0]);
      RunKeepsInv(nonEmpty, After(v, steps[0]), steps[1..], w);
    }
  }
}
