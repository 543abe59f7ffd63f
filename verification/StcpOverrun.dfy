/**
 * When a copy of the control loop leaves its buffer, however the applications close: never at the
 * server, and at the client exactly if its FIN fills a window that one answer alone would reopen.
 */
module StcpOverrun {
  import opened Bytes
  import opened PacketQueueSpec
  import opened StcpTypes
  import opened StcpSteps
  import opened StcpSystem
  import opened StcpChannel
  import opened StcpLink
  import opened StcpInvariant
  import opened StcpStages
  import opened StcpHandshake
  import opened StcpFree

  // ----- the answers one end still waits for ----------------------------------------------------------

  /** The acknowledgement numbers in a channel. */
  function AcksIn(ch: seq<Packet>): seq<int> {
    if ch == [] then [] else AckOf(ch[0]) + AcksIn(ch[1..])
  }

  function AckOf(p: Packet): seq<int> {
    if p.flags == TH_ACK then [p.ack] else []
  }

  /** The number the peer will answer a segment with. */
  function Due(p: Packet): int {
    if p.flags == TH_FIN then p.seqno + 1 else p.seqno + |p.payload|
  }

  /** The answers that the segments in a channel will draw. */
  function DuesIn(ch: seq<Packet>): seq<int> {
    if ch == [] then [] else DueOf(ch[0]) + DuesIn(ch[1..])
  }

  function DueOf(p: Packet): seq<int> {
    if p.flags == TH_ACK then [] else [Due(p)]
  }

  /** Acknowledgements on their way back, then those still to be sent. */
  function Answers(ix: seq<Packet>, iy: seq<Packet>): seq<int> {
    AcksIn(ix) + DuesIn(iy)
  }

  lemma {:induction false} AcksConcat(a: seq<Packet>, b: seq<Packet>)
    ensures AcksIn(a + b) == AcksIn(a) + AcksIn(b)
  {
    hide AckOf;
    if a == [] {
      assert a + b == b;
    } else {
      assert (a + b)[0] == a[0] && (a + b)[1..] == a[1..] + b;
      AcksConcat(a[1..], b);
      Regroup(AckOf(a[0]), AcksIn(a[1..]), AcksIn(b));
    }
  }

  lemma Regroup(a: seq<int>, b: seq<int>, c: seq<int>)
    ensures a + (b + c) == (a + b) + c
  {
  }

  lemma {:induction false} DuesConcat(a: seq<Packet>, b: seq<Packet>)
    ensures DuesIn(a + b) == DuesIn(a) + DuesIn(b)
  {
    if a == [] {
      assert a + b == b;
    } else {
      hide DueOf;
      assert (a + b)[0] == a[0] && (a + b)[1..] == a[1..] + b;
      DuesConcat(a[1..], b);
      assert DueOf(a[0]) + (DuesIn(a[1..]) + DuesIn(b)) == (DueOf(a[0]) + DuesIn(a[1..])) + DuesIn(b);
    }
  }

  lemma OneIn(p: Packet)
    ensures AcksIn([p]) == if p.flags == TH_ACK then [p.ack] else []
    ensures DuesIn([p]) == if p.flags == TH_ACK then [] else [Due(p)]
  {
    assert [p][1..] == [];
  }

  predicate OnlyAcks(ch: seq<Packet>) {
    forall p <- ch :: p.flags == TH_ACK
  }

  lemma {:induction false} OnlyAcksOweNothing(ch: seq<Packet>)
    requires OnlyAcks(ch)
    ensures DuesIn(ch) == []
  {
    if ch != [] {
      assert ch[0] in ch;
      OnlyAcksOweNothing(ch[1..]);
    }
  }

  lemma {:induction false} AckIsThere(ch: seq<Packet>, n: int)
    requires n in AcksIn(ch)
    ensures exists i | 0 <= i < |ch| :: ch[i].flags == TH_ACK && ch[i].ack == n
  {
    if !(ch[0].flags == TH_ACK && ch[0].ack == n) {
      AckIsThere(ch[1..], n);
      var i :| 0 <= i < |ch[1..]| && ch[1..][i].flags == TH_ACK && ch[1..][i].ack == n;
      assert ch[i + 1].ack == n;
    }
  }

  /** Never falling, and between `lo` and `hi`. */
  predicate Bounded(a: seq<int>, lo: int, hi: int) {
    && (forall i, j | 0 <= i < j < |a| :: a[i] <= a[j])
    && (forall i | 0 <= i < |a| :: lo <= a[i] <= hi)
  }

  /** The answers that an end with everything in order waits for: the last one covers all it sent. */
  predicate Rising(a: seq<int>, lo: int, hi: int) {
    && Bounded(a, lo, hi)
    && (if a == [] then lo == hi else a[|a| - 1] == hi)
  }

  // ----- what an action does to the numbers -----------------------------------------------------------

  /** Nothing that the window depends on has changed. */
  predicate Kept(e: Endpoint, f: Endpoint) {
    f == e.(netQ := f.netQ, appRecvQ := f.appRecvQ, appSendQ := f.appSendQ, recvBase := f.recvBase,
            closeRequested := f.closeRequested, pc := f.pc, done := f.done, conn := f.conn)
  }

  function In(x: End): seq<Packet> {
    Inbound(x.e.netQ, x.wire)
  }

  predicate Quiet(x: End, o: Outcome) {
    o.sent == [] && In(o.end) == In(x) && Kept(x.e, o.end.e) && o.end.e.conn == x.e.conn
  }

  predicate Sends(x: End, o: Outcome) {
    && !FinSent(x.e)
    && In(o.end) == In(x) && o.end.e.conn == x.e.conn && o.end.e.sendBase == x.e.sendBase
    && Windowed(o.end.e)
    && |o.sent| == 1 && o.sent[0].flags == TH_DATA && Due(o.sent[0]) == o.end.e.next >= x.e.next
  }

  predicate TakesAck(x: End, o: Outcome) {
    && !AwaitsLastAck(x.e) && x.e.conn != Closed
    && In(x) != [] && In(x)[0].flags == TH_ACK && In(o.end) == In(x)[1..] && o.sent == []
    && Kept(RecvAck(x.e, In(x)[0]), o.end.e) && o.end.e.conn == x.e.conn
  }

  /** A segment is answered; a FIN also moves the connection on. */
  predicate Replies(x: End, o: Outcome) {
    && !AwaitsLastAck(x.e) && x.e.conn != Closed
    && In(x) != [] && In(x)[0].flags != TH_ACK && In(o.end) == In(x)[1..]
    && |o.sent| == 1 && o.sent[0].flags == TH_ACK && o.sent[0].ack == Wrap32(Due(In(x)[0]))
    && Kept(x.e, o.end.e)
    && o.end.e.conn == (if In(x)[0].flags != TH_FIN then x.e.conn else if x.e.isClient then Closed else CloseWait)
  }

  predicate Swallows(x: End, o: Outcome) {
    && AwaitsLastAck(x.e) && In(x) != [] && In(o.end) == In(x)[1..] && o.sent == []
    && Kept(x.e.(overread := x.e.overread || In(x)[0].payload != []), o.end.e)
    && o.end.e.conn == (if In(x)[0].flags != TH_ACK || In(x)[0].payload != [] then x.e.conn else if x.e.isClient then FinWait2 else Closed)
  }

  predicate SendsFin(x: End, o: Outcome) {
    && x.e.conn == (if x.e.isClient then Established else CloseWait)
    && o.end.e.conn == (if x.e.isClient then FinWait1 else LastAck)
    && In(o.end) == In(x) && o.end.e.next == x.e.next + 1 && Kept(x.e.(next := o.end.e.next, rem := o.end.e.rem), o.end.e)
    && |o.sent| == 1 && o.sent[0].flags == TH_FIN && Due(o.sent[0]) == o.end.e.next
  }

  /** What an end keeps by itself: its close flags, and every byte written is sent or still to be sent. */
  predicate Local(x: End, client: bool) {
    && Sound(x.e, client)
    && (Pending(x.e) ==> x.a.closed)
    && (FinSent(x.e) ==> x.a.closed && !Pending(x.e) && x.e.appRecvQ == [])
    && x.e.next + |Flat(x.e.appRecvQ)| == ISN + |x.a.written| + One(FinSent(x.e))
    && (!FinSent(x.e) ==> Windowed(x.e))
  }

  /** A FIN arrives only where the connection is ready for it. */
  predicate FinExpected(x: End) {
    In(x) != [] && In(x)[0].flags == TH_FIN && !AwaitsLastAck(x.e) && x.e.conn != Closed ==> x.e.conn == if x.e.isClient then FinWait2 else Established
  }

  predicate Happens(x: End, o: Outcome) {
    || Quiet(x, o) || Sends(x, o) || TakesAck(x, o) || Replies(x, o) || Swallows(x, o) || SendsFin(x, o)
  }

  /** The bound on what an application writes. */
  predicate Small(a: App) {
    |a.written| < W32 - 2
  }

  lemma NextBound(x: End, client: bool)
    requires Local(x, client) && Small(x.a)
    ensures x.e.next < W32
    ensures !FinSent(x.e) ==> x.e.next + |Flat(x.e.appRecvQ)| + 1 < W32
  {
    hide Sound, Windowed, Flat;
  }

  lemma WriteHappens(x: End, client: bool, data: seq<byte>)
    requires Local(x, client) && Enabled(x, DoWrite(data))
    ensures var o := Act(x, DoWrite(data)); Quiet(x, o) && Local(o.end, client)
  {
    FlatPush(x.e.appRecvQ, data);
    hide Flat;
  }

  lemma DeliverHappens(x: End, client: bool)
    requires Local(x, client) && Enabled(x, DoDeliver)
    ensures var o := Act(x, DoDeliver); Quiet(x, o) && Local(o.end, client)
  {
    hide Flat;
    assert Inbound(x.e.netQ + [x.wire[0]], x.wire[1..]) == Inbound(x.e.netQ, x.wire);
  }

  lemma ReadHappens(x: End, client: bool, max: nat)
    requires Local(x, client) && Enabled(x, DoRead(max))
    ensures var o := Act(x, DoRead(max)); Quiet(x, o) && Local(o.end, client)
  {
    hide Flat, TakePartial;
  }

  lemma CloseHappens(x: End, client: bool)
    requires Local(x, client) && Enabled(x, DoClose)
    ensures var o := Act(x, DoClose); Quiet(x, o) && Local(o.end, client)
  {
    hide Flat;
  }

  lemma AppStageHappens(x: End, client: bool)
    requires Local(x, client) && StageEnabled(x.e) && x.e.pc.AppStage? && x.e.pc.ev.app && Small(x.a)
    ensures var f := StageStep(x.e); var o := Outcome(x.(e := f.e), f.sent);
            (Quiet(x, o) || Sends(x, o)) && Local(o.end, client)
  {
    var e := x.e;
    NextBound(x, client);
    SendDataKeepsWindow(e);
    TakeSplits(e.appRecvQ, Min(e.rem, MSS));
    hide SendData, TakePartial, Flat, Splice;
    assert !FinSent(e);
  }

  lemma NetStageHappens(x: End, client: bool)
    requires Local(x, client) && StageEnabled(x.e) && x.e.pc.NetStage? && x.e.pc.ev.net && !JumpsToClose(x.e)
    requires AllShaped(false, In(x)) && FinExpected(x)
    ensures var f := StageStep(x.e); var o := Outcome(x.(e := f.e), f.sent);
            TakesAck(x, o) || Replies(x, o)
  {
    var e := x.e;
    RecvKeepsInbound(e.netQ, x.wire);
    HeadShaped(e.netQ, x.wire);
    assert !AwaitsLastAck(e) && e.conn != Closed;
    RecvPacketIs(e);
    hide Flat, Windowed, Inbound, AllShaped, RecvPacket, RecvAck, CloseBlock;
    RecvAckAnywhere(e, e.netQ[0], e.netQ[1..], e.pc);
  }

  /** What taking a packet does besides the queues, by kind. */
  lemma RecvPacketIs(e: Endpoint)
    requires e.netQ != [] && |e.netQ[0].payload| <= MSS
    ensures var f, p := RecvPacket(e), e.netQ[0];
            if p.flags == TH_ACK then f == Effect(RecvAck(e.(netQ := e.netQ[1..]), p), [])
            else
              && f.e == e.(netQ := e.netQ[1..], recvBase := f.e.recvBase, appSendQ := f.e.appSendQ,
                           conn := if p.flags != TH_FIN then e.conn else if e.isClient then Closed else CloseWait,
                           done := e.done || (p.flags == TH_FIN && e.isClient))
              && |f.sent| == 1 && f.sent[0].flags == TH_ACK && f.sent[0].ack == Wrap32(Due(p))
  {
    hide RecvAck, Wrap32, Wrap64;
  }

  /** An acknowledgement is expected: before the FIN it lies in the window. */
  predicate AckExpected(x: End) {
    In(x) != [] && In(x)[0].flags == TH_ACK && !FinSent(x.e) ==> x.e.sendBase <= In(x)[0].ack <= x.e.next
  }

  lemma NetStageLocal(x: End, client: bool)
    requires Local(x, client) && StageEnabled(x.e) && x.e.pc.NetStage? && x.e.pc.ev.net && !JumpsToClose(x.e)
    requires AllShaped(false, In(x)) && FinExpected(x) && AckExpected(x)
    ensures Local(x.(e := StageStep(x.e).e), client)
  {
    var e := x.e;
    RecvKeepsInbound(e.netQ, x.wire);
    HeadShaped(e.netQ, x.wire);
    var p, e1 := e.netQ[0], e.(netQ := e.netQ[1..]);
    if p.flags == TH_ACK {
      if !FinSent(e) {
        RecvAckKeepsWindow(e1, p);
      }
      RecvAckFrame(e1, p);
      hide RecvAck;
    } else {
      hide RecvAck;
    }
    hide Flat, Inbound, AllShaped, Wrap32, Wrap64;
  }

  /** The stages that jump to, or run, the close block. */
  lemma CloseHappensAt(x: End, client: bool)
    requires Local(x, client) && StageEnabled(x.e) && Small(x.a)
    requires (x.e.pc.NetStage? && x.e.pc.ev.net && JumpsToClose(x.e)) || x.e.pc.CloseStage?
    requires x.e.isClient ==> x.e.conn != LastAck
    requires !x.e.isClient ==> x.e.conn != FinWait1
    ensures var f := StageStep(x.e); var o := Outcome(x.(e := f.e), f.sent);
            (Quiet(x, o) || Swallows(x, o) || SendsFin(x, o)) && Local(o.end, client)
  {
    if x.e.pc.CloseStage? {
      CloseStageHappens(x, client);
    } else {
      JumpHappens(x, client);
    }
    hide *;
  }

  lemma JumpHappens(x: End, client: bool)
    requires Local(x, client) && StageEnabled(x.e) && Small(x.a)
    requires x.e.pc.NetStage? && x.e.pc.ev.net && JumpsToClose(x.e)
    requires x.e.isClient ==> x.e.conn != LastAck
    requires !x.e.isClient ==> x.e.conn != FinWait1
    ensures var f := StageStep(x.e); var o := Outcome(x.(e := f.e), f.sent);
            (Quiet(x, o) || Swallows(x, o) || SendsFin(x, o)) && Local(o.end, client)
  {
    hide Flat, SendData, RecvPacket, Swallow;
    RecvKeepsInbound(x.e.netQ, x.wire);
    NextBound(x, client);
    CloseBlockIs(x.e);
    hide Inbound, CloseBlock, Windowed;
  }

  lemma CloseStageHappens(x: End, client: bool)
    requires Local(x, client) && StageEnabled(x.e) && Small(x.a)
    requires x.e.pc.CloseStage?
    requires x.e.isClient ==> x.e.conn != LastAck
    requires !x.e.isClient ==> x.e.conn != FinWait1
    ensures var f := StageStep(x.e); var o := Outcome(x.(e := f.e), f.sent);
            (Quiet(x, o) || Swallows(x, o) || SendsFin(x, o)) && Local(o.end, client)
  {
    hide Flat, SendData, RecvPacket, Swallow;
    if x.e.netQ != [] {
      RecvKeepsInbound(x.e.netQ, x.wire);
    }
    NextBound(x, client);
    if x.e.pc.ev.close {
      CloseBlockIs(x.e);
    }
    hide Inbound, CloseBlock, Windowed;
  }

  /** The close block, field by field. */
  lemma CloseBlockIs(e: Endpoint)
    requires AwaitsLastAck(e) ==> e.netQ != []
    requires e.next + 1 < W32 || e.conn != if e.isClient then Established else CloseWait
    ensures var f := CloseBlock(e);
            if AwaitsLastAck(e) then
              && f.sent == []
              && f.e == if e.netQ[0].payload != [] then e.(netQ := e.netQ[1..], overread := true)
                        else e.(netQ := e.netQ[1..],
                                conn := if e.netQ[0].flags != TH_ACK then e.conn else if e.isClient then FinWait2 else Closed,
                                done := e.done || (e.netQ[0].flags == TH_ACK && !e.isClient))
            else if e.conn == (if e.isClient then Established else CloseWait) then
              && f.sent == [Packet(e.next, 0, TH_FIN, [])]
              && f.e == e.(next := e.next + 1, rem := f.e.rem, conn := if e.isClient then FinWait1 else LastAck)
            else f == Effect(e, [])
  {
    WrapIsIdentity(e.next);
    WrapIsIdentity(e.next + 1);
    hide Wrap32, Wrap64, Remaining;
  }

  /** Idle stages and the first stage of a round. */
  lemma IdleHappens(x: End, client: bool)
    requires Local(x, client) && StageEnabled(x.e)
    requires x.e.pc.Wait? || (x.e.pc.AppStage? && !x.e.pc.ev.app) || (x.e.pc.NetStage? && !x.e.pc.ev.net)
    ensures var f := StageStep(x.e); var o := Outcome(x.(e := f.e), f.sent); Quiet(x, o) && Local(o.end, client)
  {
    hide Flat;
  }

  lemma ActHappens(x: End, action: Action, client: bool)
    requires Local(x, client) && Enabled(x, action) && AllShaped(false, In(x)) && Small(x.a)
    requires FinExpected(x) && AckExpected(x)
    requires if x.e.isClient then x.e.conn != LastAck else x.e.conn != FinWait1
    ensures Happens(x, Act(x, action)) && Local(Act(x, action).end, client)
  {
    hide StageStep, AllShaped, Quiet, Sends, TakesAck, Replies, Swallows, SendsFin, Kept;
    match action
    case DoWrite(data) => WriteHappens(x, client, data);
    case DoDeliver => DeliverHappens(x, client);
    case DoRead(max) => ReadHappens(x, client, max);
    case DoClose => CloseHappens(x, client);
    case DoStage =>
      var e := x.e;
      if e.pc.AppStage? && e.pc.ev.app {
        AppStageHappens(x, client);
      } else if e.pc.NetStage? && e.pc.ev.net && !JumpsToClose(e) {
        NetStageHappens(x, client);
        NetStageLocal(x, client);
      } else if (e.pc.NetStage? && e.pc.ev.net) || e.pc.CloseStage? {
        CloseHappensAt(x, client);
      } else {
        IdleHappens(x, client);
      }
    case _ =>
  }

  // ----- the invariant of both ends -------------------------------------------------------------------

  /** How far the FINs have come. */
  predicate Flow(c: CState, s: CState, ic: seq<Packet>, is_: seq<Packet>) {
    if c == Established then s == Established && NoFin(ic) && NoFin(is_)
    else
      && (c == FinWait1 || c == FinWait2 || c == Closed)
      && match s
         case Established => c != Closed && NoFin(ic) && FinLast(is_)
         case CloseWait => c != Closed && NoFin(ic) && OnlyAcks(is_)
         case LastAck => OnlyAcks(is_) && FinThenAcks(ic) && (c == Closed ==> OnlyAcks(ic))
         case Closed => OnlyAcks(is_) && FinThenAcks(ic) && (c == Closed ==> OnlyAcks(ic))
         case _ => false
  }

  /** There is a FIN, and only acknowledgements follow it. */
  predicate FinLast(ch: seq<Packet>) {
    exists j | 0 <= j < |ch| :: ch[j].flags == TH_FIN && NoFin(ch[..j]) && OnlyAcks(ch[j + 1..])
  }

  /** Nothing but acknowledgements follows a FIN. */
  predicate FinThenAcks(ch: seq<Packet>) {
    forall i, j | 0 <= i < j < |ch| && ch[i].flags == TH_FIN :: ch[j].flags == TH_ACK
  }

  /** The window of an end that may have sent its FIN. */
  predicate Window(e: Endpoint) {
    && !e.fault && e.recvWin == RECV_WINDOW_SIZE && MSS <= e.cwnd <= MAX_CWND
    && e.swnd == Min(e.cwnd, RECV_WINDOW_SIZE) && |e.buffer| == e.swnd
    && ISN <= e.sendBase <= e.next < W32 && e.next - 1 <= e.sendBase + e.swnd
  }

  /** After its FIN an end waits for the answers to its data, then for the answer to the FIN. */
  predicate Draining(e: Endpoint, a: seq<int>) {
    && Window(e) && Bounded(a, e.sendBase, e.next)
    && (a != [] ==> a[|a| - 1] == e.next)
    && (|a| >= 2 ==> a[|a| - 2] == e.next - 1)
    && (e.conn == FinWait1 ==> a != [])
  }

  /** An answer to data will be taken before the answer to the FIN, or the FIN fits the window. */
  predicate Room(e: Endpoint, a: seq<int>) {
    e.next <= e.sendBase + e.swnd || a == [] || |a| >= if e.conn == FinWait1 then 3 else 2
  }

  /** No FIN of the peer arrives before the answer numbered `n`. */
  predicate FinBehind(ch: seq<Packet>, n: int) {
    forall j | 0 <= j < |ch| && ch[j].flags == TH_FIN :: exists i | 0 <= i < j :: ch[i].flags == TH_ACK && ch[i].ack == n
  }

  /** The answer to the FIN will be one more than the window holds. */
  predicate Doomed(e: Endpoint, a: seq<int>, ic: seq<Packet>) {
    && e.next == e.sendBase + e.swnd + 1
    && |a| == (if e.conn == FinWait1 then 2 else 1)
    && FinBehind(ic, e.next)
  }

  /** The client's numbers; `misfit` says that its FIN left without room. */
  predicate ClientTrack(c: Endpoint, ic: seq<Packet>, is_: seq<Packet>, misfit: bool) {
    var a := Answers(ic, is_);
    if c.conn == Established then !misfit && Rising(a, c.sendBase, c.next)
    else if c.conn == Closed then !misfit && c.Running()
    else if c.fault then misfit
    else Draining(c, a) && if misfit then Doomed(c, a, ic) else Room(c, a)
  }

  predicate ServerTrack(s: Endpoint, ic: seq<Packet>, is_: seq<Packet>) {
    s.Running() && (!FinSent(s) ==> Bounded(Answers(is_, ic), s.sendBase, s.next))
  }

  predicate Track(u: Sys, misfit: bool) {
    && Plain(u)
    && Local(EndOf(u, true), true) && Local(EndOf(u, false), false)
    && Flow(u.c.conn, u.s.conn, ToClient(u), ToServer(u))
    && ClientTrack(u.c, ToClient(u), ToServer(u), misfit)
    && ServerTrack(u.s, ToClient(u), ToServer(u))
  }

  // ----- the client moves -----------------------------------------------------------------------------

  lemma Heads(ch: seq<Packet>)
    requires ch != []
    ensures AcksIn(ch) == (if ch[0].flags == TH_ACK then [ch[0].ack] else []) + AcksIn(ch[1..])
    ensures DuesIn(ch) == (if ch[0].flags == TH_ACK then [] else [Due(ch[0])]) + DuesIn(ch[1..])
  {
  }

  /** The next answer lies in the window, or the FIN's is the only one and does not. */
  lemma AnswerFits(x: Endpoint, a: seq<int>)
    requires Draining(x, a) && a != [] && x.conn == FinWait2
    ensures x.sendBase <= a[0] <= x.next && (Room(x, a) ==> a[0] <= x.sendBase + x.swnd)
    ensures |a| == 1 ==> a[0] == x.next
  {
  }

  /** An answer inside the window is taken, one beyond it is fatal. */
  lemma AnswerTaken(x: Endpoint, p: Packet)
    requires Window(x) && x.sendBase <= p.ack <= x.next
    ensures var e := RecvAck(x, p);
            if p.ack > x.sendBase + x.swnd then e == x.(fault := true)
            else Window(e) && e.sendBase == p.ack && e.next == x.next && e.conn == x.conn && e.swnd >= x.swnd
  {
    hide GrowCwnd, Wrap64, Zeros, Remaining;
    GrowCwndBounds(x.cwnd);
    WrapIsIdentity(p.ack - x.sendBase);
  }

  lemma StillDraining(x: Endpoint, e: Endpoint, a: seq<int>)
    requires Draining(x, a) && a != [] && x.conn == FinWait2 && Room(x, a)
    requires Window(e) && e.sendBase == a[0] && e.next == x.next && e.conn == x.conn && e.swnd >= x.swnd
    ensures Draining(e, a[1..]) && Room(e, a[1..])
  {
    BoundedHead(a, x.sendBase, x.next);
    hide Bounded, Window;
  }

  /** Taking an acknowledgement while the FIN is not yet answered. */
  lemma DrainingAck(x: Endpoint, p: Packet, a: seq<int>)
    requires Draining(x, a) && a != [] && p.ack == a[0] && x.conn == FinWait2
    ensures var e := RecvAck(x, p);
            && (x.next == x.sendBase + x.swnd + 1 && |a| == 1 ==> e == x.(fault := true))
            && (Room(x, a) ==> Draining(e, a[1..]) && Room(e, a[1..]))
  {
    AnswerFits(x, a);
    AnswerTaken(x, p);
    hide RecvAck, Bounded, Room;
    if Room(x, a) {
      StillDraining(x, RecvAck(x, p), a);
    }
  }

  /** What one move of the client has to re-establish. */
  predicate ClientMoved(u: Sys, o: Outcome, misfit: bool) {
    var ic, is_ := In(o.end), ToServer(u) + o.sent;
    && Flow(o.end.e.conn, u.s.conn, ic, is_)
    && ClientTrack(o.end.e, ic, is_, misfit)
    && ServerTrack(u.s, ic, is_)
  }

  predicate Misfits(u: Sys, o: Outcome) {
    SendsFin(EndOf(u, true), o) && u.c.rem == 0 && |Answers(ToClient(u), ToServer(u))| < 2
  }

  lemma ClientQuiet(u: Sys, o: Outcome, misfit: bool)
    requires Track(u, misfit) && Quiet(EndOf(u, true), o)
    ensures ClientMoved(u, o, misfit)
  {
    assert ToServer(u) + o.sent == ToServer(u);
    hide Local, Plain, AcksIn, DuesIn;
  }

  lemma Appended(ix: seq<Packet>, iy: seq<Packet>, p: Packet)
    ensures Answers(ix, iy + [p]) == if p.flags == TH_ACK then Answers(ix, iy) else Answers(ix, iy) + [Due(p)]
    ensures Answers(ix + [p], iy) == if p.flags == TH_ACK then AcksIn(ix) + [p.ack] + DuesIn(iy) else Answers(ix, iy)
  {
    DuesConcat(iy, [p]);
    AcksConcat(ix, [p]);
    OneIn(p);
    hide AcksIn, DuesIn;
  }

  /** An acknowledgement at the head is the first answer of one end and none of the other. */
  lemma AckHead(ix: seq<Packet>, iy: seq<Packet>)
    requires ix != [] && ix[0].flags == TH_ACK
    ensures var a := Answers(ix, iy); a != [] && a[0] == ix[0].ack && Answers(ix[1..], iy) == a[1..]
    ensures Answers(iy, ix[1..]) == Answers(iy, ix)
  {
    Heads(ix);
    hide AcksIn, DuesIn;
    assert DuesIn(ix) == DuesIn(ix[1..]);
  }

  /** A segment at the head is an answer of its sender only. */
  lemma SegmentHead(ix: seq<Packet>, iy: seq<Packet>)
    requires ix != [] && ix[0].flags != TH_ACK
    ensures Answers(ix[1..], iy) == Answers(ix, iy)
    ensures var n := |AcksIn(iy)|; n < |Answers(iy, ix)| && Answers(iy, ix)[n] == Due(ix[0])
    ensures Answers(iy, ix) == AcksIn(iy) + ([Due(ix[0])] + DuesIn(ix[1..]))
  {
    Heads(ix);
    hide AcksIn, DuesIn;
    assert AcksIn(ix) == AcksIn(ix[1..]);
  }

  /** The server's answers depend on the acknowledgements towards it and what it has in flight. */
  lemma ServerAnswers(ic: seq<Packet>, is_: seq<Packet>, ic': seq<Packet>, is': seq<Packet>)
    requires AcksIn(is') == AcksIn(is_) && DuesIn(ic') == DuesIn(ic)
    ensures Answers(is', ic') == Answers(is_, ic)
  {
  }

  /** Taking a packet that is not a FIN moves no connection on. */
  lemma FlowTaken(c: CState, s: CState, ic: seq<Packet>, is_: seq<Packet>)
    requires Flow(c, s, ic, is_) && ic != []
    ensures Flow(c, s, ic[1..], is_)
  {
    assert forall i | 0 <= i < |ic[1..]| :: ic[1..][i] == ic[i + 1];
    assert forall p <- ic[1..] :: p in ic;
  }

  lemma DoomedTaken(e: Endpoint, a: seq<int>, ic: seq<Packet>, f: Endpoint, b: seq<int>)
    requires Doomed(e, a, ic) && ic != [] && !(ic[0].flags == TH_ACK && ic[0].ack == e.next)
    requires f.next == e.next && f.sendBase == e.sendBase && f.swnd == e.swnd
    requires |b| == if f.conn == FinWait1 then 2 else 1
    ensures ic[0].flags != TH_FIN && Doomed(f, b, ic[1..])
  {
    forall j | 0 <= j < |ic[1..]| && ic[1..][j].flags == TH_FIN
      ensures exists i | 0 <= i < j :: ic[1..][i].flags == TH_ACK && ic[1..][i].ack == e.next
    {
      assert ic[j + 1].flags == TH_FIN;
      var i :| 0 <= i < j + 1 && ic[i].flags == TH_ACK && ic[i].ack == e.next;
      assert ic[1..][i - 1] == ic[i];
    }
  }

  // The numbers alone.

  lemma RisingHead(a: seq<int>, lo: int, hi: int)
    requires Rising(a, lo, hi) && a != []
    ensures lo <= a[0] <= hi && Rising(a[1..], a[0], hi)
  {
  }

  lemma RisingPush(a: seq<int>, lo: int, hi: int, n: int)
    requires Rising(a, lo, hi) && hi <= n
    ensures Rising(a + [n], lo, n)
  {
  }

  lemma BoundedPush(a: seq<int>, lo: int, hi: int, n: int)
    requires Bounded(a, lo, hi) && lo <= hi <= n
    ensures Bounded(a + [n], lo, n)
  {
  }

  lemma BoundedHead(a: seq<int>, lo: int, hi: int)
    requires Bounded(a, lo, hi) && a != []
    ensures lo <= a[0] <= hi && Bounded(a[1..], a[0], hi) && Bounded(a[1..], lo, hi)
  {
  }

  /** One answer fewer in the middle. */
  lemma BoundedCut(a: seq<int>, n: int, b: seq<int>, lo: int, hi: int)
    requires Bounded(a + ([n] + b), lo, hi)
    ensures Bounded(a + b, lo, hi)
  {
    var all := a + ([n] + b);
    assert forall i | 0 <= i < |a + b| :: (a + b)[i] == all[if i < |a| then i else i + 1];
  }

  lemma FinPushed(c: Endpoint, f: Endpoint, a: seq<int>)
    requires Windowed(c) && Rising(a, c.sendBase, c.next) && c.next + 1 < W32
    requires Kept(c.(next := c.next + 1, rem := f.rem), f) && f.next == c.next + 1 && f.conn == FinWait1
    ensures Draining(f, a + [f.next])
    ensures if c.rem == 0 && |a| < 2 then f.next == f.sendBase + f.swnd + 1 && |a + [f.next]| == 2
            else Room(f, a + [f.next])
  {
    RisingPush(a, c.sendBase, c.next, f.next);
    hide Bounded;
  }

  lemma BeforeLast(e: Endpoint, a: seq<int>)
    requires Draining(e, a)
    ensures |a| >= 2 ==> a[|a| - 2] == e.next - 1
  {
    hide Bounded;
  }

  lemma DrainingSwallow(c: Endpoint, f: Endpoint, a: seq<int>)
    requires Draining(c, a) && c.conn == FinWait1 && Kept(c.(overread := f.overread), f) && f.conn == FinWait2
    ensures Draining(f, a[1..]) && (Room(c, a) ==> Room(f, a[1..]))
  {
    BoundedHead(a, c.sendBase, c.next);
    hide Bounded;
  }

  lemma EstablishedAck(c: Endpoint, f: Endpoint, p: Packet, a: seq<int>)
    requires Windowed(c) && Rising(a, c.sendBase, c.next) && a != [] && a[0] == p.ack
    requires Kept(RecvAck(c, p), f)
    ensures Rising(a[1..], f.sendBase, f.next)
  {
    RisingHead(a, c.sendBase, c.next);
    RecvAckKeepsWindow(c, p);
    hide RecvAck, Windowed, Rising;
  }

  // The client's moves.

  lemma ClientSends(u: Sys, o: Outcome, misfit: bool)
    requires Track(u, misfit) && Sends(EndOf(u, true), o)
    ensures ClientMoved(u, o, misfit)
  {
    var ic, is_, p := ToClient(u), ToServer(u), o.sent[0];
    assert o.sent == [p];
    Appended(ic, is_, p);
    AcksConcat(is_, [p]);
    OneIn(p);
    assert AcksIn(is_ + [p]) == AcksIn(is_) + [];
    ServerAnswers(ic, is_, ic, is_ + [p]);
    hide AcksIn, DuesIn, Answers, Local, Plain, Bounded, Windowed;
    assert u.c.conn == Established;
    assert NoFin(is_ + [p]);
    RisingPush(Answers(ic, is_), u.c.sendBase, u.c.next, Due(p));
    hide Rising;
  }

  lemma ClientAckNumbers(c: Endpoint, f: Endpoint, ic: seq<Packet>, is_: seq<Packet>, misfit: bool)
    requires ClientTrack(c, ic, is_, misfit) && (c.conn == Established ==> Windowed(c))
    requires c.conn == Established || c.conn == FinWait2
    requires ic != [] && ic[0].flags == TH_ACK && Kept(RecvAck(c, ic[0]), f) && f.conn == c.conn
    ensures ClientTrack(f, ic[1..], is_, misfit)
  {
    var p, a := ic[0], Answers(ic, is_);
    Heads(ic);
    assert a[0] == p.ack && Answers(ic[1..], is_) == a[1..];
    RecvAckFrame(c, p);
    hide AcksIn, DuesIn, Answers, RecvAck, Windowed, Rising, Draining, FinBehind, Bounded, Room, Doomed;
    if c.conn == Established {
      EstablishedAck(c, f, p, a);
    } else if !c.fault {
      DrainedAck(c, f, p, a, ic, misfit);
    }
  }

  lemma DrainedAck(c: Endpoint, f: Endpoint, p: Packet, a: seq<int>, ic: seq<Packet>, misfit: bool)
    requires Draining(c, a) && a != [] && p.ack == a[0] && c.conn == FinWait2
    requires Kept(RecvAck(c, p), f) && f.conn == c.conn
    ensures misfit && Doomed(c, a, ic) ==> f.fault
    ensures Room(c, a) ==> !f.fault && Draining(f, a[1..]) && Room(f, a[1..])
  {
    DrainingAck(c, p, a);
    DrainingKept(RecvAck(c, p), f, a[1..]);
    hide RecvAck, FinBehind, Bounded;
  }

  lemma ClientTakesAck(u: Sys, o: Outcome, misfit: bool)
    requires Track(u, misfit) && TakesAck(EndOf(u, true), o)
    ensures ClientMoved(u, o, misfit)
  {
    var ic, is_ := ToClient(u), ToServer(u);
    hide AcksIn, DuesIn, Answers, Plain, RecvAck, Windowed, Flow, Bounded, ClientTrack;
    assert is_ + o.sent == is_;
    AckHead(ic, is_);
    FlowTaken(u.c.conn, u.s.conn, ic, is_);
    FlowClient(u.c.conn, u.s.conn, ic, is_);
    ClientAckNumbers(u.c, o.end.e, ic, is_, misfit);
  }

  lemma FlowClient(c: CState, s: CState, ic: seq<Packet>, is_: seq<Packet>)
    requires Flow(c, s, ic, is_)
    ensures c == Established || c == FinWait1 || c == FinWait2 || c == Closed
    ensures s == Established || s == CloseWait || s == LastAck || s == Closed
  {
  }

  lemma DrainingKept(e: Endpoint, f: Endpoint, a: seq<int>)
    requires Kept(e.(overread := f.overread), f) && f.conn == e.conn
    ensures Draining(e, a) ==> Draining(f, a)
  {
    hide Bounded;
  }

  lemma ClientReplyNumbers(c: Endpoint, f: Endpoint, ic: seq<Packet>, is_: seq<Packet>, q: Packet, misfit: bool)
    requires ClientTrack(c, ic, is_, misfit) && (c.conn == Established || c.conn == FinWait2)
    requires c.Running()
    requires ic != [] && ic[0].flags != TH_ACK && q.flags == TH_ACK && Kept(c, f)
    requires f.conn == if ic[0].flags != TH_FIN then c.conn else Closed
    requires ic[0].flags == TH_FIN ==> c.conn == FinWait2
    ensures ClientTrack(f, ic[1..], is_ + [q], misfit)
  {
    var a := Answers(ic, is_);
    hide AcksIn, DuesIn, Answers, Bounded, FinBehind, Draining;
    SegmentHead(ic, is_);
    Appended(ic[1..], is_, q);
    if c.conn == FinWait2 {
      if misfit {
        DoomedTaken(c, a, ic, c, a);
      }
      DrainingKept(c, f.(conn := FinWait2), a);
    }
  }

  lemma ClientReplies(u: Sys, o: Outcome, misfit: bool)
    requires Track(u, misfit) && Replies(EndOf(u, true), o) && FinExpected(EndOf(u, true)) && u.c.Running()
    ensures ClientMoved(u, o, misfit)
  {
    var ic, is_ := ToClient(u), ToServer(u);
    var q := o.sent[0];
    hide AcksIn, DuesIn, Answers, Plain, Windowed, Flow, ServerTrack, ClientTrack;
    assert o.sent == [q];
    FlowClient(u.c.conn, u.s.conn, ic, is_);
    ReplyKeepsServer(u, ic, is_, q);
    FlowReplied(u.c.conn, u.s.conn, ic, is_, q);
    EstablishedSound(u, misfit);
    ClientReplyNumbers(u.c, o.end.e, ic, is_, q, misfit);
  }

  lemma ReplyKeepsServer(u: Sys, ic: seq<Packet>, is_: seq<Packet>, q: Packet)
    requires ServerTrack(u.s, ic, is_) && (!FinSent(u.s) ==> Windowed(u.s))
    requires ic != [] && ic[0].flags != TH_ACK && q.flags == TH_ACK && q.ack == Wrap32(Due(ic[0]))
    ensures ServerTrack(u.s, ic[1..], is_ + [q])
  {
    hide AcksIn, DuesIn, Answers, Wrap32;
    SegmentHead(ic, is_);
    Appended(is_, ic[1..], q);
    if !FinSent(u.s) {
      WrapIsIdentity(Due(ic[0]));
      assert Answers(is_ + [q], ic[1..]) == Answers(is_, ic);
    }
  }

  lemma FlowReplied(c: CState, s: CState, ic: seq<Packet>, is_: seq<Packet>, q: Packet)
    requires Flow(c, s, ic, is_) && ic != [] && q.flags == TH_ACK
    requires ic[0].flags == TH_FIN ==> c == FinWait2
    ensures Flow(if ic[0].flags == TH_FIN then Closed else c, s, ic[1..], is_ + [q])
  {
    FlowTaken(c, s, ic, is_);
    if s == Established && c != Established {
      FinLastPush(is_, q);
    }
    if ic[0].flags == TH_FIN {
      assert ic[0] in ic;
    }
    hide FinLast;
  }

  lemma FinLastPush(ch: seq<Packet>, q: Packet)
    requires FinLast(ch) && q.flags == TH_ACK
    ensures FinLast(ch + [q])
  {
    var j :| 0 <= j < |ch| && ch[j].flags == TH_FIN && NoFin(ch[..j]) && OnlyAcks(ch[j + 1..]);
    var after := ch + [q];
    assert after[..j] == ch[..j] && after[j + 1..] == ch[j + 1..] + [q] && after[j] == ch[j];
  }

  lemma ClientSwallows(u: Sys, o: Outcome, misfit: bool)
    requires Track(u, misfit) && Swallows(EndOf(u, true), o)
    ensures ClientMoved(u, o, misfit)
  {
    var ic, is_ := ToClient(u), ToServer(u);
    var a := Answers(ic, is_);
    BareAcks(u);
    hide AcksIn, DuesIn, Answers, Plain, Windowed, Rising, Bounded, FinBehind, Flow, ServerTrack, Draining;
    assert is_ + o.sent == is_;
    FlowTaken(u.c.conn, u.s.conn, ic, is_);
    FlowSwallowed(u.s.conn, ic[1..], is_);
    SwallowKeepsServer(u, ic, is_);
    if !u.c.fault {
      if ic[0].flags == TH_ACK {
        AckHead(ic, is_);
        DrainingSwallow(u.c, o.end.e, a);
        if misfit {
          BeforeLast(u.c, a);
          DoomedTaken(u.c, a, ic, o.end.e, a[1..]);
        }
      } else {
        SegmentHead(ic, is_);
        DrainingKept(u.c, o.end.e, a);
        if misfit {
          DoomedTaken(u.c, a, ic, o.end.e, a);
        }
      }
    }
  }

  /** An acknowledgement carries no payload. */
  lemma BareAcks(u: Sys)
    requires Plain(u)
    ensures forall p <- ToClient(u) :: p.flags == TH_ACK ==> p.payload == []
    ensures forall p <- ToServer(u) :: p.flags == TH_ACK ==> p.payload == []
  {
  }

  lemma FlowSwallowed(s: CState, ic: seq<Packet>, is_: seq<Packet>)
    requires Flow(FinWait1, s, ic, is_)
    ensures Flow(FinWait2, s, ic, is_)
  {
  }

  lemma SwallowKeepsServer(u: Sys, ic: seq<Packet>, is_: seq<Packet>)
    requires ServerTrack(u.s, ic, is_) && ic != []
    ensures ServerTrack(u.s, ic[1..], is_)
  {
    Heads(ic);
    assert ic[0].flags == TH_ACK ==> DuesIn(ic) == [] + DuesIn(ic[1..]) == DuesIn(ic[1..]);
    if !FinSent(u.s) && ic[0].flags != TH_ACK {
      BoundedCut(AcksIn(is_), Due(ic[0]), DuesIn(ic[1..]), u.s.sendBase, u.s.next);
    }
    hide AcksIn, DuesIn;
  }

  lemma ClientFinNumbers(c: Endpoint, f: Endpoint, ic: seq<Packet>, is_: seq<Packet>, p: Packet)
    requires Windowed(c) && Rising(Answers(ic, is_), c.sendBase, c.next) && c.next + 1 < W32 && NoFin(ic)
    requires Kept(c.(next := c.next + 1, rem := f.rem), f) && f.next == c.next + 1 && f.conn == FinWait1
    requires p.flags == TH_FIN && Due(p) == f.next
    ensures ClientTrack(f, ic, is_ + [p], c.rem == 0 && |Answers(ic, is_)| < 2)
  {
    var a := Answers(ic, is_);
    hide AcksIn, DuesIn, Answers, Bounded, FinBehind, Draining, Rising, Windowed;
    WindowedSound(c);
    Appended(ic, is_, p);
    FinPushed(c, f, a);
    NoneBehind(ic, f.next);
  }

  lemma ClientSendsFin(u: Sys, o: Outcome, misfit: bool)
    requires Track(u, misfit) && SendsFin(EndOf(u, true), o) && u.c.next + 1 < W32
    ensures ClientMoved(u, o, Misfits(u, o))
  {
    var ic, is_, p := ToClient(u), ToServer(u), o.sent[0];
    hide AcksIn, DuesIn, Answers, Plain, Windowed, Rising, FinLast;
    assert o.sent == [p];
    Appended(is_, ic, p);
    FlowFin(ic, is_, p);
    ClientFinNumbers(u.c, o.end.e, ic, is_, p);
    hide ClientTrack;
  }

  lemma WindowedSound(e: Endpoint)
    requires Windowed(e)
    ensures !e.fault
  {
  }

  lemma NoneBehind(ch: seq<Packet>, n: int)
    requires NoFin(ch)
    ensures FinBehind(ch, n)
  {
    assert forall j | 0 <= j < |ch| :: ch[j] in ch;
  }

  lemma FlowFin(ic: seq<Packet>, is_: seq<Packet>, p: Packet)
    requires Flow(Established, Established, ic, is_) && p.flags == TH_FIN
    ensures Flow(FinWait1, Established, ic, is_ + [p])
  {
    var j := |is_|;
    assert (is_ + [p])[j] == p && (is_ + [p])[..j] == is_ && (is_ + [p])[j + 1..] == [];
  }

  // ----- the server moves -----------------------------------------------------------------------------

  predicate ServerMoved(u: Sys, o: Outcome, misfit: bool) {
    var ic, is_ := ToClient(u) + o.sent, In(o.end);
    && Flow(u.c.conn, o.end.e.conn, ic, is_)
    && ClientTrack(u.c, ic, is_, misfit)
    && ServerTrack(o.end.e, ic, is_)
  }

  lemma ServerQuiet(u: Sys, o: Outcome, misfit: bool)
    requires Track(u, misfit) && Quiet(EndOf(u, false), o)
    ensures ServerMoved(u, o, misfit)
  {
    assert ToClient(u) + o.sent == ToClient(u);
    hide Local, Plain, AcksIn, DuesIn, ClientTrack, Bounded;
  }

  /** A packet that is not a FIN overtakes nothing. */
  lemma BehindPush(ch: seq<Packet>, n: int, p: Packet)
    requires FinBehind(ch, n)
    requires p.flags != TH_FIN || exists i | 0 <= i < |ch| :: ch[i].flags == TH_ACK && ch[i].ack == n
    ensures FinBehind(ch + [p], n)
  {
    var after := ch + [p];
    forall j | 0 <= j < |after| && after[j].flags == TH_FIN
      ensures exists i | 0 <= i < j :: after[i].flags == TH_ACK && after[i].ack == n
    {
      if j < |ch| {
        assert ch[j].flags == TH_FIN;
        var i :| 0 <= i < j && ch[i].flags == TH_ACK && ch[i].ack == n;
        assert after[i] == ch[i];
      } else {
        var i :| 0 <= i < |ch| && ch[i].flags == TH_ACK && ch[i].ack == n;
        assert after[i] == ch[i];
      }
    }
  }

  /** What the client waits for decides its part of the invariant, with the place of a FIN in its channel. */
  lemma ClientSame(c: Endpoint, ic: seq<Packet>, is_: seq<Packet>, ic': seq<Packet>, is': seq<Packet>, misfit: bool)
    requires ClientTrack(c, ic, is_, misfit)
    requires c.conn != Closed && !c.fault ==> Answers(ic', is') == Answers(ic, is_)
    requires FinBehind(ic, c.next) && c.conn != Established && c.conn != Closed && !c.fault && misfit ==> FinBehind(ic', c.next)
    requires c.conn == Established ==> !c.fault
    ensures ClientTrack(c, ic', is', misfit)
  {
    hide AcksIn, DuesIn, Bounded, FinBehind, Draining, Room;
  }

  lemma ServerSends(u: Sys, o: Outcome, misfit: bool)
    requires Track(u, misfit) && Sends(EndOf(u, false), o)
    ensures ServerMoved(u, o, misfit)
  {
    var ic, is_, p := ToClient(u), ToServer(u), o.sent[0];
    assert o.sent == [p];
    Appended(is_, ic, p);
    Appended(ic, is_, p);
    if FinBehind(ic, u.c.next) {
      BehindPush(ic, u.c.next, p);
    }
    FlowSent(u.c.conn, u.s.conn, ic, is_, p);
    if !FinSent(u.s) {
      BoundedPush(Answers(is_, ic), u.s.sendBase, u.s.next, Due(p));
    }
    EstablishedSound(u, misfit);
    ClientSame(u.c, ic, is_, ic + [p], is_, misfit);
    hide AcksIn, DuesIn, Answers, Plain, Bounded, Flow, FinBehind, ClientTrack;
  }

  lemma EstablishedSound(u: Sys, misfit: bool)
    requires Track(u, misfit)
    ensures u.c.conn == Established ==> !u.c.fault
    ensures !FinSent(u.s) ==> u.s.sendBase <= u.s.next
  {
    hide ClientTrack, ServerTrack, Flow, Plain;
  }

  lemma FlowSent(c: CState, s: CState, ic: seq<Packet>, is_: seq<Packet>, p: Packet)
    requires Flow(c, s, ic, is_) && p.flags != TH_FIN
    requires p.flags == TH_ACK || s == Established || s == CloseWait
    ensures Flow(c, s, ic + [p], is_)
  {
    hide FinLast;
  }

  lemma ServerTakesAck(u: Sys, o: Outcome, misfit: bool)
    requires Track(u, misfit) && TakesAck(EndOf(u, false), o)
    ensures ServerMoved(u, o, misfit)
  {
    var ic, is_ := ToClient(u), ToServer(u);
    var p, a := is_[0], Answers(is_, ic);
    hide AcksIn, DuesIn, Answers, Plain, Bounded, Flow, FinBehind, ClientTrack, RecvAck, Windowed;
    assert ic + o.sent == ic;
    AckHead(is_, ic);
    FlowServerTakes(u.c.conn, u.s.conn, ic, is_);
    FlowClient(u.c.conn, u.s.conn, ic, is_);
    EstablishedSound(u, misfit);
    ClientSame(u.c, ic, is_, ic, is_[1..], misfit);
    RecvAckFrame(u.s, p);
    assert !FinSent(u.s);
    BoundedHead(a, u.s.sendBase, u.s.next);
    ServerAckNumbers(u.s, o.end.e, p, a);
  }

  lemma ServerAckNumbers(s: Endpoint, f: Endpoint, p: Packet, a: seq<int>)
    requires Windowed(s) && a != [] && p.ack == a[0] && Bounded(a, s.sendBase, s.next) && Kept(RecvAck(s, p), f)
    ensures !f.fault && Bounded(a[1..], f.sendBase, f.next)
  {
    BoundedHead(a, s.sendBase, s.next);
    RecvAckKeepsWindow(s, p);
    hide RecvAck, Bounded;
  }

  /** The server takes an acknowledgement, or data. */
  lemma FlowServerTakes(c: CState, s: CState, ic: seq<Packet>, is_: seq<Packet>)
    requires Flow(c, s, ic, is_) && is_ != [] && is_[0].flags != TH_FIN
    ensures Flow(c, s, ic, is_[1..])
  {
    assert forall p <- is_[1..] :: p in is_;
    if s == Established && c != Established {
      var j :| 0 <= j < |is_| && is_[j].flags == TH_FIN && NoFin(is_[..j]) && OnlyAcks(is_[j + 1..]);
      var rest := is_[1..];
      assert rest[j - 1] == is_[j] && rest[..j - 1] == is_[..j][1..] && rest[j - 1 + 1..] == is_[j + 1..];
      assert forall p <- is_[..j][1..] :: p in is_[..j];
    }
  }

  lemma FlowServerFin(c: CState, ic: seq<Packet>, is_: seq<Packet>)
    requires Flow(c, Established, ic, is_) && is_ != [] && is_[0].flags == TH_FIN
    ensures Flow(c, CloseWait, ic, is_[1..])
  {
    assert is_[0] in is_;
    var j :| 0 <= j < |is_| && is_[j].flags == TH_FIN && NoFin(is_[..j]) && OnlyAcks(is_[j + 1..]);
    HeadBefore(is_, j);
  }

  lemma HeadBefore(ch: seq<Packet>, j: nat)
    requires j < |ch| && NoFin(ch[..j])
    ensures j > 0 ==> ch[0].flags != TH_FIN
  {
    if j > 0 {
      assert ch[0] == ch[..j][0];
    }
  }

  lemma ServerReplies(u: Sys, o: Outcome, misfit: bool)
    requires Track(u, misfit) && Replies(EndOf(u, false), o) && FinExpected(EndOf(u, false)) && Small(u.ca)
    ensures ServerMoved(u, o, misfit)
  {
    var ic, is_ := ToClient(u), ToServer(u);
    var p, q := is_[0], o.sent[0];
    assert o.sent == [q];
    Heads(is_);
    Appended(is_[1..], ic, q);
    assert AcksIn(is_) == [] + AcksIn(is_[1..]) == AcksIn(is_[1..]);
    assert Answers(is_[1..], ic + [q]) == Answers(is_, ic);
    if FinBehind(ic, u.c.next) {
      BehindPush(ic, u.c.next, q);
    }
    EstablishedSound(u, misfit);
    if u.c.conn != Closed && !u.c.fault {
      ReplyAnswers(u, ic, is_, q, misfit);
    }
    ClientSame(u.c, ic, is_, ic + [q], is_[1..], misfit);
    if p.flags == TH_FIN {
      FlowServerFin(u.c.conn, ic, is_);
      FlowSent(u.c.conn, CloseWait, ic, is_[1..], q);
    } else {
      FlowServerTakes(u.c.conn, u.s.conn, ic, is_);
      FlowSent(u.c.conn, u.s.conn, ic, is_[1..], q);
    }
    hide AcksIn, DuesIn, Answers, Plain, Bounded, Flow, FinBehind, ClientTrack;
  }

  /** The answer to the first segment on its way takes that segment's place. */
  lemma ReplyAnswers(u: Sys, ic: seq<Packet>, is_: seq<Packet>, q: Packet, misfit: bool)
    requires ClientTrack(u.c, ic, is_, misfit) && u.c.conn != Closed && !u.c.fault && u.c.next < W32
    requires is_ != [] && is_[0].flags != TH_ACK && q.flags == TH_ACK && q.ack == Wrap32(Due(is_[0]))
    ensures Answers(ic + [q], is_[1..]) == Answers(ic, is_)
  {
    hide AcksIn, DuesIn, Answers, Room, Doomed, Wrap32;
    SegmentHead(is_, ic);
    Appended(ic, is_[1..], q);
    assert 0 <= Due(is_[0]) <= u.c.next;
    WrapIsIdentity(Due(is_[0]));
  }

  lemma ServerSwallows(u: Sys, o: Outcome, misfit: bool)
    requires Track(u, misfit) && Swallows(EndOf(u, false), o)
    ensures ServerMoved(u, o, misfit)
  {
    var ic, is_ := ToClient(u), ToServer(u);
    assert ic + o.sent == ic;
    BareAcks(u);
    assert is_[0] in is_;
    OnlyAcksOweNothing(is_);
    assert OnlyAcks(is_[1..]) by { assert forall p <- is_[1..] :: p in is_; }
    OnlyAcksOweNothing(is_[1..]);
    assert Answers(ic, is_[1..]) == Answers(ic, is_);
    EstablishedSound(u, misfit);
    ClientSame(u.c, ic, is_, ic, is_[1..], misfit);
    hide AcksIn, DuesIn, Answers, Plain, Bounded, FinBehind, ClientTrack;
  }

  lemma ServerSendsFin(u: Sys, o: Outcome, misfit: bool)
    requires Track(u, misfit) && SendsFin(EndOf(u, false), o)
    ensures ServerMoved(u, o, misfit)
  {
    hide AcksIn, DuesIn, Plain;
    var ic, is_, p := ToClient(u), ToServer(u), o.sent[0];
    assert o.sent == [p];
    Appended(ic, is_, p);
    OnlyAcksOweNothing(is_);
    assert Answers(ic, is_) == AcksIn(ic) + [] == AcksIn(ic);
    EstablishedSound(u, misfit);
    if FinBehind(ic, u.c.next) && u.c.conn != Closed && !u.c.fault && misfit {
      AckIsThere(ic, u.c.next);
      BehindPush(ic, u.c.next, p);
    }
    ClientSame(u.c, ic, is_, ic + [p], is_, misfit);
    assert FinThenAcks(ic + [p]);
    hide AcksIn, DuesIn, Answers, Plain, Bounded, FinBehind, ClientTrack;
  }

  // ----- one step -------------------------------------------------------------------------------------

  /** The client's FIN leaves a window without room, and no more than one answer is still to come. */
  predicate MisfitStep(u: Sys, step: Step) {
    && step.client && step.action.DoStage? && u.c.pc.CloseStage? && u.c.pc.ev.close && u.c.conn == Established
    && u.c.rem == 0 && |Answers(ToClient(u), ToServer(u))| < 2
  }

  lemma FinStepIs(x: End, action: Action)
    requires Local(x, true) && Enabled(x, action) && x.e.isClient
    ensures x.e.conn == Established && Act(x, action).end.e.conn == FinWait1
       <==> action.DoStage? && x.e.pc.CloseStage? && x.e.pc.ev.close && x.e.conn == Established
  {
    if action.DoStage? && x.e.pc.AppStage? && x.e.pc.ev.app {
      SendDataFrame(x.e);
    }
    if action.DoStage? && x.e.pc.NetStage? && x.e.pc.ev.net {
      RecvAckFrame(x.e.(netQ := x.e.netQ[1..]), x.e.netQ[0]);
    }
    hide SendData, RecvAck, Flat, Windowed;
  }

  /** The hypotheses under which an end acts. */
  lemma EndReady(u: Sys, client: bool, misfit: bool)
    requires Track(u, misfit)
    ensures var x := EndOf(u, client);
            && FinExpected(x) && AckExpected(x) && AllShaped(false, In(x)) && x.e.isClient == client
            && if client then x.e.conn != LastAck else x.e.conn != FinWait1
    ensures !FinSent(u.c) ==> u.c.conn == Established
  {
    var ic, is_ := ToClient(u), ToServer(u);
    FlowClient(u.c.conn, u.s.conn, ic, is_);
    if client {
      if ic != [] {
        assert ic[0] in ic;
        if ic[0].flags == TH_ACK {
          AckHead(ic, is_);
        }
      }
    } else if is_ != [] {
      assert is_[0] in is_;
      if is_[0].flags == TH_ACK {
        AckHead(is_, ic);
      }
    }
    hide AcksIn, DuesIn, Answers, AllShaped, Draining, Room, Doomed;
  }

  lemma ClientSteps(u: Sys, o: Outcome, misfit: bool)
    requires Track(u, misfit) && Happens(EndOf(u, true), o) && Small(u.ca) && u.c.Running()
    ensures ClientMoved(u, o, misfit || Misfits(u, o))
  {
    var x := EndOf(u, true);
    EndReady(u, true, misfit);
    NextBound(x, true);
    hide Track, ClientMoved, Quiet, Sends, TakesAck, Replies, Swallows, SendsFin;
    if SendsFin(x, o) {
      NotYetMisfit(u, o, misfit);
      ClientSendsFin(u, o, misfit);
    } else if Quiet(x, o) {
      ClientQuiet(u, o, misfit);
    } else if Sends(x, o) {
      ClientSends(u, o, misfit);
    } else if TakesAck(x, o) {
      ClientTakesAck(u, o, misfit);
    } else if Replies(x, o) {
      ClientReplies(u, o, misfit);
    } else {
      ClientSwallows(u, o, misfit);
    }
  }

  lemma NotYetMisfit(u: Sys, o: Outcome, misfit: bool)
    requires Track(u, misfit) && SendsFin(EndOf(u, true), o)
    ensures !misfit && !FinSent(u.c)
  {
    hide Plain, Local, ServerTrack;
  }

  lemma ServerSteps(u: Sys, o: Outcome, misfit: bool)
    requires Track(u, misfit) && Happens(EndOf(u, false), o) && Small(u.ca)
    ensures ServerMoved(u, o, misfit)
  {
    var x := EndOf(u, false);
    EndReady(u, false, misfit);
    hide Track, ServerMoved, Quiet, Sends, TakesAck, Replies, Swallows, SendsFin;
    if SendsFin(x, o) {
      ServerSendsFin(u, o, misfit);
    } else if Quiet(x, o) {
      ServerQuiet(u, o, misfit);
    } else if Sends(x, o) {
      ServerSends(u, o, misfit);
    } else if TakesAck(x, o) {
      ServerTakesAck(u, o, misfit);
    } else if Replies(x, o) {
      ServerReplies(u, o, misfit);
    } else {
      ServerSwallows(u, o, misfit);
    }
  }

  lemma LocalsOf(u: Sys, misfit: bool)
    requires Track(u, misfit)
    ensures Plain(u) && Local(EndOf(u, true), true) && Local(EndOf(u, false), false)
  {
    hide Plain, Local, Flow, ClientTrack, ServerTrack;
  }

  lemma TrackAfter(u: Sys, client: bool, o: Outcome, misfit: bool)
    requires var w := Put(u, client, o);
             && Plain(w) && Local(EndOf(w, true), true) && Local(EndOf(w, false), false)
    requires if client then ClientMoved(u, o, misfit) else ServerMoved(u, o, misfit)
    ensures Track(Put(u, client, o), misfit)
  {
    SendKeepsInbound(u.s.netQ, u.c2s, o.sent);
    SendKeepsInbound(u.c.netQ, u.s2c, o.sent);
    hide Plain, Local, Flow, ClientTrack, ServerTrack;
  }

  /** The other end's own part does not depend on its wire. */
  lemma LocalKept(x: End, y: End, client: bool)
    requires Local(x, client) && y.e == x.e && y.a == x.a
    ensures Local(y, client)
  {
  }

  lemma MisfitIs(u: Sys, step: Step, misfit: bool)
    requires Track(u, misfit) && CanStep(u, step) && step.client
    ensures Misfits(u, Act(EndOf(u, true), step.action)) ==> MisfitStep(u, step)
    ensures MisfitStep(u, step) && Happens(EndOf(u, true), Act(EndOf(u, true), step.action))
        ==> Misfits(u, Act(EndOf(u, true), step.action))
  {
    LocalsOf(u, misfit);
    EndReady(u, true, misfit);
    FinStepIs(EndOf(u, true), step.action);
    hide Track, Act, Local, Enabled, Answers, Plain;
  }

  lemma StepTracks(u: Sys, step: Step, misfit: bool)
    requires Track(u, misfit) && CanStep(u, step) && Small(u.ca) && Small(u.sa)
    ensures Track(After(u, step), misfit || MisfitStep(u, step))
  {
    var x, o := EndOf(u, step.client), Act(EndOf(u, step.client), step.action);
    AfterIs(u, step);
    LocalsOf(u, misfit);
    StepBytes(u, step, true);
    EndReady(u, step.client, misfit);
    ActHappens(x, step.action, step.client);
    PutBytes(u, step.client, o);
    hide Track, Act, After, Local, Happens, ClientMoved, ServerMoved, MisfitStep, Misfits, Plain;
    LocalKept(EndOf(u, !step.client), EndOf(Put(u, step.client, o), !step.client), !step.client);
    if step.client {
      ClientSteps(u, o, misfit);
      MisfitIs(u, step, misfit);
      TrackAfter(u, true, o, misfit || MisfitStep(u, step));
    } else {
      ServerSteps(u, o, misfit);
      TrackAfter(u, false, o, misfit);
      assert !MisfitStep(u, step) by { NotTheClient(u, step); }
    }
  }

  lemma NotTheClient(u: Sys, step: Step)
    ensures !step.client ==> !MisfitStep(u, step)
  {
  }

  // ----- whole runs -----------------------------------------------------------------------------------

  /** No FIN of the client leaves without room for its answer. */
  predicate FinsFit(v: Sys, steps: seq<Step>)
    decreases |steps|
  {
    steps == [] || !CanStep(v, steps[0]) ||
    (!MisfitStep(Strip(v), steps[0]) && FinsFit(After(v, steps[0]), steps[1..]))
  }

  lemma ActWrites(x: End, action: Action)
    requires Enabled(x, action)
    ensures |x.a.written| <= |Act(x, action).end.a.written|
  {
    hide StageStep, TakePartial;
  }

  lemma {:induction false} WritesGrow(v: Sys, steps: seq<Step>, w: Sys)
    requires FreeRun(v, steps, w) && Small(w.ca) && Small(w.sa)
    ensures Small(v.ca) && Small(v.sa)
    decreases |steps|
  {
    if steps != [] {
      WritesGrow(After(v, steps[0]), steps[1..], w);
      ActWrites(EndOf(v, steps[0].client), steps[0].action);
      AfterIs(v, steps[0]);
      hide Act, After;
    }
  }

  lemma FreeStepTracks(v: Sys, step: Step, misfit: bool)
    requires Handshake(v) && Track(Strip(v), misfit) && CanStep(v, step) && Small(v.ca) && Small(v.sa)
    ensures Handshake(After(v, step)) && Track(Strip(After(v, step)), misfit || MisfitStep(Strip(v), step))
  {
    StepCommutes(v, step);
    StripBytes(v);
    if Mirrored(v, step) {
      hide Handshake, Track, Strip, After, MisfitStep, CanStep;
      StepTracks(Strip(v), step, misfit);
    } else {
      hide Handshake, Track, Strip, After, CanStep;
    }
  }

  lemma {:induction false} RunTracks(v: Sys, steps: seq<Step>, w: Sys, misfit: bool)
    requires Handshake(v) && Track(Strip(v), misfit) && FreeRun(v, steps, w) && Small(w.ca) && Small(w.sa)
    ensures Handshake(w) && Track(Strip(w), misfit || !FinsFit(v, steps))
    decreases |steps|
  {
    hide Handshake, Track, Strip, After, MisfitStep, CanStep;
    if steps != [] {
      WritesGrow(v, steps, w);
      FreeStepTracks(v, steps[0], misfit);
      RunTracks(After(v, steps[0]), steps[1..], w, misfit || MisfitStep(Strip(v), steps[0]));
    }
  }

  lemma InitialTrack()
    ensures Handshake(Init()) && Track(Strip(Init()), false)
  {
    hide Zeros;
    assert BeforeSyn(Init().c, Init().s, ToClient(Init()), ToServer(Init()));
    EarlyStrip(Init());
    var u := BothEstablished();
    assert Windowed(u.c) && Windowed(u.s);
    assert ToClient(u) == [] && ToServer(u) == [];
    hide Windowed;
  }

  /** What the theorems read off the invariant. */
  lemma FaultOf(w: Sys, misfit: bool)
    requires Track(Strip(w), misfit)
    ensures w.s.Running() && (w.c.fault ==> misfit) && (w.c.done ==> !w.c.fault && !misfit)
  {
    StripFlags(w);
    TrackedFaults(Strip(w), misfit);
    hide *;
  }

  lemma TrackedFaults(u: Sys, misfit: bool)
    requires Track(u, misfit)
    ensures u.s.Running() && (u.c.fault ==> misfit) && (u.c.done ==> !u.c.fault && !misfit)
  {
    EstablishedSound(u, misfit);
    hide Plain, Flow, Answers, Draining, Room, Doomed, Rising, Bounded, Windowed;
  }

  /**
   * However the applications close, as long as they write less than 2^32 - 2 bytes each: neither a copy nor
   * a checksum at the server ever leaves its buffer, and no copy at the client does in a run whose FIN fits.
   */
  lemma NoOverrun(steps: seq<Step>, w: Sys)
    requires FreeRun(Init(), steps, w) && Small(w.ca) && Small(w.sa)
    ensures w.s.Running()
    ensures FinsFit(Init(), steps) ==> !w.c.fault
  {
    InitialTrack();
    hide Handshake, Track, Strip, FinsFit, FreeRun, Small;
    RunTracks(Init(), steps, w, false);
    FaultOf(w, !FinsFit(Init(), steps));
  }

  /**
   * And a FIN that does not fit is fatal: when the client has left its loop or copied outside its buffer,
   * it was the copy if and only if the FIN filled the window with one answer outstanding.
   */
  lemma OverrunExactly(steps: seq<Step>, w: Sys)
    requires FreeRun(Init(), steps, w) && Small(w.ca) && Small(w.sa) && (w.c.done || w.c.fault)
    ensures w.c.fault <==> !FinsFit(Init(), steps)
  {
    InitialTrack();
    hide Handshake, Track, Strip, FinsFit, FreeRun, Small;
    RunTracks(Init(), steps, w, false);
    FaultOf(w, !FinsFit(Init(), steps));
  }
}
